/** nulterminate of user/sh.c: the words of a parsed command become C strings in place. */
module ShellNul {
  import opened Shell

  // A whole word of the line.
  ghost predicate Proper(line: string, s: Span) {
    && s.q < s.eq <= |line| && (forall k :: s.q <= k < s.eq ==> IsWordChar(line[k]))
    && (s.eq < |line| ==> !IsWordChar(line[s.eq]))
  }

  ghost predicate AllProper(line: string, cmd: Cmd) {
    match cmd
    case Exec(args) => ProperSpans(line, args)
    case Redir(c, file, _) => AllProper(line, c) && Proper(line, file)
    case Pipe(l, r) => AllProper(line, l) && AllProper(line, r)
    case List(l, r) => AllProper(line, l) && AllProper(line, r)
    case Back(c) => AllProper(line, c)
  }

  ghost predicate ProperSpans(line: string, ss: seq<Span>) { forall i :: 0 <= i < |ss| ==> Proper(line, ss[i]) }

  ghost predicate ProperRedirs(line: string, rs: seq<Redirection>) {
    forall i :: 0 <= i < |rs| ==> Proper(line, rs[i].file)
  }

  // What the parser takes for a word is one.
  lemma TokenProper(line: string, i: nat)
    requires NulFree(line) && i <= |line| && TokenAt(line, i).kind == 'a'
    ensures Proper(line, TokenAt(line, i).span)
  {
    var q := Skip(line, i);
    assert line[q] == 'a' || !IsSymbol(line[q]);
  }

  lemma {:induction false} WrapProper(line: string, cmd: Cmd, rs: seq<Redirection>)
    requires AllProper(line, cmd) && ProperRedirs(line, rs)
    ensures AllProper(line, Wrap(cmd, rs))
  {
    if rs != [] { WrapProper(line, cmd, rs[..|rs| - 1]); }
  }

  lemma {:induction false} RedirsProper(line: string, i: nat)
    requires NulFree(line) && i <= |line| && Redirs(line, i).Ok?
    ensures ProperRedirs(line, Redirs(line, i).value)
    decreases |line| - i
  {
    hide Skip, Proper;
    if Looks(line, i, "<>") {
      var tok := TokenAt(line, i);
      var file := TokenAt(line, tok.next);
      TokenProper(line, tok.next);
      RedirsProper(line, file.next);
    }
  }

  lemma NoRedirs(line: string)
    ensures ProperRedirs(line, [])
  {
  }

  lemma SimpleProper(line: string, s: Span, args: seq<Span>, rs: seq<Redirection>, more: seq<Redirection>)
    requires Proper(line, s) && ProperSpans(line, args) && ProperRedirs(line, rs) && ProperRedirs(line, more)
    ensures ProperSpans(line, [s] + args) && ProperRedirs(line, rs + more)
  {
    hide Proper;
  }

  lemma {:induction false} ArgsProper(line: string, i: nat, n: nat)
    requires NulFree(line) && i <= |line| && Args(line, i, n).Ok?
    ensures ProperSpans(line, Args(line, i, n).value.args) && ProperRedirs(line, Args(line, i, n).value.redirs)
    decreases |line| - i
  {
    hide Skip, Looks, TokenAt, Proper, Redirs, ProperRedirs;
    var tok := TokenAt(line, i);
    if !Looks(line, i, "|)&;") && tok.kind != '\0' {
      TokenProper(line, i);
      RedirsProper(line, tok.next);
      var rs := Redirs(line, tok.next);
      ArgsProper(line, rs.pos, n + 1);
      var s := Args(line, rs.pos, n + 1).value;
      SimpleProper(line, tok.span, s.args, rs.value, s.redirs);
    } else {
      NoRedirs(line);
    }
  }

  lemma {:induction false} BacksProper(line: string, i: nat, cmd: Cmd)
    requires i <= |line| && AllProper(line, cmd)
    ensures AllProper(line, Backs(line, i, cmd).0)
    decreases |line| - i
  {
    if Looks(line, i, "&") { BacksProper(line, TokenAt(line, i).next, Back(cmd)); }
  }

  lemma {:induction false} ExecProper(line: string, i: nat)
    requires NulFree(line) && i <= |line| && ExecAt(line, i).Ok?
    ensures AllProper(line, ExecAt(line, i).value)
    decreases |line| - i, 1
  {
    hide Skip, Looks, Redirs, Args, BlockAt;
    if Looks(line, i, "(") {
      BlockProper(line, Skip(line, i));
    } else {
      RedirsProper(line, i);
      var r := Redirs(line, i);
      ArgsProper(line, r.pos, 0);
      WrapProper(line, Exec(Args(line, r.pos, 0).value.args), r.value + Args(line, r.pos, 0).value.redirs);
    }
  }

  lemma {:induction false} BlockProper(line: string, i: nat)
    requires NulFree(line) && i <= |line| && BlockAt(line, i).Ok?
    ensures AllProper(line, BlockAt(line, i).value)
    decreases |line| - i, 0
  {
    hide Skip, Redirs, LineAt;
    var next := TokenAt(line, i).next;
    LineProper(line, next);
    var r := LineAt(line, next);
    RedirsProper(line, TokenAt(line, r.pos).next);
    WrapProper(line, r.value, Redirs(line, TokenAt(line, r.pos).next).value);
  }

  lemma {:induction false} PipeProper(line: string, i: nat)
    requires NulFree(line) && i <= |line| && PipeAt(line, i).Ok?
    ensures AllProper(line, PipeAt(line, i).value)
    decreases |line| - i, 2
  {
    hide Skip, ExecAt;
    ExecProper(line, i);
    var pos := ExecAt(line, i).pos;
    if Looks(line, pos, "|") { PipeProper(line, TokenAt(line, pos).next); }
  }

  lemma {:induction false} LineProper(line: string, i: nat)
    requires NulFree(line) && i <= |line| && LineAt(line, i).Ok?
    ensures AllProper(line, LineAt(line, i).value)
    decreases |line| - i, 3
  {
    hide Skip, PipeAt;
    PipeProper(line, i);
    var r := PipeAt(line, i);
    BacksProper(line, r.pos, r.value);
    var pos := Backs(line, r.pos, r.value).1;
    if Looks(line, pos, ";") { LineProper(line, TokenAt(line, pos).next); }
  }

  // Some word of the command ends at k.
  predicate Ends(cmd: Cmd, k: nat) {
    match cmd
    case Exec(args) => EndsOne(args, k)
    case Redir(c, file, _) => Ends(c, k) || file.eq == k
    case Pipe(l, r) => Ends(l, k) || Ends(r, k)
    case List(l, r) => Ends(l, k) || Ends(r, k)
    case Back(c) => Ends(c, k)
  }

  predicate EndsOne(ss: seq<Span>, k: nat) { exists i :: 0 <= i < |ss| && ss[i].eq == k }

  // The words lie in a buffer of n characters.
  predicate InBuffer(cmd: Cmd, n: nat) {
    match cmd
    case Exec(args) => forall i :: 0 <= i < |args| ==> args[i].eq < n
    case Redir(c, file, _) => InBuffer(c, n) && file.eq < n
    case Pipe(l, r) => InBuffer(l, n) && InBuffer(r, n)
    case List(l, r) => InBuffer(l, n) && InBuffer(r, n)
    case Back(c) => InBuffer(c, n)
  }

  class Input {
    var buf: seq<char>

    constructor (line: string)
      ensures buf == line + ['\0']
    {
      buf := line + ['\0'];
    }

    method NulTerminate(cmd: Cmd)
      requires InBuffer(cmd, |buf|)
      modifies this
      ensures |buf| == |old(buf)| && forall k :: 0 <= k < |buf| ==> buf[k] == if Ends(cmd, k) then '\0' else old(buf)[k]
      decreases cmd
    {
      match cmd
      case Exec(args) =>
        var i := 0;
        while i < |args|
          invariant 0 <= i <= |args| && |buf| == |old(buf)|
          invariant forall k :: 0 <= k < |buf| ==> buf[k] == if EndsOne(args[..i], k) then '\0' else old(buf)[k]
        {
          forall k: nat ensures EndsOne(args[..i + 1], k) <==> EndsOne(args[..i], k) || args[i].eq == k {
            OneMore(args, i, k);
          }
          buf := buf[args[i].eq := '\0'];
          i := i + 1;
        }
        assert args[..i] == args;
      case Redir(c, file, _) =>
        NulTerminate(c);
        buf := buf[file.eq := '\0'];
      case Pipe(l, r) =>
        NulTerminate(l);
        NulTerminate(r);
      case List(l, r) =>
        NulTerminate(l);
        NulTerminate(r);
      case Back(c) =>
        NulTerminate(c);
    }
  }

  lemma OneMore(ss: seq<Span>, i: nat, k: nat)
    requires i < |ss|
    ensures EndsOne(ss[..i + 1], k) <==> EndsOne(ss[..i], k) || ss[i].eq == k
  {
    if EndsOne(ss[..i], k) {
      var j :| 0 <= j < i && ss[..i][j].eq == k;
      assert ss[..i + 1][j].eq == k;
    }
    if EndsOne(ss[..i + 1], k) {
      var j :| 0 <= j <= i && ss[..i + 1][j].eq == k;
      assert j < i ==> ss[..i][j].eq == k;
    }
    if ss[i].eq == k { assert ss[..i + 1][i].eq == k; }
  }

  // s is a word or file name of the command.
  predicate Names(cmd: Cmd, s: Span) {
    match cmd
    case Exec(args) => s in args
    case Redir(c, file, _) => Names(c, s) || file == s
    case Pipe(l, r) => Names(l, s) || Names(r, s)
    case List(l, r) => Names(l, s) || Names(r, s)
    case Back(c) => Names(c, s)
  }

  lemma {:induction false} NamesProper(line: string, cmd: Cmd, s: Span)
    requires AllProper(line, cmd) && Names(cmd, s)
    ensures Proper(line, s) && Ends(cmd, s.eq)
  {
    match cmd
    case Exec(args) =>
      var i :| 0 <= i < |args| && args[i] == s;
    case Redir(c, file, _) => if Names(c, s) { NamesProper(line, c, s); }
    case Pipe(l, r) => if Names(l, s) { NamesProper(line, l, s); } else { NamesProper(line, r, s); }
    case List(l, r) => if Names(l, s) { NamesProper(line, l, s); } else { NamesProper(line, r, s); }
    case Back(c) => NamesProper(line, c, s);
  }

  lemma {:induction false} EndsOutside(line: string, cmd: Cmd, k: nat)
    requires AllProper(line, cmd) && Ends(cmd, k)
    ensures k <= |line| && (k < |line| ==> !IsWordChar(line[k]))
  {
    match cmd
    case Exec(args) =>
      var i :| 0 <= i < |args| && args[i].eq == k;
      assert Proper(line, args[i]);
    case Redir(c, file, _) => if Ends(c, k) { EndsOutside(line, c, k); }
    case Pipe(l, r) => if Ends(l, k) { EndsOutside(line, l, k); } else { EndsOutside(line, r, k); }
    case List(l, r) => if Ends(l, k) { EndsOutside(line, l, k); } else { EndsOutside(line, r, k); }
    case Back(c) => EndsOutside(line, c, k);
  }

  lemma {:induction false} ProperInBuffer(line: string, cmd: Cmd)
    requires AllProper(line, cmd)
    ensures InBuffer(cmd, |line| + 1)
  {
    match cmd
    case Exec(args) => forall i | 0 <= i < |args| ensures args[i].eq < |line| + 1 { assert Proper(line, args[i]); }
    case Redir(c, file, _) => ProperInBuffer(line, c);
    case Pipe(l, r) => { ProperInBuffer(line, l); ProperInBuffer(line, r); }
    case List(l, r) => { ProperInBuffer(line, l); ProperInBuffer(line, r); }
    case Back(c) => ProperInBuffer(line, c);
  }

  // The C string that starts at q is w.
  predicate ReadsAs(buf: seq<char>, q: nat, w: string) {
    NulFree(w) && q + |w| < |buf| && buf[q..q + |w|] == w && buf[q + |w|] == '\0'
  }

  /** After nulterminate, every argument and file name of a parsed line reads as a C string
      exactly its own characters. */
  method ParseAndTerminate(line: string) returns (r: Result<Cmd>, buf: seq<char>)
    requires NulFree(line)
    ensures r == Parsed(line)
    ensures r.Ok? ==> forall s :: Names(r.value, s) ==> s.q < s.eq <= |line| && ReadsAs(buf, s.q, line[s.q..s.eq])
  {
    var parser := new Parser(line);
    r := parser.ParseCmd();
    var input := new Input(line);
    buf := input.buf;
    if r.Ok? {
      LineProper(line, 0);
      ProperInBuffer(line, r.value);
      input.NulTerminate(r.value);
      buf := input.buf;
      forall s | Names(r.value, s) ensures s.q < s.eq <= |line| && ReadsAs(buf, s.q, line[s.q..s.eq]) {
        WordIntact(line, r.value, buf, s);
      }
    }
  }

  lemma WordIntact(line: string, cmd: Cmd, buf: seq<char>, s: Span)
    requires AllProper(line, cmd) && Names(cmd, s) && |buf| == |line| + 1
    requires forall k :: 0 <= k < |buf| ==> buf[k] == if Ends(cmd, k) then '\0' else (line + ['\0'])[k]
    ensures s.q < s.eq <= |line| && ReadsAs(buf, s.q, line[s.q..s.eq])
  {
    NamesProper(line, cmd, s);
    forall k | s.q <= k < s.eq ensures buf[k] == line[k] && IsWordChar(line[k]) {
      if Ends(cmd, k) { EndsOutside(line, cmd, k); }
    }
    assert buf[s.q..s.eq] == line[s.q..s.eq];
  }
}
