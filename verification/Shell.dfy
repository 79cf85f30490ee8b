/** The shell's parser (user/sh.c).  Positions are offsets into the input line,
    which ends at |line|. */
module Shell {
  const MAXARGS: nat := 10

  // The text from q up to eq.
  datatype Span = Span(q: nat, eq: nat)

  // < on descriptor 0; > and >> on descriptor 1
  datatype Mode = Read | Truncate | Append

  datatype Cmd = Exec(args: seq<Span>) | Redir(cmd: Cmd, file: Span, mode: Mode) | Pipe(left: Cmd, right: Cmd)
    | List(left: Cmd, right: Cmd) | Back(cmd: Cmd)

  datatype Result<+T> = Ok(value: T, pos: nat) | Panic(message: string)

  predicate IsSpace(c: char) { c in " \t\r\n\U{000B}" }
  predicate IsSymbol(c: char) { c in "<|>&;()" }
  predicate IsWordChar(c: char) { !IsSpace(c) && !IsSymbol(c) && c != '\0' }

  // C strings hold no NUL.
  predicate NulFree(line: string) { forall i :: 0 <= i < |line| ==> line[i] != '\0' }

  function Skip(line: string, i: nat): (j: nat)
    requires i <= |line|
    ensures i <= j <= |line| && (j < |line| ==> !IsSpace(line[j])) && (forall k :: i <= k < j ==> IsSpace(line[k]))
    decreases |line| - i
  {
    if i < |line| && IsSpace(line[i]) then Skip(line, i + 1) else i
  }

  function WordEnd(line: string, i: nat): (j: nat)
    requires i <= |line|
    ensures i <= j <= |line| && (j < |line| ==> IsSpace(line[j]) || IsSymbol(line[j]))
    ensures forall k :: i <= k < j ==> !IsSpace(line[k]) && !IsSymbol(line[k])
    decreases |line| - i
  {
    if i < |line| && !IsSpace(line[i]) && !IsSymbol(line[i]) then WordEnd(line, i + 1) else i
  }

  // kind is the symbol, '+' for >>, 'a' for a word and NUL for the end.
  datatype Token = Token(kind: char, span: Span, next: nat)

  function TokenAt(line: string, i: nat): (t: Token)
    requires i <= |line|
    ensures Skip(line, i) == t.span.q <= t.span.eq <= t.next <= |line|
    ensures t.kind != '\0' ==> i < t.next
  {
    var q := Skip(line, i);
    if q == |line| then Token('\0', Span(q, q), q)
    else if line[q] in "|();&<" then Token(line[q], Span(q, q + 1), Skip(line, q + 1))
    else if line[q] == '>' then
      if q + 1 < |line| && line[q + 1] == '>' then
        Token('+', Span(q, q + 2), Skip(line, q + 2))
      else Token('>', Span(q, q + 1), Skip(line, q + 1))
    else
      var eq := WordEnd(line, q);
      Token('a', Span(q, eq), Skip(line, eq))
  }

  // peek: whether the next character is one of toks.
  predicate Looks(line: string, i: nat, toks: string)
    requires i <= |line|
  {
    var j := Skip(line, i);
    j < |line| && line[j] in toks
  }

  datatype Redirection = Redirection(file: Span, mode: Mode)

  function Wrap(cmd: Cmd, rs: seq<Redirection>): Cmd {
    if rs == [] then cmd else Redir(Wrap(cmd, rs[..|rs| - 1]), rs[|rs| - 1].file, rs[|rs| - 1].mode)
  }

  function ModeOf(kind: char): Mode { if kind == '<' then Read else if kind == '>' then Truncate else Append }

  function Redirs(line: string, i: nat): (r: Result<seq<Redirection>>)
    requires i <= |line|
    ensures r.Ok? ==> i <= r.pos <= |line|
    decreases |line| - i
  {
    if !Looks(line, i, "<>") then Ok([], Skip(line, i))
    else
      var tok := TokenAt(line, i);
      var file := TokenAt(line, tok.next);
      if file.kind != 'a' then Panic("missing file for redirection")
      else match Redirs(line, file.next)
        case Ok(rs, pos) => Ok([Redirection(file.span, ModeOf(tok.kind))] + rs, pos)
        case Panic(m) => Panic(m)
  }

  datatype Simple = Simple(args: seq<Span>, redirs: seq<Redirection>)

  // The words and redirections that follow, n words having been seen.
  function Args(line: string, i: nat, n: nat): (r: Result<Simple>)
    requires i <= |line|
    ensures r.Ok? ==> i <= r.pos <= |line|
    decreases |line| - i
  {
    if Looks(line, i, "|)&;") then Ok(Simple([], []), Skip(line, i))
    else
      var tok := TokenAt(line, i);
      if tok.kind == '\0' then Ok(Simple([], []), tok.next)
      else if tok.kind != 'a' then Panic("syntax")
      else if n + 1 >= MAXARGS then Panic("too many args")
      else match Redirs(line, tok.next)
        case Panic(m) => Panic(m)
        case Ok(rs, pos) =>
          match Args(line, pos, n + 1)
          case Panic(m) => Panic(m)
          case Ok(s, pos') => Ok(Simple([tok.span] + s.args, rs + s.redirs), pos')
  }

  function ExecAt(line: string, i: nat): (r: Result<Cmd>)
    requires i <= |line|
    ensures r.Ok? ==> i <= r.pos <= |line|
    decreases |line| - i, 1
  {
    if Looks(line, i, "(") then BlockAt(line, Skip(line, i))
    else match Redirs(line, i)
      case Panic(m) => Panic(m)
      case Ok(rs, pos) =>
        match Args(line, pos, 0)
        case Panic(m) => Panic(m)
        case Ok(s, pos') => Ok(Wrap(Exec(s.args), rs + s.redirs), pos')
  }

  function BlockAt(line: string, i: nat): (r: Result<Cmd>)
    requires i <= |line|
    ensures r.Ok? ==> i <= r.pos <= |line|
    decreases |line| - i, 0
  {
    if !Looks(line, i, "(") then Panic("parseblock")
    else match LineAt(line, TokenAt(line, i).next)
      case Panic(m) => Panic(m)
      case Ok(cmd, pos) =>
        if !Looks(line, pos, ")") then Panic("syntax - missing )")
        else match Redirs(line, TokenAt(line, pos).next)
          case Panic(m) => Panic(m)
          case Ok(rs, pos') => Ok(Wrap(cmd, rs), pos')
  }

  function PipeAt(line: string, i: nat): (r: Result<Cmd>)
    requires i <= |line|
    ensures r.Ok? ==> i <= r.pos <= |line|
    decreases |line| - i, 2
  {
    match ExecAt(line, i)
    case Panic(m) => Panic(m)
    case Ok(cmd, pos) =>
      if !Looks(line, pos, "|") then Ok(cmd, Skip(line, pos))
      else match PipeAt(line, TokenAt(line, pos).next)
        case Panic(m) => Panic(m)
        case Ok(right, pos') => Ok(Pipe(cmd, right), pos')
  }

  // cmd followed by any number of &
  function Backs(line: string, i: nat, cmd: Cmd): (r: (Cmd, nat))
    requires i <= |line|
    ensures i <= r.1 <= |line|
    decreases |line| - i
  {
    if Looks(line, i, "&") then Backs(line, TokenAt(line, i).next, Back(cmd)) else (cmd, Skip(line, i))
  }

  function LineAt(line: string, i: nat): (r: Result<Cmd>)
    requires i <= |line|
    ensures r.Ok? ==> i <= r.pos <= |line|
    decreases |line| - i, 3
  {
    match PipeAt(line, i)
    case Panic(m) => Panic(m)
    case Ok(cmd, pos) =>
      var (back, pos') := Backs(line, pos, cmd);
      if !Looks(line, pos', ";") then Ok(back, Skip(line, pos'))
      else match LineAt(line, TokenAt(line, pos').next)
        case Panic(m) => Panic(m)
        case Ok(right, pos'') => Ok(List(back, right), pos'')
  }

  /** The command that a whole line means. */
  function Parsed(line: string): Result<Cmd> {
    match LineAt(line, 0)
    case Panic(m) => Panic(m)
    case Ok(cmd, pos) => if Skip(line, pos) != |line| then Panic("syntax") else Ok(cmd, |line|)
  }

  // Looking past white space changes nothing.
  lemma SkipAgain(line: string, i: nat)
    requires i <= |line|
    ensures Skip(line, Skip(line, i)) == Skip(line, i) && TokenAt(line, Skip(line, i)) == TokenAt(line, i)
    ensures forall toks :: Looks(line, Skip(line, i), toks) == Looks(line, i, toks)
  {
  }

  lemma RedirsSkip(line: string, i: nat)
    requires i <= |line|
    ensures Redirs(line, Skip(line, i)) == Redirs(line, i)
  {
    SkipAgain(line, i);
    hide Skip, TokenAt, Looks;
  }

  lemma ArgsSkip(line: string, i: nat, n: nat)
    requires i <= |line|
    ensures Args(line, Skip(line, i), n) == Args(line, i, n)
  {
    SkipAgain(line, i);
    hide Skip, TokenAt, Looks, Redirs;
  }

  lemma BacksSkip(line: string, i: nat, cmd: Cmd)
    requires i <= |line|
    ensures Backs(line, Skip(line, i), cmd) == Backs(line, i, cmd)
  {
    SkipAgain(line, i);
    hide Skip, TokenAt, Looks;
  }

  // One turn of parseredirs.
  lemma RedirsTurn(line: string, i: nat, rs: seq<Redirection>)
    requires i <= |line| && Looks(line, i, "<>")
    ensures var tok := TokenAt(line, i);
      var file := TokenAt(line, tok.next);
      var more := [Redirection(file.span, ModeOf(tok.kind))];
      if file.kind != 'a' then Redirs(line, i) == Panic("missing file for redirection")
      else i < file.next && Then(rs, Redirs(line, i)) == Then(rs + more, Redirs(line, Skip(line, file.next)))
  {
    var tok := TokenAt(line, i);
    assert tok.kind != '\0';
    var file := TokenAt(line, tok.next);
    RedirsSkip(line, file.next);
    hide Skip, TokenAt, Looks;
    var r := Redirs(line, file.next);
    if r.Ok? {
      assert rs + ([Redirection(file.span, ModeOf(tok.kind))] + r.value) ==
        rs + [Redirection(file.span, ModeOf(tok.kind))] + r.value;
    }
  }

  // One turn of parseexec's loop.
  lemma ArgsTurn(line: string, i: nat, n: nat, args: seq<Span>, rs: seq<Redirection>)
    requires i <= |line| && !Looks(line, i, "|)&;") && TokenAt(line, i).kind == 'a' && n + 1 < MAXARGS
    ensures var tok := TokenAt(line, i);
      match Redirs(line, tok.next)
      case Panic(m) => Args(line, i, n) == Panic(m)
      case Ok(more, pos) =>
        ThenArgs(args, rs, Args(line, i, n)) ==
        ThenArgs(args + [tok.span], rs + more, Args(line, Skip(line, pos), n + 1))
  {
    var tok := TokenAt(line, i);
    var r := Redirs(line, tok.next);
    if r.Ok? {
      ArgsSkip(line, r.pos, n + 1);
      hide Skip, TokenAt, Looks, Redirs;
      var a := Args(line, r.pos, n + 1);
      if a.Ok? {
        assert args + ([tok.span] + a.value.args) == args + [tok.span] + a.value.args;
        assert rs + (r.value + a.value.redirs) == rs + r.value + a.value.redirs;
      }
    }
  }

  // What is still to come, added to what has been seen.
  function Then<T>(seen: seq<T>, r: Result<seq<T>>): Result<seq<T>> {
    match r case Ok(more, pos) => Ok(seen + more, pos) case Panic(m) => Panic(m)
  }

  function ThenArgs(args: seq<Span>, rs: seq<Redirection>, r: Result<Simple>): Result<Simple> {
    match r case Ok(s, pos) => Ok(Simple(args + s.args, rs + s.redirs), pos) case Panic(m) => Panic(m)
  }

  lemma NothingSeen<T>(r: Result<seq<T>>)
    ensures Then([], r) == r
  {
    if r.Ok? { assert [] + r.value == r.value; }
  }

  lemma NoArgsSeen(r: Result<Simple>)
    ensures ThenArgs([], [], r) == r
  {
    if r.Ok? { assert [] + r.value.args == r.value.args && [] + r.value.redirs == r.value.redirs; }
  }

  lemma RedirsEnd(line: string, i: nat)
    requires i <= |line| && !Looks(line, i, "<>") && i == Skip(line, i)
    ensures Redirs(line, i) == Ok([], i)
  {
  }

  // parseexec's loop ends without another word.
  lemma ArgsOther(line: string, i: nat, n: nat)
    requires i <= |line| && !Looks(line, i, "|)&;")
    ensures var tok := TokenAt(line, i);
      (tok.kind == '\0' ==>
        Args(line, i, n) == Ok(Simple([], []), tok.next) && tok.next == Skip(line, tok.next)
        && TokenAt(line, tok.next).kind == '\0')
      && (tok.kind != '\0' && tok.kind != 'a' ==> Args(line, i, n) == Panic("syntax"))
      && (tok.kind == 'a' && n + 1 >= MAXARGS ==> Args(line, i, n) == Panic("too many args"))
      && (tok.kind != '\0' ==> tok.next > i)
  {
  }

  lemma ArgsStop(line: string, i: nat, n: nat)
    requires i <= |line| && i == Skip(line, i) && (Looks(line, i, "|)&;") || TokenAt(line, i).kind == '\0')
    ensures Args(line, i, n) == Ok(Simple([], []), i)
  {
  }

  lemma BacksTurn(line: string, i: nat, cmd: Cmd)
    requires i <= |line| && Looks(line, i, "&")
    ensures i < TokenAt(line, i).next && Backs(line, i, cmd) == Backs(line, TokenAt(line, i).next, Back(cmd))
  {
  }

  lemma BacksEnd(line: string, i: nat, cmd: Cmd)
    requires i <= |line| && !Looks(line, i, "&") && i == Skip(line, i)
    ensures Backs(line, i, cmd) == (cmd, i)
  {
  }

  lemma LooksMoves(line: string, i: nat, toks: string)
    requires i <= |line| && Looks(line, i, toks)
    ensures i < TokenAt(line, i).next
  {
  }

  class Parser {
    const line: string
    var ps: nat

    constructor (line: string)
      ensures this.line == line && ps == 0
    {
      this.line, ps := line, 0;
    }

    method Peek(toks: string) returns (b: bool)
      requires ps <= |line|
      modifies this
      ensures ps == Skip(line, old(ps)) && b == Looks(line, old(ps), toks)
    {
      var s := ps;
      while s < |line| && IsSpace(line[s])
        invariant ps <= s <= |line| && Skip(line, s) == Skip(line, ps)
      {
        s := s + 1;
      }
      ps := s;
      b := s < |line| && line[s] in toks;
    }

    method GetToken() returns (t: Token)
      requires ps <= |line|
      modifies this
      ensures t == TokenAt(line, old(ps)) && ps == t.next
    {
      var _ := Peek("");
      var s := ps;
      var q, kind := s, if s < |line| then line[s] else '\0';
      if s < |line| {
        if line[s] in "|();&<" {
          s := s + 1;
        } else if line[s] == '>' {
          s := s + 1;
          if s < |line| && line[s] == '>' {
            kind := '+';
            s := s + 1;
          }
        } else {
          kind := 'a';
          while s < |line| && !IsSpace(line[s]) && !IsSymbol(line[s])
            invariant q <= s <= |line| && WordEnd(line, s) == WordEnd(line, q)
          {
            s := s + 1;
          }
        }
      }
      ps := s;
      var _ := Peek("");
      t := Token(kind, Span(q, s), ps);
    }

    method ParseRedirs() returns (r: Result<seq<Redirection>>)
      requires ps <= |line|
      modifies this
      ensures r == Redirs(line, old(ps)) && (r.Ok? ==> ps == r.pos)
    {
      hide Redirs, TokenAt, Skip, Looks;
      var rs := [];
      RedirsSkip(line, ps);
      SkipAgain(line, ps);
      var more := Peek("<>");
      NothingSeen(Redirs(line, ps));
      while more
        invariant ps <= |line| && more == Looks(line, ps, "<>") && ps == Skip(line, ps)
        invariant Redirs(line, old(ps)) == Then(rs, Redirs(line, ps))
        decreases |line| - ps
      {
        RedirsTurn(line, ps, rs);
        var tok := GetToken();
        var file := GetToken();
        if file.kind != 'a' { return Panic("missing file for redirection"); }
        rs := rs + [Redirection(file.span, ModeOf(tok.kind))];
        SkipAgain(line, ps);
        more := Peek("<>");
      }
      RedirsEnd(line, ps);
      assert rs + [] == rs;
      r := Ok(rs, ps);
    }

    method ParseExec() returns (r: Result<Cmd>)
      requires ps <= |line|
      modifies this
      ensures r == ExecAt(line, old(ps)) && (r.Ok? ==> ps == r.pos)
      decreases |line| - ps, 1
    {
      hide Redirs, TokenAt, Skip, Looks, Args, BlockAt, Wrap;
      RedirsSkip(line, ps);
      var block := Peek("(");
      if block {
        r := ParseBlock();
        return;
      }
      var rr := ParseRedirs();
      if rr.Panic? { return Panic(rr.message); }
      var s := ParseArgs();
      if s.Panic? { return Panic(s.message); }
      r := Ok(Wrap(Exec(s.value.args), rr.value + s.value.redirs), ps);
    }

    // The loop of parseexec.
    method ParseArgs() returns (r: Result<Simple>)
      requires ps <= |line|
      modifies this
      ensures r == Args(line, old(ps), 0) && (r.Ok? ==> ps == r.pos)
    {
      hide Redirs, TokenAt, Skip, Looks, Args;
      var args, rs := [], [];
      ArgsSkip(line, ps, 0);
      SkipAgain(line, ps);
      var stop := Peek("|)&;");
      NoArgsSeen(Args(line, ps, 0));
      while !stop
        invariant ps <= |line| && ps == Skip(line, ps) && stop == Looks(line, ps, "|)&;") && |args| + 1 < MAXARGS + 1
        invariant Args(line, old(ps), 0) == ThenArgs(args, rs, Args(line, ps, |args|))
        decreases |line| - ps
      {
        ArgsOther(line, ps, |args|);
        ghost var i := ps;
        var tok := GetToken();
        if tok.kind == '\0' { break; }
        if tok.kind != 'a' { return Panic("syntax"); }
        if |args| + 1 < MAXARGS { ArgsTurn(line, i, |args|, args, rs); }
        args := args + [tok.span];
        if |args| >= MAXARGS { return Panic("too many args"); }
        var more := ParseRedirs();
        if more.Panic? { return Panic(more.message); }
        rs := rs + more.value;
        SkipAgain(line, ps);
        stop := Peek("|)&;");
      }
      ArgsStop(line, ps, |args|);
      assert args + [] == args && rs + [] == rs;
      r := Ok(Simple(args, rs), ps);
    }

    method ParseBlock() returns (r: Result<Cmd>)
      requires ps <= |line|
      modifies this
      ensures r == BlockAt(line, old(ps)) && (r.Ok? ==> ps == r.pos)
      decreases |line| - ps, 0
    {
      hide Redirs, TokenAt, Skip, Looks, LineAt, Wrap;
      SkipAgain(line, ps);
      var open := Peek("(");
      if !open { return Panic("parseblock"); }
      LooksMoves(line, ps, "(");
      var _ := GetToken();
      r := ParseLine();
      if r.Panic? { return; }
      SkipAgain(line, ps);
      var close := Peek(")");
      if !close { return Panic("syntax - missing )"); }
      var _ := GetToken();
      var rr := ParseRedirs();
      if rr.Panic? { return Panic(rr.message); }
      r := Ok(Wrap(r.value, rr.value), ps);
    }

    method ParsePipe() returns (r: Result<Cmd>)
      requires ps <= |line|
      modifies this
      ensures r == PipeAt(line, old(ps)) && (r.Ok? ==> ps == r.pos)
      decreases |line| - ps, 2
    {
      hide TokenAt, Skip, Looks, ExecAt;
      r := ParseExec();
      if r.Panic? { return; }
      var cmd := r.value;
      SkipAgain(line, ps);
      var bar := Peek("|");
      r := Ok(cmd, ps);
      if bar {
        LooksMoves(line, ps, "|");
        var _ := GetToken();
        var right := ParsePipe();
        r := if right.Ok? then Ok(Pipe(cmd, right.value), ps) else Panic(right.message);
      }
    }

    method ParseLine() returns (r: Result<Cmd>)
      requires ps <= |line|
      modifies this
      ensures r == LineAt(line, old(ps)) && (r.Ok? ==> ps == r.pos)
      decreases |line| - ps, 3
    {
      hide TokenAt, Skip, Looks, PipeAt, Backs;
      r := ParsePipe();
      if r.Panic? { return; }
      var cmd := r.value;
      ghost var start := ps;
      BacksSkip(line, ps, cmd);
      SkipAgain(line, ps);
      var amp := Peek("&");
      while amp
        invariant ps <= |line| && amp == Looks(line, ps, "&") && ps == Skip(line, ps)
        invariant Backs(line, start, r.value) == Backs(line, ps, cmd)
        decreases |line| - ps
      {
        BacksTurn(line, ps, cmd);
        var _ := GetToken();
        cmd := Back(cmd);
        BacksSkip(line, ps, cmd);
        SkipAgain(line, ps);
        amp := Peek("&");
      }
      BacksEnd(line, ps, cmd);
      SkipAgain(line, ps);
      var semi := Peek(";");
      if semi {
        LooksMoves(line, ps, ";");
        var _ := GetToken();
        var right := ParseLine();
        r := if right.Ok? then Ok(List(cmd, right.value), ps) else Panic(right.message);
      } else {
        r := Ok(cmd, ps);
      }
    }

    method ParseCmd() returns (r: Result<Cmd>)
      requires ps == 0
      modifies this
      ensures r == Parsed(line)
    {
      r := ParseLine();
      if r.Panic? { return; }
      var _ := Peek("");
      r := if ps != |line| then Panic("syntax") else Ok(r.value, |line|);
    }
  }
}
