/** A fully parenthesised printer for shell commands, which the parser inverts. */
module ShellPrint {
  import opened Shell

  // A command with its words and file names in place of spans of the input line.
  datatype Tree = Words(words: seq<string>) | Redirected(t: Tree, file: string, mode: Mode) | Piped(l: Tree, r: Tree)
    | Listed(l: Tree, r: Tree) | Backed(t: Tree)

  predicate IsWord(w: string) { w != [] && forall i :: 0 <= i < |w| ==> IsWordChar(w[i]) }

  // Fewer than MAXARGS words to a command, and every word and file name a word.
  predicate Printable(t: Tree) {
    match t
    case Words(ws) => |ws| < MAXARGS && forall i :: 0 <= i < |ws| ==> IsWord(ws[i])
    case Redirected(t, file, _) => Printable(t) && IsWord(file)
    case Piped(l, r) => Printable(l) && Printable(r)
    case Listed(l, r) => Printable(l) && Printable(r)
    case Backed(t) => Printable(t)
  }

  function RenderWords(ws: seq<string>): string { if ws == [] then "" else ws[0] + " " + RenderWords(ws[1..]) }

  function Arrow(mode: Mode): string { match mode case Read => "<" case Truncate => ">" case Append => ">>" }

  function Paren(t: Tree): string
    decreases t, 1
  {
    "(" + Render(t) + ")"
  }

  function Render(t: Tree): string
    decreases t, 0
  {
    match t
    case Words(ws) => RenderWords(ws)
    case Redirected(t, file, mode) => Paren(t) + (Arrow(mode) + file + " ")
    case Piped(l, r) => Paren(l) + ("|" + Paren(r))
    case Listed(l, r) => Paren(l) + (";" + Paren(r))
    case Backed(t) => Paren(t) + "&"
  }

  function Text(line: string, s: Span): string { if s.q <= s.eq <= |line| then line[s.q..s.eq] else "" }

  function Texts(line: string, ss: seq<Span>): (ts: seq<string>)
    ensures |ts| == |ss| && forall i :: 0 <= i < |ss| ==> ts[i] == Text(line, ss[i])
  {
    if ss == [] then [] else [Text(line, ss[0])] + Texts(line, ss[1..])
  }

  function Meaning(line: string, cmd: Cmd): Tree {
    match cmd
    case Exec(args) => Words(Texts(line, args))
    case Redir(c, file, mode) => Redirected(Meaning(line, c), Text(line, file), mode)
    case Pipe(l, r) => Piped(Meaning(line, l), Meaning(line, r))
    case List(l, r) => Listed(Meaning(line, l), Meaning(line, r))
    case Back(c) => Backed(Meaning(line, c))
  }

  // At pos the line reads x and then y.
  lemma Slices(line: string, pos: nat, x: string, y: string)
    requires pos <= |line| && line[pos..] == x + y
    ensures pos + |x| <= |line| && line[pos..pos + |x|] == x && line[pos + |x|..] == y
    ensures forall k :: pos <= k < pos + |x| ==> line[k] == x[k - pos]
  {
    assert line[pos..][..|x|] == x && line[pos..][|x|..] == y;
    assert line[pos..][|x|..] == line[pos + |x|..] && line[pos..][..|x|] == line[pos..pos + |x|];
    forall k | pos <= k < pos + |x| ensures line[k] == x[k - pos] { assert line[pos..][k - pos] == line[k]; }
  }

  predicate Solid(s: string) { s == "" || !IsSpace(s[0]) }

  lemma NoSkip(line: string, pos: nat, rest: string)
    requires pos <= |line| && line[pos..] == rest && Solid(rest)
    ensures Skip(line, pos) == pos && forall toks :: Looks(line, pos, toks) == (rest != "" && rest[0] in toks)
  {
    assert pos < |line| ==> line[pos..][0] == line[pos];
  }

  lemma {:induction false} WordEnds(line: string, i: nat, j: nat)
    requires i <= j <= |line| && (forall k :: i <= k < j ==> !IsSpace(line[k]) && !IsSymbol(line[k]))
      && (j < |line| ==> IsSpace(line[j]) || IsSymbol(line[j]))
    ensures WordEnd(line, i) == j
    decreases j - i
  {
    if i < j { WordEnds(line, i + 1, j); }
  }

  lemma WordTokenAt(line: string, pos: nat, n: nat)
    requires n > 0 && pos + n < |line| && line[pos + n] == ' ' && (pos + n + 1 < |line| ==> !IsSpace(line[pos + n + 1]))
    requires forall k :: pos <= k < pos + n ==> IsWordChar(line[k])
    ensures TokenAt(line, pos) == Token('a', Span(pos, pos + n), pos + n + 1) && Skip(line, pos) == pos
  {
    assert IsWordChar(line[pos]);
    WordEnds(line, pos, pos + n);
    assert Skip(line, pos + n) == Skip(line, pos + n + 1) == pos + n + 1;
  }

  // A word and a space make a token.
  lemma WordToken(line: string, pos: nat, w: string, rest: string)
    requires pos <= |line| && line[pos..] == w + (" " + rest) && IsWord(w) && Solid(rest)
    ensures TokenAt(line, pos) == Token('a', Span(pos, pos + |w|), pos + |w| + 1) && pos + |w| < |line|
      && line[pos..pos + |w|] == w
    ensures line[pos + |w| + 1..] == rest && Skip(line, pos) == pos && line[pos] == w[0]
  {
    hide TokenAt, Skip, IsSpace, IsSymbol, IsWordChar;
    Slices(line, pos, w, " " + rest);
    Slices(line, pos + |w|, " ", rest);
    assert pos + |w| + 1 < |line| ==> line[pos + |w| + 1] == line[pos + |w| + 1..][0];
    WordTokenAt(line, pos, |w|);
  }

  lemma SymbolToken(line: string, pos: nat, c: char, rest: string)
    requires pos <= |line| && line[pos..] == [c] + rest && c in "|();&<" && Solid(rest)
    ensures TokenAt(line, pos) == Token(c, Span(pos, pos + 1), pos + 1) && pos < |line| && line[pos + 1..] == rest
      && line[pos] == c
    ensures Skip(line, pos) == pos
  {
    Slices(line, pos, [c], rest);
    NoSkip(line, pos + 1, rest);
  }

  // What may follow a command inside a block or at the end of the line.
  predicate Stops(rest: string) { rest == "" || rest[0] == ')' }

  lemma {:induction false} RenderWordsSolid(ws: seq<string>, rest: string)
    requires (forall i :: 0 <= i < |ws| ==> IsWord(ws[i])) && Stops(rest)
    ensures Solid(RenderWords(ws) + rest)
    ensures ws != [] ==>
      RenderWords(ws) + rest == ws[0] + (" " + (RenderWords(ws[1..]) + rest))
      && IsWordChar((RenderWords(ws) + rest)[0])
    ensures ws == [] ==> RenderWords(ws) + rest == rest
  {
    if ws != [] { assert IsWord(ws[0]) && IsWordChar(ws[0][0]); }
  }

  // No redirection starts here.
  lemma NoRedirs(line: string, pos: nat, rest: string)
    requires pos <= |line| && line[pos..] == rest && Solid(rest) && (rest == "" || rest[0] !in "<>")
    ensures Redirs(line, pos) == Ok([], pos)
  {
    NoSkip(line, pos, rest);
  }

  lemma {:induction false} ArgsInvert(line: string, pos: nat, n: nat, ws: seq<string>, rest: string)
    requires pos <= |line| && line[pos..] == RenderWords(ws) + rest && Stops(rest)
    requires n + |ws| < MAXARGS && forall i :: 0 <= i < |ws| ==> IsWord(ws[i])
    ensures var r := Args(line, pos, n);
      r.Ok? && r.pos == pos + |RenderWords(ws)| && r.value.redirs == [] && Texts(line, r.value.args) == ws
    decreases |ws|
  {
    hide IsSpace, IsSymbol, IsWordChar, TokenAt, Redirs, Args;
    RenderWordsSolid(ws, rest);
    if ws == [] {
      ArgsDone(line, pos, n, rest);
    } else {
      var w, more := ws[0], RenderWords(ws[1..]) + rest;
      RenderWordsSolid(ws[1..], rest);
      WordToken(line, pos, w, more);
      var next := pos + |w| + 1;
      NoRedirs(line, next, more) by { NotArrow(more); }
      ArgsInvert(line, next, n + 1, ws[1..], rest);
      ArgsStep(line, pos, n, w, next);
    }
  }

  lemma NotArrow(s: string)
    requires s == "" || s[0] == ')' || IsWordChar(s[0])
    ensures Solid(s) && (s == "" || s[0] !in "<>")
  {
  }

  lemma ArgsDone(line: string, pos: nat, n: nat, rest: string)
    requires pos <= |line| && line[pos..] == rest && Stops(rest)
    ensures Args(line, pos, n) == Ok(Simple([], []), pos)
  {
    NoSkip(line, pos, rest);
  }

  lemma ArgsStep(line: string, pos: nat, n: nat, w: string, next: nat)
    requires pos < |line| && Skip(line, pos) == pos && IsWordChar(line[pos]) && n + 1 < MAXARGS && next <= |line|
    requires TokenAt(line, pos) == Token('a', Span(pos, pos + |w|), next) && Redirs(line, next) == Ok([], next)
      && pos + |w| <= |line| && line[pos..pos + |w|] == w
    requires Args(line, next, n + 1).Ok? && Args(line, next, n + 1).value.redirs == []
    ensures var r, s := Args(line, pos, n), Args(line, next, n + 1);
      r.Ok? && r.pos == s.pos && r.value.redirs == [] && Texts(line, r.value.args) == [w] + Texts(line, s.value.args)
  {
    hide TokenAt, Redirs, Skip;
    var s := Args(line, next, n + 1);
    assert !Looks(line, pos, "|)&;");
    assert ([Span(pos, pos + |w|)] + s.value.args)[1..] == s.value.args;
  }

  // The parser turns the text into t and stops at pos.
  ghost predicate Gives(r: Result<Cmd>, line: string, t: Tree, pos: nat) {
    r.Ok? && r.pos == pos && Meaning(line, r.value) == t
  }

  lemma ExecIsPipe(line: string, pos: nat, p: nat, rest: string)
    requires pos <= |line| && p <= |line| && line[p..] == rest && Solid(rest) && (rest == "" || rest[0] != '|')
    requires ExecAt(line, pos).Ok? && ExecAt(line, pos).pos == p
    ensures PipeAt(line, pos) == ExecAt(line, pos)
  {
    NoSkip(line, p, rest);
    hide ExecAt;
  }

  lemma PipeIsLine(line: string, pos: nat, p: nat, rest: string)
    requires pos <= |line| && p <= |line| && line[p..] == rest && Stops(rest)
    requires PipeAt(line, pos).Ok? && PipeAt(line, pos).pos == p
    ensures LineAt(line, pos) == PipeAt(line, pos)
  {
    NoSkip(line, p, rest);
    hide PipeAt;
  }

  lemma WordsInvert(line: string, pos: nat, ws: seq<string>, rest: string)
    requires pos <= |line| && line[pos..] == RenderWords(ws) + rest && Stops(rest) && Printable(Words(ws))
    ensures Gives(ExecAt(line, pos), line, Words(ws), pos + |RenderWords(ws)|)
  {
    hide IsSpace, IsSymbol, IsWordChar, TokenAt, Skip, Looks, BlockAt, Args, Redirs, RenderWords;
    ArgsInvert(line, pos, 0, ws, rest);
    var s := RenderWords(ws) + rest;
    RenderWordsSolid(ws, rest);
    NotArrow(s);
    NoRedirs(line, pos, s);
    NoSkip(line, pos, s);
    NotOpen(s);
    var a := Args(line, pos, 0);
    assert !Looks(line, pos, "(");
    assert [] + a.value.redirs == [];
    assert ExecAt(line, pos) == Ok(Wrap(Exec(a.value.args), []), a.pos);
  }

  lemma WordsLine(line: string, pos: nat, ws: seq<string>, rest: string)
    requires pos <= |line| && line[pos..] == RenderWords(ws) + rest && Stops(rest) && Printable(Words(ws))
    ensures Gives(LineAt(line, pos), line, Words(ws), pos + |RenderWords(ws)|)
  {
    hide LineAt, PipeAt, ExecAt, RenderWords;
    Slices(line, pos, RenderWords(ws), rest);
    WordsInvert(line, pos, ws, rest);
    ExecIsPipe(line, pos, pos + |RenderWords(ws)|, rest);
    PipeIsLine(line, pos, pos + |RenderWords(ws)|, rest);
  }

  lemma NotOpen(s: string)
    requires s == "" || s[0] == ')' || IsWordChar(s[0])
    ensures s == "" || s[0] !in "("
  {
  }

  // A parenthesised command, up to what follows the closing parenthesis.
  ghost predicate BlockGives(line: string, pos: nat, t: Tree, p: nat) {
    && pos < p <= |line| && pos < |line| && line[pos] == '(' && Skip(line, pos) == pos
    && TokenAt(line, pos).next == pos + 1
    && Gives(LineAt(line, pos + 1), line, t, p - 1) && line[p - 1] == ')' && Skip(line, p - 1) == p - 1
    && TokenAt(line, p - 1).next == p
  }

  lemma BlockIs(line: string, pos: nat, t: Tree, p: nat)
    requires BlockGives(line, pos, t, p)
    ensures ExecAt(line, pos) == match Redirs(line, p)
      case Panic(m) => Panic(m)
      case Ok(rs, pos') => Ok(Wrap(LineAt(line, pos + 1).value, rs), pos')
  {
    hide LineAt, Redirs, Skip, TokenAt;
    assert BlockAt(line, pos) == match Redirs(line, p)
      case Panic(m) => Panic(m)
      case Ok(rs, pos') => Ok(Wrap(LineAt(line, pos + 1).value, rs), pos');
  }

  lemma ParenOpens(line: string, pos: nat, t: Tree, tail: string)
    requires pos <= |line| && line[pos..] == Paren(t) + tail && Printable(t) && Solid(tail)
    ensures pos < |line| && line[pos + 1..] == Render(t) + (")" + tail) && line[pos] == '(' && Skip(line, pos) == pos
      && TokenAt(line, pos).next == pos + 1
    ensures pos + |Paren(t)| <= |line| && line[pos + |Paren(t)|..] == tail
    ensures var q := pos + |Paren(t)| - 1; line[q] == ')' && Skip(line, q) == q && TokenAt(line, q).next == q + 1
  {
    RenderSolid(t, ")" + tail);
    ParenText(line, pos, Render(t), tail);
  }

  lemma ParenText(line: string, pos: nat, x: string, tail: string)
    requires pos <= |line| && line[pos..] == "(" + x + ")" + tail && Solid(x + (")" + tail)) && Solid(tail)
    ensures pos < |line| && line[pos + 1..] == x + (")" + tail) && line[pos] == '(' && Skip(line, pos) == pos
      && TokenAt(line, pos).next == pos + 1
    ensures var q := pos + |x| + 1;
      q < |line| && line[q + 1..] == tail && line[q] == ')' && Skip(line, q) == q && TokenAt(line, q).next == q + 1
  {
    hide TokenAt, Skip, IsSpace;
    assert "(" + x + ")" + tail == ['('] + (x + (")" + tail));
    SymbolToken(line, pos, '(', x + (")" + tail));
    Slices(line, pos + 1, x, ")" + tail);
    SymbolToken(line, pos + 1 + |x|, ')', tail);
  }

  lemma {:induction false} RenderSolid(t: Tree, rest: string)
    requires Printable(t) && Stops(rest)
    ensures Solid(Render(t) + rest)
  {
    match t
    case Words(ws) => RenderWordsSolid(ws, rest);
    case Redirected(u, _, _) => assert Render(t)[0] == '(';
    case Piped(l, _) => assert Render(t)[0] == '(';
    case Listed(l, _) => assert Render(t)[0] == '(';
    case Backed(u) => assert Render(t)[0] == '(';
  }

  lemma RedirGives(line: string, p: nat, file: string, mode: Mode, rest: string)
    requires p <= |line| && line[p..] == Arrow(mode) + (file + (" " + rest)) && IsWord(file) && Stops(rest)
    ensures var r := Redirs(line, p);
      r.Ok? && r.pos == p + |Arrow(mode)| + |file| + 1 && |r.value| == 1 && r.value[0].mode == mode
        && Text(line, r.value[0].file) == file
  {
    hide TokenAt, Skip, Redirs, Looks, IsSpace, IsSymbol, IsWordChar;
    var q := p + |Arrow(mode)|;
    var end := q + |file| + 1;
    Slices(line, p, Arrow(mode), file + (" " + rest));
    NotArrow(rest);
    WordToken(line, q, file, rest);
    NoRedirs(line, end, rest);
    assert IsWordChar(file[0]);
    ArrowToken(line, p, mode);
    OneRedir(line, p, q, end, Span(q, q + |file|), mode);
  }

  lemma OneRedir(line: string, p: nat, q: nat, end: nat, span: Span, mode: Mode)
    requires p <= |line| && q <= |line| && end <= |line| && Looks(line, p, "<>") && TokenAt(line, p).next == q
      && ModeOf(TokenAt(line, p).kind) == mode
    requires TokenAt(line, q) == Token('a', span, end) && Redirs(line, end) == Ok([], end)
    ensures Redirs(line, p) == Ok([Redirection(span, mode)], end)
  {
    hide TokenAt, Looks;
    assert [Redirection(span, mode)] + [] == [Redirection(span, mode)];
  }

  lemma ArrowToken(line: string, p: nat, mode: Mode)
    requires p + |Arrow(mode)| < |line| && line[p..p + |Arrow(mode)|] == Arrow(mode)
      && IsWordChar(line[p + |Arrow(mode)|])
    ensures Looks(line, p, "<>") && TokenAt(line, p).next == p + |Arrow(mode)| && ModeOf(TokenAt(line, p).kind) == mode
  {
    assert line[p] == line[p..p + |Arrow(mode)|][0];
    assert mode == Append ==> line[p + 1] == line[p..p + 2][1];
  }

  lemma {:induction false} LineInverts(line: string, pos: nat, t: Tree, rest: string)
    requires pos <= |line| && line[pos..] == Render(t) + rest && Stops(rest) && Printable(t)
    ensures Gives(LineAt(line, pos), line, t, pos + |Render(t)|)
    decreases t, 0
  {
    hide LineAt, PipeAt, ExecAt, TokenAt, Skip, Redirs, Looks, Render, Paren, IsWord, Gives, BlockGives, IsSpace;
    match t
    case Words(ws) =>
      assert Render(t) == RenderWords(ws) by { RenderIs(t, rest); }
      WordsLine(line, pos, ws, rest);
    case Redirected(u, file, mode) =>
      RenderIs(t, rest);
      ArrowSolid(mode, file + (" " + rest));
      BlockInverts(line, pos, u, Arrow(mode) + (file + (" " + rest)));
      RedirectedInverts(line, pos, u, file, mode, rest);
    case Piped(l, r) =>
      RenderIs(t, rest);
      BlockInverts(line, pos, l, "|" + (Paren(r) + rest)) by { SymbolSolid('|', Paren(r) + rest); }
      Slices(line, pos + |Paren(l)|, "|", Paren(r) + rest) by { InLine(line, pos, l, pos + |Paren(l)|); }
      BlockInverts(line, pos + |Paren(l)| + 1, r, rest) by { NotArrow(rest); }
      PipedInverts(line, pos, l, r, rest);
    case Listed(l, r) =>
      RenderIs(t, rest);
      BlockInverts(line, pos, l, ";" + (Paren(r) + rest)) by { SymbolSolid(';', Paren(r) + rest); }
      Slices(line, pos + |Paren(l)|, ";", Paren(r) + rest) by { InLine(line, pos, l, pos + |Paren(l)|); }
      BlockInverts(line, pos + |Paren(l)| + 1, r, rest) by { NotArrow(rest); }
      ListedInverts(line, pos, l, r, rest);
    case Backed(u) =>
      RenderIs(t, rest);
      BlockInverts(line, pos, u, "&" + rest) by { SymbolSolid('&', rest); }
      BackedInverts(line, pos, u, rest);
  }

  lemma RenderIs(t: Tree, rest: string)
    ensures match t
      case Words(ws) => Render(t) == RenderWords(ws)
      case Redirected(u, file, mode) => Render(t) + rest == Paren(u) + (Arrow(mode) + (file + (" " + rest)))
      case Piped(l, r) => Render(t) + rest == Paren(l) + ("|" + (Paren(r) + rest))
      case Listed(l, r) => Render(t) + rest == Paren(l) + (";" + (Paren(r) + rest))
      case Backed(u) => Render(t) + rest == Paren(u) + ("&" + rest)
  {
    hide RenderWords, Paren;
    match t
    case Words(ws) =>
    case Redirected(u, file, mode) =>
      Assoc(Paren(u), Arrow(mode) + file + " ", rest);
      Assoc(Arrow(mode) + file, " ", rest);
      Assoc(Arrow(mode), file, " " + rest);
    case Piped(l, r) =>
      Assoc(Paren(l), "|" + Paren(r), rest);
      Assoc("|", Paren(r), rest);
    case Listed(l, r) =>
      Assoc(Paren(l), ";" + Paren(r), rest);
      Assoc(";", Paren(r), rest);
    case Backed(u) =>
      Assoc(Paren(u), "&", rest);
  }

  lemma Assoc(a: string, b: string, c: string)
    ensures (a + b) + c == a + (b + c)
  {
  }

  lemma SymbolSolid(c: char, rest: string)
    requires IsSymbol(c)
    ensures Solid([c] + rest)
  {
  }

  lemma ArrowSolid(mode: Mode, rest: string)
    ensures Solid(Arrow(mode) + rest)
  {
  }

  lemma {:induction false} BlockInverts(line: string, pos: nat, t: Tree, tail: string)
    requires pos <= |line| && line[pos..] == Paren(t) + tail && Printable(t) && Solid(tail)
    ensures BlockGives(line, pos, t, pos + |Paren(t)|) && line[pos + |Paren(t)|..] == tail
    decreases t, 1
  {
    hide LineAt, TokenAt, Skip;
    ParenOpens(line, pos, t, tail);
    LineInverts(line, pos + 1, t, ")" + tail);
  }

  // A block that nothing is redirected from.
  lemma PlainBlock(line: string, pos: nat, t: Tree, p: nat, tail: string)
    requires BlockGives(line, pos, t, p) && line[p..] == tail && Solid(tail) && (tail == "" || tail[0] !in "<>")
    ensures Gives(ExecAt(line, pos), line, t, p)
  {
    hide LineAt, TokenAt, Skip, ExecAt;
    BlockIs(line, pos, t, p);
    NoRedirs(line, p, tail);
  }

  // Two commands with | between, ...
  lemma PipeOfTwo(line: string, pos: nat, p: nat, end: nat, tail: string, rest: string)
    requires pos <= |line| && p < end <= |line| && line[p..] == "|" + tail && Solid(tail) && line[end..] == rest
      && Stops(rest)
    requires ExecAt(line, pos).Ok? && ExecAt(line, pos).pos == p && ExecAt(line, p + 1).Ok?
      && ExecAt(line, p + 1).pos == end
    ensures LineAt(line, pos) == Ok(Pipe(ExecAt(line, pos).value, ExecAt(line, p + 1).value), end)
  {
    hide ExecAt, LineAt, TokenAt, Skip;
    ExecIsPipe(line, p + 1, end, rest);
    SymbolToken(line, p, '|', tail);
    assert PipeAt(line, pos) == Ok(Pipe(ExecAt(line, pos).value, ExecAt(line, p + 1).value), end);
    hide PipeAt;
    PipeIsLine(line, pos, end, rest);
  }

  // ... with ; between, ...
  lemma ListOfTwo(line: string, pos: nat, p: nat, end: nat, tail: string, rest: string)
    requires pos <= |line| && p < end <= |line| && line[p..] == ";" + tail && Solid(tail) && line[end..] == rest
      && Stops(rest)
    requires ExecAt(line, pos).Ok? && ExecAt(line, pos).pos == p && ExecAt(line, p + 1).Ok?
      && ExecAt(line, p + 1).pos == end
    ensures LineAt(line, pos) == Ok(List(ExecAt(line, pos).value, ExecAt(line, p + 1).value), end)
  {
    hide ExecAt, TokenAt, Skip, PipeAt;
    ExecIsPipe(line, pos, p, ";" + tail);
    ExecIsPipe(line, p + 1, end, rest);
    PipeIsLine(line, p + 1, end, rest);
    SymbolToken(line, p, ';', tail);
    NoSkip(line, p, ";" + tail);
    assert Backs(line, p, PipeAt(line, pos).value) == (PipeAt(line, pos).value, p);
  }

  // ... and one followed by &.
  lemma BackOfOne(line: string, pos: nat, p: nat, rest: string)
    requires pos <= |line| && p <= |line| && line[p..] == "&" + rest && Stops(rest) && ExecAt(line, pos).Ok?
      && ExecAt(line, pos).pos == p
    ensures LineAt(line, pos) == Ok(Back(ExecAt(line, pos).value), p + 1)
  {
    hide ExecAt, TokenAt, Skip, PipeAt;
    ExecIsPipe(line, pos, p, "&" + rest);
    SymbolToken(line, p, '&', rest);
    NoSkip(line, p, "&" + rest);
    NoSkip(line, p + 1, rest);
    var cmd := PipeAt(line, pos).value;
    assert Backs(line, p, cmd) == Backs(line, p + 1, Back(cmd)) == (Back(cmd), p + 1);
  }

  lemma RedirectedInverts(line: string, pos: nat, u: Tree, file: string, mode: Mode, rest: string)
    requires Stops(rest) && IsWord(file) && BlockGives(line, pos, u, pos + |Paren(u)|)
    requires line[pos + |Paren(u)|..] == Arrow(mode) + (file + (" " + rest))
    ensures Gives(LineAt(line, pos), line, Redirected(u, file, mode), pos + |Render(Redirected(u, file, mode))|)
  {
    hide LineAt, TokenAt, Skip, ExecAt, PipeAt, Redirs, RenderWords, IsWord;
    var p := pos + |Paren(u)|;
    var end := p + |Arrow(mode)| + |file| + 1;
    RedirectedExec(line, pos, u, p, file, mode, rest);
    assert line[end..] == rest by { FarSlice(line, p, Arrow(mode), file, rest); }
    ExecIsPipe(line, pos, end, rest);
    PipeIsLine(line, pos, end, rest);
  }

  lemma FarSlice(line: string, p: nat, x: string, y: string, rest: string)
    requires p <= |line| && line[p..] == x + (y + (" " + rest))
    ensures p + |x| + |y| + 1 <= |line| && line[p + |x| + |y| + 1..] == rest
  {
    Slices(line, p, x, y + (" " + rest));
    Slices(line, p + |x|, y, " " + rest);
    Slices(line, p + |x| + |y|, " ", rest);
  }

  lemma RedirectedExec(line: string, pos: nat, u: Tree, p: nat, file: string, mode: Mode, rest: string)
    requires Stops(rest) && IsWord(file) && BlockGives(line, pos, u, p)
      && line[p..] == Arrow(mode) + (file + (" " + rest))
    ensures Gives(ExecAt(line, pos), line, Redirected(u, file, mode), p + |Arrow(mode)| + |file| + 1)
  {
    hide LineAt, TokenAt, Skip, ExecAt, Redirs, IsWord;
    BlockIs(line, pos, u, p);
    RedirGives(line, p, file, mode, rest);
    var rs := Redirs(line, p).value;
    assert rs[..0] == [];
    assert Wrap(LineAt(line, pos + 1).value, rs) == Redir(LineAt(line, pos + 1).value, rs[0].file, mode);
  }

  lemma PipedInverts(line: string, pos: nat, l: Tree, r: Tree, rest: string)
    requires Stops(rest) && BlockGives(line, pos, l, pos + |Paren(l)|)
      && line[pos + |Paren(l)|..] == "|" + (Paren(r) + rest)
    requires var p := pos + |Paren(l)| + 1; BlockGives(line, p, r, p + |Paren(r)|) && line[p + |Paren(r)|..] == rest
    ensures Gives(LineAt(line, pos), line, Piped(l, r), pos + |Render(Piped(l, r))|)
  {
    hide LineAt, TokenAt, Skip, ExecAt, Redirs, BlockGives;
    var p := pos + |Paren(l)|;
    var end := p + 1 + |Paren(r)|;
    PlainBlock(line, pos, l, p, "|" + (Paren(r) + rest));
    PlainBlock(line, p + 1, r, end, rest);
    ParenSolid(r, rest);
    InLine(line, p + 1, r, end);
    InLine(line, pos, l, p);
    PipeOfTwo(line, pos, p, end, Paren(r) + rest, rest);
  }

  lemma InLine(line: string, pos: nat, t: Tree, p: nat)
    requires BlockGives(line, pos, t, p)
    ensures pos < p <= |line|
  {
  }

  lemma ParenSolid(t: Tree, rest: string)
    ensures Solid(Paren(t) + rest)
  {
    assert (Paren(t) + rest)[0] == '(';
  }

  lemma ListedInverts(line: string, pos: nat, l: Tree, r: Tree, rest: string)
    requires Stops(rest) && BlockGives(line, pos, l, pos + |Paren(l)|)
      && line[pos + |Paren(l)|..] == ";" + (Paren(r) + rest)
    requires var p := pos + |Paren(l)| + 1; BlockGives(line, p, r, p + |Paren(r)|) && line[p + |Paren(r)|..] == rest
    ensures Gives(LineAt(line, pos), line, Listed(l, r), pos + |Render(Listed(l, r))|)
  {
    hide LineAt, TokenAt, Skip, ExecAt, Redirs, BlockGives;
    var p := pos + |Paren(l)|;
    var end := p + 1 + |Paren(r)|;
    PlainBlock(line, pos, l, p, ";" + (Paren(r) + rest));
    PlainBlock(line, p + 1, r, end, rest);
    ParenSolid(r, rest);
    InLine(line, p + 1, r, end);
    InLine(line, pos, l, p);
    ListOfTwo(line, pos, p, end, Paren(r) + rest, rest);
  }

  lemma BackedInverts(line: string, pos: nat, u: Tree, rest: string)
    requires Stops(rest) && BlockGives(line, pos, u, pos + |Paren(u)|) && line[pos + |Paren(u)|..] == "&" + rest
    ensures Gives(LineAt(line, pos), line, Backed(u), pos + |Render(Backed(u))|)
  {
    hide LineAt, TokenAt, Skip, ExecAt, Redirs, BlockGives;
    var p := pos + |Paren(u)|;
    PlainBlock(line, pos, u, p, "&" + rest);
    InLine(line, pos, u, p);
    BackOfOne(line, pos, p, rest);
  }

  /** Parsing what the printer prints gives back the command. */
  lemma ParseInvertsRender(t: Tree)
    requires Printable(t)
    ensures var r := Parsed(Render(t)); r.Ok? && Meaning(Render(t), r.value) == t
  {
    hide LineAt;
    var line := Render(t);
    assert line[0..] == line + "";
    LineInverts(line, 0, t, "");
    NoSkip(line, |line|, "");
  }
}
