/** The shell's grammar (user/sh.c), and that the parser is exactly it: a line parses if and only if
    its tokens are those of some tree of the grammar, and then to what that tree means. */
module ShellGrammar {
  import opened Shell

  datatype Lexeme = Word(span: Span) | Sym(kind: char)
  datatype Text = Empty | Then(first: Lexeme, rest: Text)

  // The tokens of a line from i on; '+' stands for >>.
  function Tokens(line: string, i: nat): Text
    requires i <= |line|
    decreases |line| - i
  {
    var t := TokenAt(line, i);
    if t.kind == '\0' then Empty else Then(Lexed(t), Tokens(line, t.next))
  }

  function Lexed(t: Token): Lexeme { if t.kind == 'a' then Word(t.span) else Sym(t.kind) }

  // Words and redirections come in any order in a simple command; only redirections follow a block.
  datatype Items = Nothing | Arg(word: Span, rest: Items) | Into(redir: Redirection, rest: Items)
  datatype Part = Plain(items: Items) | Block(body: Line, redirs: seq<Redirection>)
  datatype Pipeline = One(part: Part) | Piped(part: Part, rest: Pipeline)
  datatype Line = Last(pipeline: Pipeline, amps: nat) | More(pipeline: Pipeline, amps: nat, rest: Line)

  // The tokens that a tree stands for, followed by rest.
  function Arrow(mode: Mode): Lexeme {
    match mode case Read => Sym('<') case Truncate => Sym('>') case Append => Sym('+')
  }

  function RedirText(r: Redirection, rest: Text): Text { Then(Arrow(r.mode), Then(Word(r.file), rest)) }

  function ItemsText(items: Items, rest: Text): Text {
    match items
    case Nothing => rest
    case Arg(word, more) => Then(Word(word), ItemsText(more, rest))
    case Into(redir, more) => RedirText(redir, ItemsText(more, rest))
  }

  function RedirsText(rs: seq<Redirection>, rest: Text): Text {
    if rs == [] then rest else RedirText(rs[0], RedirsText(rs[1..], rest))
  }

  function AmpsText(n: nat, rest: Text): Text { if n == 0 then rest else Then(Sym('&'), AmpsText(n - 1, rest)) }

  function PartText(part: Part, rest: Text): Text {
    match part
    case Plain(items) => ItemsText(items, rest)
    case Block(body, redirs) => Then(Sym('('), LineText(body, Then(Sym(')'), RedirsText(redirs, rest))))
  }

  function PipelineText(p: Pipeline, rest: Text): Text {
    match p
    case One(part) => PartText(part, rest)
    case Piped(part, more) => PartText(part, Then(Sym('|'), PipelineText(more, rest)))
  }

  function LineText(l: Line, rest: Text): Text {
    match l
    case Last(pipeline, amps) => PipelineText(pipeline, AmpsText(amps, rest))
    case More(pipeline, amps, more) => PipelineText(pipeline, AmpsText(amps, Then(Sym(';'), LineText(more, rest))))
  }

  // The command that a tree means: the first redirection is innermost, and & applies to all before it.
  function Words(items: Items): seq<Span> {
    match items
    case Nothing => []
    case Arg(word, more) => [word] + Words(more)
    case Into(_, more) => Words(more)
  }

  function Redirected(cmd: Cmd, items: Items): Cmd
    decreases items
  {
    match items
    case Nothing => cmd
    case Arg(_, more) => Redirected(cmd, more)
    case Into(r, more) => Redirected(Redir(cmd, r.file, r.mode), more)
  }

  function Prepend(rs: seq<Redirection>, items: Items): Items {
    if rs == [] then items else Into(rs[0], Prepend(rs[1..], items))
  }

  function Backed(cmd: Cmd, amps: nat): Cmd { if amps == 0 then cmd else Back(Backed(cmd, amps - 1)) }

  function PartMeans(part: Part): Cmd {
    match part
    case Plain(items) => Redirected(Exec(Words(items)), items)
    case Block(body, redirs) => Redirected(LineMeans(body), Prepend(redirs, Nothing))
  }

  function PipelineMeans(p: Pipeline): Cmd {
    match p
    case One(part) => PartMeans(part)
    case Piped(part, more) => Pipe(PartMeans(part), PipelineMeans(more))
  }

  function LineMeans(l: Line): Cmd {
    match l
    case Last(pipeline, amps) => Backed(PipelineMeans(pipeline), amps)
    case More(pipeline, amps, more) => List(Backed(PipelineMeans(pipeline), amps), LineMeans(more))
  }

  // No simple command has too many words.
  predicate PartFits(part: Part) {
    match part
    case Plain(items) => |Words(items)| < MAXARGS
    case Block(body, _) => LineFits(body)
  }

  predicate PipelineFits(p: Pipeline) { PartFits(p.part) && (p.Piped? ==> PipelineFits(p.rest)) }

  predicate LineFits(l: Line) { PipelineFits(l.pipeline) && (l.More? ==> LineFits(l.rest)) }

  // What peek sees is the kind of the next token.
  predicate StartsIn(text: Text, kinds: string) { text.Then? && text.first.Sym? && text.first.kind in kinds }

  lemma Peeks(line: string, i: nat)
    requires i <= |line|
    ensures Looks(line, i, "<>") <==> StartsIn(Tokens(line, i), "<>+")
    ensures Looks(line, i, "(") <==> StartsIn(Tokens(line, i), "(")
    ensures Looks(line, i, ")") <==> StartsIn(Tokens(line, i), ")")
    ensures Looks(line, i, "|") <==> StartsIn(Tokens(line, i), "|")
    ensures Looks(line, i, "&") <==> StartsIn(Tokens(line, i), "&")
    ensures Looks(line, i, ";") <==> StartsIn(Tokens(line, i), ";")
    ensures Looks(line, i, "|)&;") <==> StartsIn(Tokens(line, i), "|)&;")
    ensures Tokens(line, Skip(line, i)) == Tokens(line, i)
    ensures TokenAt(line, i).kind in "<>+()|&;" || TokenAt(line, i).kind == 'a' || Tokens(line, i) == Empty
  {
    SkipAgain(line, i);
  }

  function Arrows(items: Items): seq<Redirection> {
    match items
    case Nothing => []
    case Arg(_, more) => Arrows(more)
    case Into(r, more) => [r] + Arrows(more)
  }

  lemma {:induction false} PrependParts(rs: seq<Redirection>, items: Items, rest: Text)
    ensures Words(Prepend(rs, items)) == Words(items) && Arrows(Prepend(rs, items)) == rs + Arrows(items)
    ensures ItemsText(Prepend(rs, items), rest) == RedirsText(rs, ItemsText(items, rest))
  {
    if rs == [] {
      assert rs + Arrows(items) == Arrows(items);
    } else {
      PrependParts(rs[1..], items, rest);
      assert rs + Arrows(items) == [rs[0]] + (rs[1..] + Arrows(items));
    }
  }

  lemma {:induction false} WrapFront(cmd: Cmd, r: Redirection, rs: seq<Redirection>)
    ensures Wrap(Redir(cmd, r.file, r.mode), rs) == Wrap(cmd, [r] + rs)
  {
    if rs == [] {
      assert [r] + rs == [r];
    } else {
      WrapFront(cmd, r, rs[..|rs| - 1]);
      assert ([r] + rs)[..|rs|] == [r] + rs[..|rs| - 1];
    }
  }

  lemma {:induction false} RedirectedIs(cmd: Cmd, items: Items)
    ensures Redirected(cmd, items) == Wrap(cmd, Arrows(items))
    decreases items
  {
    match items
    case Nothing =>
    case Arg(_, more) => RedirectedIs(cmd, more);
    case Into(r, more) =>
      RedirectedIs(Redir(cmd, r.file, r.mode), more);
      WrapFront(cmd, r, Arrows(more));
  }

  // The tokens that parseredirs takes are those of its redirections.
  lemma {:induction false} RedirsSound(line: string, i: nat)
    requires i <= |line| && Redirs(line, i).Ok?
    ensures
      var r := Redirs(line, i);
      Tokens(line, i) == RedirsText(r.value, Tokens(line, r.pos)) && !StartsIn(Tokens(line, r.pos), "<>+")
    decreases |line| - i
  {
    hide Looks, Skip;
    Peeks(line, i);
    if Looks(line, i, "<>") {
      var tok := TokenAt(line, i);
      var file := TokenAt(line, tok.next);
      RedirsSound(line, file.next);
      assert Redirs(line, i).value[1..] == Redirs(line, file.next).value;
    } else {
      Peeks(line, Skip(line, i));
    }
  }

  predicate Stops(text: Text) { text == Empty || StartsIn(text, "|)&;") }

  // The two ways in which parseexec's loop goes on well.
  lemma ArgsUnfold(line: string, i: nat, n: nat)
    requires i <= |line| && Args(line, i, n).Ok?
    ensures
      var r, tok := Args(line, i, n), TokenAt(line, i);
      if Stops(Tokens(line, i)) then r.value == Simple([], []) && Tokens(line, r.pos) == Tokens(line, i)
      else
        var rr := Redirs(line, tok.next);
        && i < tok.next && n + 1 < MAXARGS && Tokens(line, i) == Then(Word(tok.span), Tokens(line, tok.next)) && rr.Ok?
        && var more := Args(line, rr.pos, n + 1);
        && more.Ok? && r.pos == more.pos
        && r.value == Simple([tok.span] + more.value.args, rr.value + more.value.redirs)
  {
    hide Looks, Skip, Redirs;
    Peeks(line, i);
    if Stops(Tokens(line, i)) { Peeks(line, TokenAt(line, i).next); }
  }

  // The tokens that parseexec takes are those of its words and redirections, in order.
  lemma {:induction false} ArgsSound(line: string, i: nat, n: nat) returns (items: Items)
    requires i <= |line| && n < MAXARGS && Args(line, i, n).Ok?
    ensures
      var r := Args(line, i, n);
      && Tokens(line, i) == ItemsText(items, Tokens(line, r.pos)) && Stops(Tokens(line, r.pos))
      && Words(items) == r.value.args && Arrows(items) == r.value.redirs && n + |Words(items)| < MAXARGS
    decreases |line| - i
  {
    hide Looks, Skip, TokenAt, Redirs, Args, Tokens, Prepend, RedirsText;
    ArgsUnfold(line, i, n);
    if Stops(Tokens(line, i)) {
      items := Nothing;
    } else {
      var tok := TokenAt(line, i);
      var rr := Redirs(line, tok.next);
      RedirsSound(line, tok.next);
      var more := ArgsSound(line, rr.pos, n + 1);
      items := Arg(tok.span, Prepend(rr.value, more));
      PrependParts(rr.value, more, Tokens(line, Args(line, i, n).pos));
    }
  }

  lemma {:induction false} BackedFront(cmd: Cmd, n: nat)
    ensures Backed(Back(cmd), n) == Backed(cmd, n + 1)
  {
    if n > 0 { BackedFront(cmd, n - 1); }
  }

  lemma BacksUnfold(line: string, i: nat, cmd: Cmd)
    requires i <= |line|
    ensures
      var tok := TokenAt(line, i);
      if StartsIn(Tokens(line, i), "&") then
        && i < tok.next && Tokens(line, i) == Then(Sym('&'), Tokens(line, tok.next))
        && Backs(line, i, cmd) == Backs(line, tok.next, Back(cmd))
      else Backs(line, i, cmd).0 == cmd && Tokens(line, Backs(line, i, cmd).1) == Tokens(line, i)
  {
    hide Looks, Skip;
    Peeks(line, i);
  }

  lemma {:induction false} BacksSound(line: string, i: nat, cmd: Cmd) returns (n: nat)
    requires i <= |line|
    ensures
      var (back, pos) := Backs(line, i, cmd);
      back == Backed(cmd, n) && Tokens(line, i) == AmpsText(n, Tokens(line, pos))
    decreases |line| - i
  {
    hide Backs, TokenAt, Tokens, StartsIn;
    BacksUnfold(line, i, cmd);
    if StartsIn(Tokens(line, i), "&") {
      var more := BacksSound(line, TokenAt(line, i).next, Back(cmd));
      BackedFront(cmd, more);
      n := more + 1;
    } else {
      n := 0;
    }
  }

  lemma {:induction false} ExecSound(line: string, i: nat) returns (part: Part)
    requires i <= |line| && ExecAt(line, i).Ok?
    ensures
      var r := ExecAt(line, i);
      Tokens(line, i) == PartText(part, Tokens(line, r.pos)) && PartFits(part) && PartMeans(part) == r.value
    decreases |line| - i, 1
  {
    hide Looks, Skip, TokenAt, Redirs, Args, Tokens, BlockAt, Wrap, Prepend, RedirsText;
    Peeks(line, i);
    if Looks(line, i, "(") {
      part := BlockSound(line, Skip(line, i));
    } else {
      var rr := Redirs(line, i);
      RedirsSound(line, i);
      var more := ArgsSound(line, rr.pos, 0);
      var items := Prepend(rr.value, more);
      PrependParts(rr.value, more, Tokens(line, ExecAt(line, i).pos));
      RedirectedIs(Exec(Words(items)), items);
      part := Plain(items);
    }
  }

  lemma {:induction false} BlockSound(line: string, i: nat) returns (part: Part)
    requires i <= |line| && BlockAt(line, i).Ok?
    ensures
      var r := BlockAt(line, i);
      Tokens(line, i) == PartText(part, Tokens(line, r.pos)) && PartFits(part) && PartMeans(part) == r.value
    decreases |line| - i, 0
  {
    hide Looks, Skip, Redirs, LineAt, Wrap, Prepend, RedirsText;
    Peeks(line, i);
    var open := TokenAt(line, i);
    var body := LineSound(line, open.next);
    var pos := LineAt(line, open.next).pos;
    Peeks(line, pos);
    var close := TokenAt(line, pos);
    RedirsSound(line, close.next);
    var rs := Redirs(line, close.next).value;
    PrependParts(rs, Nothing, Empty);
    assert rs + [] == rs;
    RedirectedIs(LineMeans(body), Prepend(rs, Nothing));
    part := Block(body, rs);
  }

  lemma {:induction false} PipeSound(line: string, i: nat) returns (p: Pipeline)
    requires i <= |line| && PipeAt(line, i).Ok?
    ensures
      var r := PipeAt(line, i);
      Tokens(line, i) == PipelineText(p, Tokens(line, r.pos)) && PipelineFits(p) && PipelineMeans(p) == r.value
    decreases |line| - i, 2
  {
    hide Looks, Skip, ExecAt, PartText, PartMeans, PartFits;
    var part := ExecSound(line, i);
    var pos := ExecAt(line, i).pos;
    Peeks(line, pos);
    if Looks(line, pos, "|") {
      var more := PipeSound(line, TokenAt(line, pos).next);
      p := Piped(part, more);
    } else {
      p := One(part);
    }
  }

  lemma {:induction false} LineSound(line: string, i: nat) returns (l: Line)
    requires i <= |line| && LineAt(line, i).Ok?
    ensures
      var r := LineAt(line, i);
      Tokens(line, i) == LineText(l, Tokens(line, r.pos)) && LineFits(l) && LineMeans(l) == r.value
    decreases |line| - i, 3
  {
    hide Looks, Skip, PipeAt, Backs, PipelineText, PipelineMeans, PipelineFits, AmpsText, Backed;
    var p := PipeSound(line, i);
    var cmd := PipeAt(line, i);
    var n := BacksSound(line, cmd.pos, cmd.value);
    var (_, pos) := Backs(line, cmd.pos, cmd.value);
    Peeks(line, pos);
    if Looks(line, pos, ";") {
      var more := LineSound(line, TokenAt(line, pos).next);
      l := More(p, n, more);
    } else {
      l := Last(p, n);
    }
  }

  /** Every line that parses has the tokens of a tree of the grammar, each token once and in order, and
      parses to what the tree means. */
  lemma ParseSound(line: string) returns (l: Line)
    requires Parsed(line).Ok?
    ensures Tokens(line, 0) == LineText(l, Empty) && LineFits(l) && Parsed(line).value == LineMeans(l)
  {
    hide Looks, Skip, Tokens, LineAt, LineText, LineMeans, LineFits;
    l := LineSound(line, 0);
    AtEnd(line, LineAt(line, 0).pos);
  }

  lemma ArrowMode(r: Redirection, arrow: Lexeme)
    requires Arrow(r.mode) == arrow
    ensures arrow.Sym? && ModeOf(arrow.kind) == r.mode && arrow.kind in "<>+"
  {
  }

  lemma RedirsFold(line: string, i: nat)
    requires i <= |line|
    ensures
      if !StartsIn(Tokens(line, i), "<>+") then
        && Redirs(line, i).Ok? && Redirs(line, i).value == []
        && Tokens(line, Redirs(line, i).pos) == Tokens(line, i)
      else
        var tok := TokenAt(line, i);
        var file := TokenAt(line, tok.next);
        && i < tok.next <= file.next && Tokens(line, i) == Then(Sym(tok.kind), Tokens(line, tok.next))
        && (Tokens(line, tok.next).Then? ==> Tokens(line, tok.next) == Then(Lexed(file), Tokens(line, file.next)))
        && (file.kind == 'a' ==>
             Redirs(line, i) == Shell.Then([Redirection(file.span, ModeOf(tok.kind))], Redirs(line, file.next)))
  {
    hide Looks, Skip;
    Peeks(line, i);
  }

  lemma {:induction false} RedirsComplete(line: string, i: nat, rs: seq<Redirection>, rest: Text)
    requires i <= |line| && Tokens(line, i) == RedirsText(rs, rest) && !StartsIn(rest, "<>+")
    ensures var r := Redirs(line, i); r.Ok? && r.value == rs && Tokens(line, r.pos) == rest
    decreases |line| - i
  {
    hide Looks, Skip, TokenAt, Redirs, Tokens, ModeOf, Arrow;
    RedirsFold(line, i);
    if rs != [] {
      var tok := TokenAt(line, i);
      ArrowMode(rs[0], Tokens(line, i).first);
      RedirsComplete(line, TokenAt(line, tok.next).next, rs[1..], rest);
      assert rs == [rs[0]] + rs[1..];
    }
  }

  // The redirections that items start with, and what follows them.
  function Leading(items: Items): (r: (seq<Redirection>, Items))
    ensures Prepend(r.0, r.1) == items && !r.1.Into?
  {
    match items
    case Into(redir, more) => var (rs, others) := Leading(more); ([redir] + rs, others)
    case _ => ([], items)
  }

  lemma ArgsFold(line: string, i: nat, n: nat)
    requires i <= |line|
    ensures
      var tok := TokenAt(line, i);
      if Stops(Tokens(line, i)) then
        && Args(line, i, n).Ok? && Args(line, i, n).value == Simple([], [])
        && Tokens(line, Args(line, i, n).pos) == Tokens(line, i)
      else
        i < tok.next && Tokens(line, i).Then? && Tokens(line, i).rest == Tokens(line, tok.next)
        && (Tokens(line, i).first.Word? ==> Tokens(line, i).first.span == tok.span)
        && (Tokens(line, i).first.Word? && n + 1 < MAXARGS && Redirs(line, tok.next).Ok? ==>
             var rr := Redirs(line, tok.next);
             Args(line, i, n) == ThenArgs([tok.span], rr.value, Args(line, rr.pos, n + 1)))
  {
    hide Looks, Skip, Redirs;
    Peeks(line, i);
    if Stops(Tokens(line, i)) { Peeks(line, TokenAt(line, i).next); }
  }

  lemma {:induction false} ArgsComplete(line: string, i: nat, n: nat, items: Items, rest: Text)
    requires i <= |line| && Tokens(line, i) == ItemsText(items, rest) && !items.Into? && Stops(rest)
    requires n + |Words(items)| < MAXARGS
    ensures
      var r := Args(line, i, n);
      r.Ok? && r.value == Simple(Words(items), Arrows(items)) && Tokens(line, r.pos) == rest
    decreases |line| - i
  {
    hide Looks, Skip, TokenAt, Redirs, Args, Tokens, Prepend, RedirsText;
    ArgsFold(line, i, n);
    if items.Arg? {
      var tok := TokenAt(line, i);
      var (rs, others) := Leading(items.rest);
      PrependParts(rs, others, rest);
      RedirsComplete(line, tok.next, rs, ItemsText(others, rest));
      ArgsComplete(line, Redirs(line, tok.next).pos, n + 1, others, rest);
    }
  }

  lemma {:induction false} BacksComplete(line: string, i: nat, cmd: Cmd, n: nat, rest: Text)
    requires i <= |line| && Tokens(line, i) == AmpsText(n, rest) && !StartsIn(rest, "&")
    ensures var (back, pos) := Backs(line, i, cmd); back == Backed(cmd, n) && Tokens(line, pos) == rest
    decreases n
  {
    hide Backs, TokenAt, Tokens;
    BacksUnfold(line, i, cmd);
    if n > 0 {
      BacksComplete(line, TokenAt(line, i).next, Back(cmd), n - 1, rest);
      BackedFront(cmd, n - 1);
    }
  }

  // How the text of a tree can start.
  lemma ItemsStart(items: Items, rest: Text)
    ensures items.Nothing? ==> ItemsText(items, rest) == rest
    ensures items.Arg? ==> ItemsText(items, rest).Then? && ItemsText(items, rest).first.Word?
    ensures items.Into? ==> StartsIn(ItemsText(items, rest), "<>+")
  {
  }

  lemma {:induction false} PlainComplete(line: string, i: nat, items: Items, rest: Text)
    requires i <= |line| && Tokens(line, i) == ItemsText(items, rest) && Stops(rest) && |Words(items)| < MAXARGS
    ensures
      var r := ExecAt(line, i);
      r.Ok? && r.value == Redirected(Exec(Words(items)), items) && Tokens(line, r.pos) == rest
  {
    hide Looks, Skip, TokenAt, Redirs, Args, Tokens, BlockAt, Wrap, Prepend, RedirsText, ItemsText;
    Peeks(line, i);
    ItemsStart(items, rest);
    var (rs, others) := Leading(items);
    PrependParts(rs, others, rest);
    ItemsStart(others, rest);
    RedirsComplete(line, i, rs, ItemsText(others, rest));
    ArgsComplete(line, Redirs(line, i).pos, 0, others, rest);
    RedirectedIs(Exec(Words(items)), items);
  }

  lemma BlockFold(line: string, i: nat)
    requires i <= |line| && StartsIn(Tokens(line, i), "(")
    ensures
      var next := TokenAt(line, i).next;
      var body := LineAt(line, next);
      && i < next && Tokens(line, i) == Then(Sym('('), Tokens(line, next))
      && (body.Ok? && StartsIn(Tokens(line, body.pos), ")") ==>
           var close := TokenAt(line, body.pos).next;
           var rr := Redirs(line, close);
           && Tokens(line, body.pos) == Then(Sym(')'), Tokens(line, close))
           && (rr.Ok? ==> ExecAt(line, i) == Ok(Wrap(body.value, rr.value), rr.pos)))
  {
    hide Looks, Skip, Redirs, LineAt, Wrap, Args;
    Peeks(line, i);
    SkipAgain(line, i);
    var body := LineAt(line, TokenAt(line, i).next);
    if body.Ok? { Peeks(line, body.pos); }
  }

  lemma {:induction false} PartComplete(line: string, i: nat, part: Part, rest: Text)
    requires i <= |line| && Tokens(line, i) == PartText(part, rest) && PartFits(part) && Stops(rest)
    ensures var r := ExecAt(line, i); r.Ok? && r.value == PartMeans(part) && Tokens(line, r.pos) == rest
    decreases part
  {
    hide ExecAt, LineAt, Redirs, TokenAt, Tokens, Wrap, Prepend, RedirsText;
    match part
    case Plain(items) => PlainComplete(line, i, items, rest);
    case Block(body, redirs) =>
      BlockFold(line, i);
      var next := TokenAt(line, i).next;
      LineComplete(line, next, body, Then(Sym(')'), RedirsText(redirs, rest)));
      RedirsComplete(line, TokenAt(line, LineAt(line, next).pos).next, redirs, rest);
      PrependParts(redirs, Nothing, Empty);
      assert redirs + [] == redirs;
      RedirectedIs(LineMeans(body), Prepend(redirs, Nothing));
  }

  lemma {:induction false} PipelineComplete(line: string, i: nat, p: Pipeline, rest: Text)
    requires i <= |line| && Tokens(line, i) == PipelineText(p, rest) && PipelineFits(p)
    requires Stops(rest) && !StartsIn(rest, "|")
    ensures var r := PipeAt(line, i); r.Ok? && r.value == PipelineMeans(p) && Tokens(line, r.pos) == rest
    decreases p
  {
    hide Looks, Skip, ExecAt, PartText, PartMeans, PartFits;
    if p.Piped? {
      var after := Then(Sym('|'), PipelineText(p.rest, rest));
      PartComplete(line, i, p.part, after);
      var pos := ExecAt(line, i).pos;
      Peeks(line, pos);
      PipelineComplete(line, TokenAt(line, pos).next, p.rest, rest);
    } else {
      PartComplete(line, i, p.part, rest);
      Peeks(line, ExecAt(line, i).pos);
    }
  }

  lemma {:induction false} LineComplete(line: string, i: nat, l: Line, rest: Text)
    requires i <= |line| && Tokens(line, i) == LineText(l, rest) && LineFits(l)
      && (rest == Empty || StartsIn(rest, ")"))
    ensures var r := LineAt(line, i); r.Ok? && r.value == LineMeans(l) && Tokens(line, r.pos) == rest
    decreases l
  {
    hide Looks, Skip, PipeAt, Backs, PipelineText, PipelineMeans, PipelineFits, AmpsText, Backed;
    var after := if l.More? then Then(Sym(';'), LineText(l.rest, rest)) else rest;
    AmpsStart(l.amps, after);
    PipelineComplete(line, i, l.pipeline, AmpsText(l.amps, after));
    var cmd := PipeAt(line, i);
    BacksComplete(line, cmd.pos, cmd.value, l.amps, after);
    var pos := Backs(line, cmd.pos, cmd.value).1;
    Peeks(line, pos);
    if l.More? {
      LineComplete(line, TokenAt(line, pos).next, l.rest, rest);
    }
  }

  lemma AmpsStart(n: nat, rest: Text)
    requires rest == Empty || StartsIn(rest, ");")
    ensures Stops(AmpsText(n, rest)) && !StartsIn(AmpsText(n, rest), "|")
  {
  }

  /** A line whose tokens are those of a tree of the grammar parses, to what the tree means. */
  lemma ParseComplete(line: string, l: Line)
    requires Tokens(line, 0) == LineText(l, Empty) && LineFits(l)
    ensures Parsed(line) == Ok(LineMeans(l), |line|)
  {
    hide Looks, Skip, Tokens, LineAt, LineText, LineMeans, LineFits;
    LineComplete(line, 0, l, Empty);
    AtEnd(line, LineAt(line, 0).pos);
  }

  lemma AtEnd(line: string, i: nat)
    requires i <= |line|
    ensures Tokens(line, i) == Empty <==> Skip(line, i) == |line|
  {
  }

  ghost predicate Grammatical(line: string) { exists l :: LineFits(l) && LineText(l, Empty) == Tokens(line, 0) }

  /** A line parses exactly when its tokens are those of a tree; no two trees of a line mean different commands. */
  lemma ParsesExactly(line: string, l: Line, l': Line)
    ensures Parsed(line).Ok? <==> Grammatical(line)
    ensures LineFits(l) && LineFits(l') && LineText(l, Empty) == LineText(l', Empty) == Tokens(line, 0) ==>
      LineMeans(l) == LineMeans(l')
  {
    hide Parsed, Tokens, LineText, LineMeans, LineFits;
    if Parsed(line).Ok? { var m := ParseSound(line); }
    forall m | LineFits(m) && LineText(m, Empty) == Tokens(line, 0) ensures Parsed(line) == Ok(LineMeans(m), |line|) {
      ParseComplete(line, m);
    }
  }

  predicate Blank(line: string, i: nat, q: nat) { i <= q <= |line| && forall k :: i <= k < q ==> IsSpace(line[k]) }

  predicate InWord(line: string, k: nat) { k < |line| && !IsSpace(line[k]) && !IsSymbol(line[k]) }

  // The characters from i to j are blanks and then x: a word as long as possible, and >> before >.
  ghost predicate Reads(line: string, i: nat, x: Lexeme, j: nat) {
    match x
    case Word(s) =>
      && Blank(line, i, s.q) && s.q < s.eq == j <= |line| && (forall k :: s.q <= k < j ==> InWord(line, k))
      && !InWord(line, j)
    case Sym('+') => 2 <= j <= |line| && Blank(line, i, j - 2) && line[j - 2..j] == ">>"
    case Sym(c) =>
      && 1 <= j <= |line| && Blank(line, i, j - 1) && IsSymbol(c) && line[j - 1] == c
      && (c == '>' && j < |line| ==> line[j] != '>')
  }

  ghost predicate Spells(line: string, i: nat, text: Text)
    requires i <= |line|
    decreases text
  {
    match text
    case Empty => Blank(line, i, |line|)
    case Then(x, rest) => exists j :: i < j <= |line| && Reads(line, i, x, j) && Spells(line, j, rest)
  }

  lemma {:induction false} SkipIs(line: string, i: nat, q: nat)
    requires Blank(line, i, q) && (q < |line| ==> !IsSpace(line[q]))
    ensures Skip(line, i) == q
    decreases |line| - i
  {
    if i < q { SkipIs(line, i + 1, q); }
  }

  lemma {:induction false} WordIs(line: string, q: nat, eq: nat)
    requires q <= eq <= |line| && (forall k :: q <= k < eq ==> InWord(line, k)) && !InWord(line, eq)
    ensures WordEnd(line, q) == eq
    decreases |line| - q
  {
    if q < eq {
      assert InWord(line, q);
      WordIs(line, q + 1, eq);
    }
  }

  // gettoken reads the one token that is there.
  lemma ReadsToken(line: string, i: nat)
    requires i <= |line|
    ensures
      var t := TokenAt(line, i);
      if t.kind == '\0' then Blank(line, i, |line|) && t.next == |line|
      else Reads(line, i, Lexed(t), t.span.eq) && i < t.span.eq && t.next == Skip(line, t.span.eq)
  {
    hide Reads, Skip, WordEnd;
    var t := TokenAt(line, i);
    if t.kind == 'a' {
      ReadsWord(line, i);
    } else if t.kind != '\0' {
      ReadsSymbol(line, i);
    }
  }

  lemma ReadsSymbol(line: string, i: nat)
    requires i <= |line| && TokenAt(line, i).kind !in "a\0"
    ensures var t := TokenAt(line, i); Reads(line, i, Sym(t.kind), t.span.eq) && i < t.span.eq
  {
    hide Skip, WordEnd, IsSpace;
    var t := TokenAt(line, i);
    if t.kind == '+' {
      assert line[t.span.q..t.span.eq] == ">>";
    }
  }

  lemma ReadsWord(line: string, i: nat)
    requires i <= |line| && TokenAt(line, i).kind == 'a'
    ensures var t := TokenAt(line, i); Reads(line, i, Word(t.span), t.span.eq) && i < t.span.eq
  {
    var t := TokenAt(line, i);
    assert InWord(line, t.span.q);
    hide Skip;
  }

  lemma TokenRead(line: string, i: nat, x: Lexeme, j: nat)
    requires i <= |line| && i < j <= |line| && Reads(line, i, x, j)
    ensures var t := TokenAt(line, i); t.kind != '\0' && Lexed(t) == x && t.next == Skip(line, j)
  {
    match x
    case Word(s) =>
      assert InWord(line, s.q);
      SkipIs(line, i, s.q);
      WordIs(line, s.q, s.eq);
    case Sym(c) =>
      SkipIs(line, i, if c == '+' then j - 2 else j - 1);
      if c == '+' { assert line[j - 2] == line[j - 2..j][0] && line[j - 1] == line[j - 2..j][1]; }
  }

  lemma {:induction false} SpellsTokens(line: string, i: nat)
    requires i <= |line|
    ensures Spells(line, i, Tokens(line, i))
    decreases |line| - i
  {
    hide Skip, TokenAt, Reads, Lexed;
    ReadsToken(line, i);
    var t := TokenAt(line, i);
    if t.kind != '\0' {
      Peeks(line, t.span.eq);
      SpellsTokens(line, t.span.eq);
    }
  }

  lemma {:induction false} SpelledIsTokens(line: string, i: nat, text: Text)
    requires i <= |line| && Spells(line, i, text)
    ensures text == Tokens(line, i)
    decreases text
  {
    hide Skip, TokenAt, Reads, Lexed;
    match text
    case Empty => BlankEnds(line, i);
    case Then(x, rest) =>
      var j :| i < j <= |line| && Reads(line, i, x, j) && Spells(line, j, rest);
      TokenRead(line, i, x, j);
      Peeks(line, j);
      SpelledIsTokens(line, j, rest);
  }

  lemma BlankEnds(line: string, i: nat)
    requires i <= |line| && Blank(line, i, |line|)
    ensures TokenAt(line, i).kind == '\0'
  {
    SkipIs(line, i, |line|);
  }

  /** The tokens of a line are the one reading of its characters. */
  lemma LexesExactly(line: string, i: nat, text: Text)
    requires i <= |line|
    ensures Spells(line, i, text) <==> text == Tokens(line, i)
  {
    SpellsTokens(line, i);
    if Spells(line, i, text) { SpelledIsTokens(line, i, text); }
  }
}
