/** The pattern matcher of user/grep.c.  A C string is the sequence of its
    characters before the terminating NUL. */
module Grep {
  // What a pattern is made of, read from the left.
  datatype Item = One(c: char) | Star(c: char) | End

  function Parse(re: string): seq<Item> {
    if re == [] then []
    else if |re| > 1 && re[1] == '*' then [Star(re[0])] + Parse(re[2..])
    else if re == "$" then [End]
    else [One(re[0])] + Parse(re[1..])
  }

  predicate Admits(c: char, x: char) { c == '.' || c == x }

  predicate AllAdmitted(c: char, w: string) { forall i :: 0 <= i < |w| ==> Admits(c, w[i]) }

  // The strings an item stands for; end says whether the match ends where the text does.
  predicate Piece(item: Item, w: string, end: bool) {
    match item
    case One(c) => |w| == 1 && Admits(c, w[0])
    case Star(c) => AllAdmitted(c, w)
    case End => w == [] && end
  }

  function Concat(ws: seq<string>): string { if ws == [] then [] else ws[0] + Concat(ws[1..]) }

  /** The language of a pattern: concatenations of one string per item. */
  ghost predicate InLanguage(items: seq<Item>, w: string, end: bool) {
    exists ws: seq<string> :: Pieces(items, ws, w, end)
  }

  ghost predicate Pieces(items: seq<Item>, ws: seq<string>, w: string, end: bool) {
    |ws| == |items| && Concat(ws) == w && forall i :: 0 <= i < |items| ==> Piece(items[i], ws[i], end)
  }

  // Some prefix of the text is in the language.
  ghost predicate Here(items: seq<Item>, text: string) { exists k :: HereTo(items, text, k) }

  ghost predicate HereTo(items: seq<Item>, text: string, k: int) {
    0 <= k <= |text| && InLanguage(items, text[..k], k == |text|)
  }

  // The text splits at j: the first item takes what is before.
  ghost predicate SplitAt(item: Item, items: seq<Item>, text: string, j: int) {
    0 <= j <= |text| && Here(items, text[j..]) && match item
      case One(c) => j == 1 && Admits(c, text[0])
      case Star(c) => AllAdmitted(c, text[..j])
      case End => false
  }

  lemma HereJoin(item: Item, items: seq<Item>, text: string, j: int)
    requires !item.End? && SplitAt(item, items, text, j)
    ensures Here([item] + items, text)
  {
    var k :| HereTo(items, text[j..], k);
    var end := k == |text[j..]|;
    var ws :| Pieces(items, ws, text[j..][..k], end);
    var all, vs := [item] + items, [text[..j]] + ws;
    assert Concat(vs) == text[..j] + text[j..][..k] == text[..j + k] by { assert vs[1..] == ws; }
    forall i | 0 <= i < |all| ensures Piece(all[i], vs[i], end) {
      assert i > 0 ==> all[i] == items[i - 1] && vs[i] == ws[i - 1];
    }
    assert Pieces(all, vs, text[..j + k], j + k == |text|);
    assert HereTo(all, text, j + k);
  }

  lemma HereSplit(item: Item, items: seq<Item>, text: string) returns (j: int)
    requires !item.End? && Here([item] + items, text)
    ensures SplitAt(item, items, text, j)
  {
    var all := [item] + items;
    var k :| HereTo(all, text, k);
    var end := k == |text|;
    var vs :| Pieces(all, vs, text[..k], end);
    var ws := vs[1..];
    j := |vs[0]|;
    assert text[..k] == vs[0] + Concat(ws);
    assert text[..j] == text[..k][..j] == vs[0];
    assert text[j..][..k - j] == text[..k][j..] == Concat(ws);
    forall i | 0 <= i < |items| ensures Piece(items[i], ws[i], end) {
      assert items[i] == all[i + 1] && ws[i] == vs[i + 1];
    }
    assert Pieces(items, ws, text[j..][..k - j], k - j == |text[j..]|);
    assert HereTo(items, text[j..], k - j);
    assert Piece(all[0], vs[0], end);
  }

  lemma HereNothing(text: string)
    ensures Here([], text)
  {
    assert Pieces([], [], text[..0], 0 == |text|);
    assert HereTo([], text, 0);
  }

  lemma HereAtEnd(text: string)
    ensures Here([End], text) <==> text == []
  {
    if text == [] {
      var ws: seq<string> := [[]];
      assert Concat(ws) == [] && Pieces([End], ws, text[..0], true);
      assert HereTo([End], text, 0);
    }
    if Here([End], text) {
      var k :| HereTo([End], text, k);
      var vs :| Pieces([End], vs, text[..k], k == |text|);
      assert Piece([End][0], vs[0], k == |text|) && vs[1..] == [];
      assert Concat(vs) == vs[0] + Concat(vs[1..]) == [];
      assert k == |text|;
    }
  }

  /** Whether some prefix of the text matches. */
  method MatchHere(re: string, text: string) returns (r: bool)
    ensures r <==> Here(Parse(re), text)
    decreases |re|, 0
  {
    if re == [] {
      HereNothing(text);
      return true;
    }
    if |re| > 1 && re[1] == '*' {
      r := MatchStar(re[0], re[2..], text);
      StarFirst(re, text);
      return;
    }
    if re[0] == '$' && |re| == 1 {
      HereAtEnd(text);
      assert re == "$";
      return text == [];
    }
    OneFirst(re, text);
    if text != [] && (re[0] == '.' || re[0] == text[0]) {
      r := MatchHere(re[1..], text[1..]);
      return;
    }
    return false;
  }

  ghost predicate StarAt(c: char, items: seq<Item>, text: string, j: int) {
    0 <= j <= |text| && AllAdmitted(c, text[..j]) && Here(items, text[j..])
  }

  ghost predicate StarHere(c: char, items: seq<Item>, text: string) { exists j :: StarAt(c, items, text, j) }

  lemma StarFirst(re: string, text: string)
    requires |re| > 1 && re[1] == '*'
    ensures Here(Parse(re), text) <==> StarHere(re[0], Parse(re[2..]), text)
  {
    var item, items := Star(re[0]), Parse(re[2..]);
    if Here([item] + items, text) {
      var j := HereSplit(item, items, text);
      assert StarAt(re[0], items, text, j);
    }
    forall j | StarAt(re[0], items, text, j) ensures Here([item] + items, text) {
      assert SplitAt(item, items, text, j);
      HereJoin(item, items, text, j);
    }
  }

  lemma OneFirst(re: string, text: string)
    requires re != [] && !(|re| > 1 && re[1] == '*') && re != "$"
    ensures Here(Parse(re), text) <==> text != [] && Admits(re[0], text[0]) && Here(Parse(re[1..]), text[1..])
  {
    var item, items := One(re[0]), Parse(re[1..]);
    if Here(Parse(re), text) { var j := HereSplit(item, items, text); }
    if text != [] && Admits(re[0], text[0]) && Here(items, text[1..]) {
      assert SplitAt(item, items, text, 1);
      HereJoin(item, items, text, 1);
    }
  }

  /** Whether some prefix of the text matches any number of c and then re. */
  method MatchStar(c: char, re: string, text: string) returns (r: bool)
    ensures r <==> StarHere(c, Parse(re), text)
    decreases |re|, 1
  {
    var i := 0;
    while true
      invariant 0 <= i <= |text| && AllAdmitted(c, text[..i])
      invariant forall j :: 0 <= j < i ==> !Here(Parse(re), text[j..])
      decreases |text| - i
    {
      var here := MatchHere(re, text[i..]);
      if here {
        assert StarAt(c, Parse(re), text, i);
        return true;
      }
      if i == |text| || !(text[i] == c || c == '.') { break; }
      i := i + 1;
    }
    forall j | i < j <= |text| ensures !AllAdmitted(c, text[..j]) { assert !Admits(c, text[..j][i]); }
    r := false;
  }

  // The text from i on has a matching prefix.
  ghost predicate MatchFrom(re: string, text: string, i: int) { 0 <= i <= |text| && Here(Parse(re), text[i..]) }

  // A pattern in which $ is a character like any other.
  function Stars(re: string): seq<Item> {
    if re == [] then []
    else if |re| > 1 && re[1] == '*' then [Star(re[0])] + Stars(re[2..])
    else [One(re[0])] + Stars(re[1..])
  }

  function Text(items: seq<Item>): string {
    if items == [] then []
    else (match items[0] case One(c) => [c] case Star(c) => [c, '*'] case End => "$") + Text(items[1..])
  }

  // No * stands after a character on its own.
  predicate Starred(items: seq<Item>) {
    forall i :: 0 <= i < |items| ==> !items[i].End? && (i > 0 && items[i].c == '*' ==> items[i - 1].Star?)
  }

  /** A * makes a star of the character before it unless that is a star's own; Stars is the one such reading. */
  lemma {:induction false} StarsExactly(re: string, items: seq<Item>)
    ensures Text(Stars(re)) == re && Starred(Stars(re))
    ensures Starred(items) && Text(items) == re ==> Stars(re) == items
  {
    StarsReads(re);
    if Starred(items) && Text(items) == re { StarsUnique(items); }
  }

  lemma {:induction false} StarsReads(re: string)
    ensures Text(Stars(re)) == re && Starred(Stars(re)) && (Stars(re) != [] ==> re != [] && Stars(re)[0].c == re[0])
    decreases |re|
  {
    if re != [] {
      var n := if |re| > 1 && re[1] == '*' then 2 else 1;
      StarsReads(re[n..]);
      assert Stars(re)[1..] == Stars(re[n..]);
      forall i | 0 <= i < |Stars(re)| ensures !Stars(re)[i].End?
        && (i > 0 && Stars(re)[i].c == '*' ==> Stars(re)[i - 1].Star?) {
        if i > 1 { assert Stars(re)[i] == Stars(re[n..])[i - 1] && Stars(re)[i - 1] == Stars(re[n..])[i - 2]; }
        if i == 1 { assert Stars(re)[1] == Stars(re[n..])[0]; }
      }
    }
  }

  lemma StarsFirst(item: Item, re: string)
    requires !item.End? && (re != [] && re[0] == '*' ==> item.Star?)
    ensures Stars((if item.Star? then [item.c, '*'] else [item.c]) + re) == [item] + Stars(re)
  {
    var all := (if item.Star? then [item.c, '*'] else [item.c]) + re;
    assert all[if item.Star? then 2 else 1..] == re;
  }

  lemma {:induction false} StarsUnique(items: seq<Item>)
    requires Starred(items)
    ensures Stars(Text(items)) == items && (items != [] ==> Text(items) != [] && Text(items)[0] == items[0].c)
  {
    if items != [] {
      var more := items[1..];
      assert Starred(more);
      StarsUnique(more);
      assert more != [] ==> items[1] == more[0];
      StarsFirst(items[0], Text(more));
      assert items == [items[0]] + more;
    }
  }

  predicate Anchored(re: string) { re != [] && re[|re| - 1] == '$' }

  function Unanchored(re: string): string { if Anchored(re) then re[..|re| - 1] else re }

  lemma {:induction false} ParseAnchor(re: string)
    ensures Parse(re) == Stars(Unanchored(re)) + if Anchored(re) then [End] else []
    decreases |re|
  {
    if re != [] && re != "$" {
      var n := if |re| > 1 && re[1] == '*' then 2 else 1;
      ParseAnchor(re[n..]);
      if n < |re| {
        assert Anchored(re[n..]) <==> Anchored(re);
        assert Unanchored(re)[n..] == Unanchored(re[n..]);
      }
    }
  }

  // Only a final $ asks where the text ends.
  lemma AnyEnd(items: seq<Item>, w: string, e: bool)
    requires Starred(items) && InLanguage(items, w, e)
    ensures InLanguage(items, w, !e)
  {
    var ws :| Pieces(items, ws, w, e);
    assert Pieces(items, ws, w, !e);
  }

  lemma {:induction false} ConcatEmpty(ws: seq<string>)
    ensures Concat(ws + [[]]) == Concat(ws)
  {
    if ws != [] {
      ConcatEmpty(ws[1..]);
      assert (ws + [[]])[1..] == ws[1..] + [[]];
    }
  }

  lemma EndLast(items: seq<Item>, w: string, e: bool)
    requires Starred(items)
    ensures InLanguage(items + [End], w, e) <==> e && InLanguage(items, w, e)
  {
    if InLanguage(items + [End], w, e) {
      var vs :| Pieces(items + [End], vs, w, e);
      var ws := vs[..|items|];
      assert Piece((items + [End])[|items|], vs[|items|], e);
      assert vs == ws + [[]];
      ConcatEmpty(ws);
      forall i | 0 <= i < |items| ensures Piece(items[i], ws[i], e) { assert Piece((items + [End])[i], vs[i], e); }
      assert Pieces(items, ws, w, e);
    }
    if e && InLanguage(items, w, e) {
      var ws :| Pieces(items, ws, w, e);
      ConcatEmpty(ws);
      assert Pieces(items + [End], ws + [[]], w, e);
    }
  }

  // The pattern without its anchors, and where they put a match.
  function Core(re: string): string { if re != [] && re[0] == '^' then re[1..] else re }

  ghost predicate SpansTo(re: string, text: string, i: int, j: int) {
    && 0 <= i <= j <= |text| && (Anchored(re) ==> j == |text|)
    && InLanguage(Stars(Unanchored(re)), text[i..j], false)
  }

  ghost predicate MatchesAt(re: string, text: string, i: int, j: int) {
    SpansTo(Core(re), text, i, j) && (re != [] && re[0] == '^' ==> i == 0)
  }

  lemma HereAnchored(re: string, text: string, i: int)
    requires 0 <= i <= |text|
    ensures MatchFrom(re, text, i) <==> exists j :: SpansTo(re, text, i, j)
  {
    var items := Stars(Unanchored(re));
    StarsReads(Unanchored(re));
    ParseAnchor(re);
    if MatchFrom(re, text, i) {
      var k :| HereTo(Parse(re), text[i..], k);
      ReachesTo(items, Anchored(re), text, i, i + k);
      assert SpansTo(re, text, i, i + k);
    }
    forall j | SpansTo(re, text, i, j) ensures MatchFrom(re, text, i) {
      ReachesTo(items, Anchored(re), text, i, j);
      assert HereTo(Parse(re), text[i..], j - i);
    }
  }

  lemma ReachesTo(items: seq<Item>, anchored: bool, text: string, i: int, j: int)
    requires Starred(items) && 0 <= i <= j <= |text|
    ensures HereTo(items + (if anchored then [End] else []), text[i..], j - i) <==>
      (anchored ==> j == |text|) && InLanguage(items, text[i..j], false)
  {
    assert text[i..][..j - i] == text[i..j];
    assert items + [] == items;
    EndLast(items, text[i..j], j == |text|);
    forall e | InLanguage(items, text[i..j], e) ensures InLanguage(items, text[i..j], !e) {
      AnyEnd(items, text[i..j], e);
    }
  }

  lemma MatchAnchored(re: string, text: string, i: int)
    requires 0 <= i <= |text| && (re != [] && re[0] == '^' ==> i == 0)
    ensures MatchFrom(Core(re), text, i) <==> exists j :: MatchesAt(re, text, i, j)
  {
    HereAnchored(Core(re), text, i);
    forall j | SpansTo(Core(re), text, i, j) ensures MatchesAt(re, text, i, j) {
    }
  }

  /** match returns true exactly when some substring of the text is in the language of the pattern
      without its anchors; a leading ^ makes it start, and a trailing $ end, where the text does. */
  method Match(re: string, text: string) returns (r: bool)
    ensures r <==> exists i, j :: MatchesAt(re, text, i, j)
  {
    if re != [] && re[0] == '^' {
      r := MatchHere(re[1..], text);
      assert text[0..] == text;
      MatchAnchored(re, text, 0);
      return;
    }
    var i := 0;
    while true
      invariant 0 <= i <= |text| && forall j :: 0 <= j < i ==> !MatchFrom(re, text, j)
      decreases |text| - i
    {
      var here := MatchHere(re, text[i..]);
      if here {
        assert MatchFrom(re, text, i);
        MatchAnchored(re, text, i);
        return true;
      }
      assert !MatchFrom(re, text, i);
      if i == |text| { break; }
      i := i + 1;
    }
    forall a, b | MatchesAt(re, text, a, b) ensures MatchFrom(re, text, a) { MatchAnchored(re, text, a); }
    r := false;
  }
}
