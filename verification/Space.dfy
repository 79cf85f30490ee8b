/** How many blocks a write needs, and when the disk has them. */
module Space {
  import opened Inodes
  import opened Spending

  // The blocks whose bit is clear.
  ghost function ClearBlocks(sb: Super, blocks: seq<seq<int>>): set<int> {
    if SuperOk(sb) && BlocksOk(sb, blocks) then set b: int | 0 <= b < sb.size && !InUse(sb, blocks, b) else {}
  }

  // The blocks of the data area that have no owner.
  ghost function Unowned(sb: Super, own: map<int, Owner>): set<int> {
    set b: int | sb.datastart <= b < sb.size && b !in own
  }

  lemma ClearIsUnowned(sb: Super, s: State)
    requires BitsMatch(sb, s)
    ensures ClearBlocks(sb, s.blocks) == Unowned(sb, s.own)
  {
    hide InUse;
    forall b ensures b in ClearBlocks(sb, s.blocks) <==> b in Unowned(sb, s.own) {
      if 0 <= b < sb.size { assert InUse(sb, s.blocks, b) <==> b < sb.datastart || b in s.own; }
    }
  }

  // The places that have a block.
  ghost function Held(own: map<int, Owner>): set<Owner> { set b | b in own :: own[b] }

  // The places that blocks lo to hi of file i take: their own, and the indirect block's if any is listed there.
  ghost function Places(i: nat, lo: nat, hi: nat): set<Owner> {
    (set bn: nat | lo <= bn < hi :: Data(i, bn)) + if lo < hi && hi > NDIRECT then {Ind(i)} else {}
  }

  // The places that n bytes at off of file i take.
  ghost function Wanted(i: nat, off: nat, n: nat): set<Owner> {
    if n == 0 then {} else Places(i, off / BSIZE, (off + n - 1) / BSIZE + 1)
  }

  /** n bytes at off of file i can be held: the places they take and that have no block yet are no
      more than there are clear bits. */
  ghost predicate Holdable(sb: Super, s: State, i: nat, off: nat, n: nat) {
    Enough(|ClearBlocks(sb, s.blocks)|, Wanted(i, off, n), Held(s.own))
  }

  // The blocks and places in use, for Spent.
  ghost predicate Filled(sb: Super, s: State, s': State, want: set<Owner>, ok: bool) {
    Spent(Held(s.own), |Unowned(sb, s.own)|, Held(s'.own), |Unowned(sb, s'.own)|, want, ok)
  }

  lemma HoldableIs(sb: Super, s: State, i: nat, off: nat, n: nat)
    requires BitsMatch(sb, s)
    ensures Holdable(sb, s, i, off, n) <==> Enough(|Unowned(sb, s.own)|, Wanted(i, off, n), Held(s.own))
  {
    ClearIsUnowned(sb, s);
  }

  // A free block was given to a place that had none.
  lemma GivenFilled(sb: Super, s: State, s': State, b: nat, o: Owner)
    requires Free(sb, s, b) && s'.own == s.own[b := o] && o !in Held(s.own)
    ensures Filled(sb, s, s', {o}, true)
  {
    SpentOne(Held(s.own), |Unowned(sb, s.own)|, o);
    assert b in Unowned(sb, s.own) && Unowned(sb, s'.own) == Unowned(sb, s.own) - {b};
    ValuesWith(s.own, b, o);
  }

  lemma ValuesWith(own: map<int, Owner>, b: int, o: Owner)
    requires b !in own
    ensures Held(own[b := o]) == Held(own) + {o}
  {
    var own' := own[b := o];
    forall x | x in Held(own) ensures x in Held(own') {
      var c :| c in own && own[c] == x;
      assert own'[c] == x;
    }
    assert own'[b] == o;
  }

  lemma NoneToGive(sb: Super, s: State, o: Owner)
    requires BitsMatch(sb, s) && o !in Held(s.own) && forall c: nat :: c < sb.size ==> InUse(sb, s.blocks, c)
    ensures Filled(sb, s, s, {o}, false)
  {
    hide InUse;
    SpentOne(Held(s.own), 0, o);
    assert Unowned(sb, s.own) == {} by {
      forall b ensures b !in Unowned(sb, s.own) {
        if sb.datastart <= b < sb.size { assert InUse(sb, s.blocks, b); }
      }
    }
  }

  // A place without a block is no owner's.
  lemma EmptyPlace(sb: Super, s: State, o: Owner)
    requires Owned(sb, s) && o.inum in s.inodes
    ensures o in Held(s.own) <==> match o case Data(i, n) => Addr(s, i, n) != 0 case Ind(i) => IndOf(s.inodes[i]) != 0
  {
    Sitter(sb, s, o);
    hide Owned, Addr;
    var b := match o case Data(i, n) => Addr(s, i, n) case Ind(i) => IndOf(s.inodes[i]);
    if o in Held(s.own) { var c :| c in s.own && s.own[c] == o; }
    if b != 0 { assert s.own[b] == o; }
  }

  // A place that has a block wants nothing.
  lemma FilledAlready(sb: Super, s: State, want: set<Owner>)
    requires want <= Held(s.own)
    ensures Filled(sb, s, s, want, true)
  {
    assert want - Held(s.own) == {};
    assert Held(s.own) + want == Held(s.own);
  }

  lemma FilledTwice(sb: Super, s: State, t: State, u: State, a: set<Owner>, b: set<Owner>, ok: bool)
    requires Filled(sb, s, t, a, true) && Filled(sb, t, u, b, ok)
    ensures Filled(sb, s, u, a + b, ok)
  {
    SpentTwice(Held(s.own), |Unowned(sb, s.own)|, Held(t.own), |Unowned(sb, t.own)|, Held(u.own),
      |Unowned(sb, u.own)|, a, b, ok);
  }

  // One block more, at the end of a range or in the block where it ends.
  lemma WantedNext(i: nat, off: nat, n: nat, m: nat)
    requires m > 0 && (off + n) % BSIZE + m <= BSIZE && (n == 0 || (off + n) % BSIZE == 0)
    ensures Wanted(i, off, n + m) == Wanted(i, off, n) + Places(i, (off + n) / BSIZE, (off + n) / BSIZE + 1)
  {
    var c := (off + n) / BSIZE;
    assert (off + n + m - 1) / BSIZE == c;
    if n > 0 { assert (off + n - 1) / BSIZE + 1 == c; }
  }

  // Two ranges in a row.
  lemma WantedTwice(i: nat, off: nat, a: nat, b: nat)
    ensures Wanted(i, off, a) + Wanted(i, off + a, b) == Wanted(i, off, a + b)
  {
    if a > 0 && b > 0 {
      var lo, mid, mid', hi := off / BSIZE, (off + a - 1) / BSIZE + 1, (off + a) / BSIZE, (off + a + b - 1) / BSIZE + 1;
      assert lo < mid && lo <= mid' <= mid && mid' < hi && mid <= hi;
      PlacesJoin(i, lo, mid, mid', hi);
    }
  }

  lemma PlacesJoin(i: nat, lo: nat, mid: nat, mid': nat, hi: nat)
    requires lo < mid && lo <= mid' <= mid && mid' < hi && mid <= hi
    ensures Places(i, lo, mid) + Places(i, mid', hi) == Places(i, lo, hi)
  {
  }

  lemma ShortPlaces(sb: Super, s: State, s': State, a: set<Owner>, b: set<Owner>)
    requires Filled(sb, s, s', a, false) && a <= b
    ensures forall t :: Filled(sb, s, t, b, false)
  {
    TooFew(Held(s.own), |Unowned(sb, s.own)|, a, b);
  }

  // Filling depends on the owners only.
  lemma FilledOwn(sb: Super, s: State, t: State, u: State, want: set<Owner>)
    requires Filled(sb, s, t, want, true) && u.own == t.own
    ensures Filled(sb, s, u, want, true)
  {
  }

  lemma NothingWanted(sb: Super, s: State, i: nat, off: nat)
    ensures Filled(sb, s, s, Wanted(i, off, 0), true)
  {
    FilledAlready(sb, s, {});
  }

  /** Of n bytes at off of file i, r is the largest number that can be held. */
  ghost predicate Largest(sb: Super, s: State, i: nat, off: nat, n: nat, r: int) {
    0 <= r <= n && Holdable(sb, s, i, off, r) && (r < n ==> !Holdable(sb, s, i, off, r + 1))
  }

  // writei has come from s to u with tot bytes, and goes on to w with the block of the next m.
  lemma WantedMore(sb: Super, s: State, u: State, w: State, i: nat, off: nat, n: nat, tot: nat, m: nat, ok: bool)
    requires BitsMatch(sb, s) && Filled(sb, s, u, Wanted(i, off, tot), true)
    requires Filled(sb, u, w, Places(i, (off + tot) / BSIZE, (off + tot) / BSIZE + 1), ok)
    requires m > 0 && tot + m <= n && (off + tot) % BSIZE + m <= BSIZE && (tot == 0 || (off + tot) % BSIZE == 0)
    ensures ok ==> Filled(sb, s, w, Wanted(i, off, tot + m), true)
    ensures !ok ==> Largest(sb, s, i, off, n, tot)
  {
    hide BitsMatch, Wanted, Places, Held, Unowned, Holdable, Enough;
    var c := (off + tot) / BSIZE;
    WantedNext(i, off, tot, m);
    WantedNext(i, off, tot, 1);
    FilledTwice(sb, s, u, w, Wanted(i, off, tot), Places(i, c, c + 1), ok);
    HoldableIs(sb, s, i, off, tot);
    HoldableIs(sb, s, i, off, tot + 1);
    EnoughSpent(Held(s.own), |Unowned(sb, s.own)|, Held(u.own), |Unowned(sb, u.own)|, Wanted(i, off, tot));
  }

  lemma WantedAll(sb: Super, s: State, w: State, i: nat, off: nat, n: nat)
    requires BitsMatch(sb, s) && Filled(sb, s, w, Wanted(i, off, n), true)
    ensures Largest(sb, s, i, off, n, n)
  {
    HoldableIs(sb, s, i, off, n);
    EnoughSpent(Held(s.own), |Unowned(sb, s.own)|, Held(w.own), |Unowned(sb, w.own)|, Wanted(i, off, n));
  }

  lemma HoldableSoFar(sb: Super, s: State, w: State, i: nat, off: nat, n: nat)
    requires BitsMatch(sb, s) && Filled(sb, s, w, Wanted(i, off, n), true)
    ensures Holdable(sb, s, i, off, n)
  {
    hide BitsMatch, Filled, Wanted, Holdable;
    WantedAll(sb, s, w, i, off, n);
  }

  // What can be held is held in part.
  lemma HoldableLess(sb: Super, s: State, i: nat, off: nat, n: nat, r: nat)
    requires r <= n && Holdable(sb, s, i, off, n)
    ensures Holdable(sb, s, i, off, r)
  {
    if !Holdable(sb, s, i, off, r) {
      WantedTwice(i, off, r, n - r);
      TooFew(Held(s.own), |ClearBlocks(sb, s.blocks)|, Wanted(i, off, r), Wanted(i, off, n));
    }
  }

  // A write in two parts: the second starts where the first has filled what it wanted.
  lemma HoldableTwice(sb: Super, s: State, t: State, i: nat, off: nat, a: nat, b: nat)
    requires BitsMatch(sb, s) && BitsMatch(sb, t) && Filled(sb, s, t, Wanted(i, off, a), true)
    ensures Holdable(sb, t, i, off + a, b) <==> Holdable(sb, s, i, off, a + b)
  {
    hide BitsMatch, Wanted, Held, Unowned, Holdable, Enough, Spent;
    HoldableIs(sb, t, i, off + a, b);
    HoldableIs(sb, s, i, off, a + b);
    WantedTwice(i, off, a, b);
    EnoughTwice(Held(s.own), |Unowned(sb, s.own)|, Held(t.own), |Unowned(sb, t.own)|, Wanted(i, off, a),
      Wanted(i, off + a, b));
  }
}
