/** Links and the mirrored adjacency sets: a link e1 -rat13-> e3 is the
 *  out-leg (rat13, e3) in `e2outs[e1]` together with the in-leg (e1, rat13)
 *  in `e2ins[e3]`. A `std::set` of legs is a strictly sorted sequence. */
module Links {
  import opened Wrappers
  import opened DataModel
  import opened State

  // ---------------------------------------------------------------------
  // std::set insert and erase on sorted sequences

  function InsertOut(s: seq<OutLeg>, x: OutLeg): (r: seq<OutLeg>)
    requires OutLegsSorted(s)
    ensures OutLegsSorted(r)
    ensures forall y :: y in r <==> y in s || y == x
  {
    if s == [] then [x]
    else if x == s[0] then s
    else if OutLegLess(x, s[0]) then
      assert forall k :: 0 <= k < |s| ==> OutLegLess(x, s[k]) by {
        forall k | 0 <= k < |s| ensures OutLegLess(x, s[k]) {
          if k > 0 { OutLegLessIsStrictTotalOrder(x, s[0], s[k]); }
        }
      }
      [x] + s
    else
      var rest := InsertOut(s[1..], x);
      assert OutLegLess(s[0], x) by { OutLegLessIsStrictTotalOrder(x, s[0], x); }
      assert forall y :: y in rest ==> OutLegLess(s[0], y) by {
        forall y | y in rest ensures OutLegLess(s[0], y) {
          if y != x { var k :| 1 <= k < |s| && s[k] == y; }
        }
      }
      [s[0]] + rest
  }

  function RemoveOut(s: seq<OutLeg>, x: OutLeg): (r: seq<OutLeg>)
    requires OutLegsSorted(s)
    ensures OutLegsSorted(r)
    ensures forall y :: y in r <==> y in s && y != x
  {
    if s == [] then []
    else if s[0] == x then
      assert x !in s[1..] by {
        forall k | 1 <= k < |s| ensures s[k] != x { assert OutLegLess(s[0], s[k]); }
      }
      s[1..]
    else
      var rest := RemoveOut(s[1..], x);
      assert forall y :: y in rest ==> OutLegLess(s[0], y) by {
        forall y | y in rest ensures OutLegLess(s[0], y) { var k :| 1 <= k < |s| && s[k] == y; }
      }
      [s[0]] + rest
  }

  function InsertIn(s: seq<InLeg>, x: InLeg): (r: seq<InLeg>)
    requires InLegsSorted(s)
    ensures InLegsSorted(r)
    ensures forall y :: y in r <==> y in s || y == x
  {
    if s == [] then [x]
    else if x == s[0] then s
    else if InLegLess(x, s[0]) then
      assert forall k :: 0 <= k < |s| ==> InLegLess(x, s[k]) by {
        forall k | 0 <= k < |s| ensures InLegLess(x, s[k]) {
          if k > 0 { InLegLessIsStrictTotalOrder(x, s[0], s[k]); }
        }
      }
      [x] + s
    else
      var rest := InsertIn(s[1..], x);
      assert InLegLess(s[0], x) by { InLegLessIsStrictTotalOrder(x, s[0], x); }
      assert forall y :: y in rest ==> InLegLess(s[0], y) by {
        forall y | y in rest ensures InLegLess(s[0], y) {
          if y != x { var k :| 1 <= k < |s| && s[k] == y; }
        }
      }
      [s[0]] + rest
  }

  function RemoveIn(s: seq<InLeg>, x: InLeg): (r: seq<InLeg>)
    requires InLegsSorted(s)
    ensures InLegsSorted(r)
    ensures forall y :: y in r <==> y in s && y != x
  {
    if s == [] then []
    else if s[0] == x then
      assert x !in s[1..] by {
        forall k | 1 <= k < |s| ensures s[k] != x { assert InLegLess(s[0], s[k]); }
      }
      s[1..]
    else
      var rest := RemoveIn(s[1..], x);
      assert forall y :: y in rest ==> InLegLess(s[0], y) by {
        forall y | y in rest ensures InLegLess(s[0], y) { var k :| 1 <= k < |s| && s[k] == y; }
      }
      [s[0]] + rest
  }

  /** A set is determined by its members: two sorted sequences with the same
   *  members are equal. */
  lemma {:induction false} OutSortedUnique(a: seq<OutLeg>, b: seq<OutLeg>)
    requires OutLegsSorted(a) && OutLegsSorted(b)
    requires forall y :: y in a <==> y in b
    ensures a == b
    decreases |a|
  {
    assert b != [] ==> b[0] in b && b[0] in a;
    if a != [] {
      assert a[0] in a;
      assert a[0] in b;
      var i :| 0 <= i < |b| && b[i] == a[0];
      assert b[0] in b;
      assert b[0] in a;
      var j :| 0 <= j < |a| && a[j] == b[0];
      var a0, b0 := a[0], b[0];
      assert a0 == b0 by {
        assert i > 0 ==> OutLegLess(b0, a0);
        assert j > 0 ==> OutLegLess(a0, b0);
      }
      forall y ensures y in a[1..] <==> y in b[1..] {
        if y in a[1..] {
          var k :| 1 <= k < |a| && a[k] == y;
          assert OutLegLess(a[0], y);
          assert y in b;
          var m :| 0 <= m < |b| && b[m] == y;
          assert m != 0 && b[1..][m - 1] == y;
        }
        if y in b[1..] {
          var k :| 1 <= k < |b| && b[k] == y;
          assert OutLegLess(b[0], y);
          assert y in a;
          var m :| 0 <= m < |a| && a[m] == y;
          assert m != 0 && a[1..][m - 1] == y;
        }
      }
      OutSortedUnique(a[1..], b[1..]);
      assert a[1..] == b[1..];
      assert a == [a0] + a[1..] && b == [b0] + b[1..];
    }
  }

  lemma {:induction false} InSortedUnique(a: seq<InLeg>, b: seq<InLeg>)
    requires InLegsSorted(a) && InLegsSorted(b)
    requires forall y :: y in a <==> y in b
    ensures a == b
    decreases |a|
  {
    assert b != [] ==> b[0] in b && b[0] in a;
    if a != [] {
      assert a[0] in a;
      assert a[0] in b;
      var i :| 0 <= i < |b| && b[i] == a[0];
      assert b[0] in b;
      assert b[0] in a;
      var j :| 0 <= j < |a| && a[j] == b[0];
      var a0, b0 := a[0], b[0];
      assert a0 == b0 by {
        assert i > 0 ==> InLegLess(b0, a0);
        assert j > 0 ==> InLegLess(a0, b0);
      }
      forall y ensures y in a[1..] <==> y in b[1..] {
        if y in a[1..] {
          var k :| 1 <= k < |a| && a[k] == y;
          assert InLegLess(a[0], y);
          assert y in b;
          var m :| 0 <= m < |b| && b[m] == y;
          assert m != 0 && b[1..][m - 1] == y;
        }
        if y in b[1..] {
          var k :| 1 <= k < |b| && b[k] == y;
          assert InLegLess(b[0], y);
          assert y in a;
          var m :| 0 <= m < |a| && a[m] == y;
          assert m != 0 && a[1..][m - 1] == y;
        }
      }
      InSortedUnique(a[1..], b[1..]);
      assert a[1..] == b[1..];
      assert a == [a0] + a[1..] && b == [b0] + b[1..];
    }
  }

  /** Inserting an absent leg and erasing it again gives back the set, and so
   *  does erasing a present leg and inserting it again. */
  lemma OutInsertRemove(s: seq<OutLeg>, x: OutLeg)
    requires OutLegsSorted(s)
    ensures x !in s ==> RemoveOut(InsertOut(s, x), x) == s
    ensures x in s ==> InsertOut(RemoveOut(s, x), x) == s
  {
    if x !in s { OutSortedUnique(RemoveOut(InsertOut(s, x), x), s); }
    else { OutSortedUnique(InsertOut(RemoveOut(s, x), x), s); }
  }

  lemma InInsertRemove(s: seq<InLeg>, x: InLeg)
    requires InLegsSorted(s)
    ensures x !in s ==> RemoveIn(InsertIn(s, x), x) == s
    ensures x in s ==> InsertIn(RemoveIn(s, x), x) == s
  {
    if x !in s { InSortedUnique(RemoveIn(InsertIn(s, x), x), s); }
    else { InSortedUnique(InsertIn(RemoveIn(s, x), x), s); }
  }

  // ---------------------------------------------------------------------
  // Adjacency after adding or deleting a link

  function OutsWith(outs: map<Entity, seq<OutLeg>>, l: Link): (r: map<Entity, seq<OutLeg>>)
    requires forall e :: e in outs ==> OutLegsSorted(outs[e])
    ensures forall e :: e in r ==> OutLegsSorted(r[e])
  {
    outs[l.e1 := InsertOut(OutsOf(outs, l.e1), OutLeg(l.rat13, l.e3))]
  }

  function InsWith(ins: map<Entity, seq<InLeg>>, l: Link): (r: map<Entity, seq<InLeg>>)
    requires forall e :: e in ins ==> InLegsSorted(ins[e])
    ensures forall e :: e in r ==> InLegsSorted(r[e])
  {
    ins[l.e3 := InsertIn(InsOf(ins, l.e3), InLeg(l.e1, l.rat13))]
  }

  function OutsWithout(outs: map<Entity, seq<OutLeg>>, l: Link): (r: map<Entity, seq<OutLeg>>)
    requires forall e :: e in outs ==> OutLegsSorted(outs[e])
    ensures forall e :: e in r ==> OutLegsSorted(r[e])
  {
    outs[l.e1 := RemoveOut(OutsOf(outs, l.e1), OutLeg(l.rat13, l.e3))]
  }

  function InsWithout(ins: map<Entity, seq<InLeg>>, l: Link): (r: map<Entity, seq<InLeg>>)
    requires forall e :: e in ins ==> InLegsSorted(ins[e])
    ensures forall e :: e in r ==> InLegsSorted(r[e])
  {
    ins[l.e3 := RemoveIn(InsOf(ins, l.e3), InLeg(l.e1, l.rat13))]
  }

  /** Adding a link to both sides keeps the mirror, makes the link present,
   *  and leaves every other link as it was. */
  lemma AddKeepsMirror(outs: map<Entity, seq<OutLeg>>, ins: map<Entity, seq<InLeg>>, l: Link)
    requires LegsSorted(outs, ins) && Mirrored(outs, ins)
    ensures Mirrored(OutsWith(outs, l), InsWith(ins, l))
    ensures LinkIn(OutsWith(outs, l), l)
    ensures forall m :: m != l ==> (LinkIn(OutsWith(outs, l), m) <==> LinkIn(outs, m))
  {
    forall e1: Entity, r: Rat, e3: Entity ensures MirroredAt(OutsWith(outs, l), InsWith(ins, l), e1, r, e3) {
      assert MirroredAt(outs, ins, e1, r, e3);
    }
  }

  /** Deleting a link from both sides keeps the mirror, makes the link
   *  absent, and leaves every other link as it was. */
  lemma DelKeepsMirror(outs: map<Entity, seq<OutLeg>>, ins: map<Entity, seq<InLeg>>, l: Link)
    requires LegsSorted(outs, ins) && Mirrored(outs, ins)
    ensures Mirrored(OutsWithout(outs, l), InsWithout(ins, l))
    ensures !LinkIn(OutsWithout(outs, l), l)
    ensures forall m :: m != l ==> (LinkIn(OutsWithout(outs, l), m) <==> LinkIn(outs, m))
  {
    forall e1: Entity, r: Rat, e3: Entity ensures MirroredAt(OutsWithout(outs, l), InsWithout(ins, l), e1, r, e3) {
      assert MirroredAt(outs, ins, e1, r, e3);
    }
  }

  /** Adding an absent link and deleting it again restores both leg maps
   *  wherever they had an entry. */
  lemma AddThenDelRestores(outs: map<Entity, seq<OutLeg>>, ins: map<Entity, seq<InLeg>>, l: Link)
    requires LegsSorted(outs, ins) && Mirrored(outs, ins) && !LinkIn(outs, l)
    requires l.e1 in outs && l.e3 in ins
    ensures OutsWithout(OutsWith(outs, l), l) == outs
    ensures InsWithout(InsWith(ins, l), l) == ins
  {
    OutInsertRemove(outs[l.e1], OutLeg(l.rat13, l.e3));
    var x := InLeg(l.e1, l.rat13);
    assert MirroredAt(outs, ins, l.e1, l.rat13, l.e3);
    InInsertRemove(ins[l.e3], x);
  }

  // ---------------------------------------------------------------------
  // Operations on the world

  /** `link_exists`. */
  function LinkExists(g: Globals, l: Link): (b: bool)
    ensures b <==> OutLeg(l.rat13, l.e3) in OutsOf(g.e2outs, l.e1)
  {
    LinkIn(g.e2outs, l)
  }

  /** Under the mirror, a link is present at its source exactly when its
   *  in-leg is present at its target. */
  lemma LinkSeenFromBothEnds(g: Globals, tb: Tables, rng: Rng, l: Link)
    requires GlobalsOk(g, tb, rng, None)
    ensures LinkExists(g, l) <==> InLeg(l.e1, l.rat13) in InsOf(g.e2ins, l.e3)
  {
    assert MirroredAt(g.e2outs, g.e2ins, l.e1, l.rat13, l.e3);
    if InLeg(l.e1, l.rat13) in InsOf(g.e2ins, l.e3) {
      assert l.e3 in g.e2ins && InLeg(l.e1, l.rat13) in g.e2ins[l.e3];
    }
  }

  /** The state after `add_link`. */
  function WithLink(g: Globals, l: Link): (g': Globals)
    requires LegsSorted(g.e2outs, g.e2ins)
    ensures LegsSorted(g'.e2outs, g'.e2ins)
  {
    g.(e2outs := OutsWith(g.e2outs, l), e2ins := InsWith(g.e2ins, l), nLinks := g.nLinks + 1)
  }

  /** The state after `del_link`. */
  function WithoutLink(g: Globals, l: Link): (g': Globals)
    requires LegsSorted(g.e2outs, g.e2ins)
    ensures LegsSorted(g'.e2outs, g'.e2ins)
  {
    g.(e2outs := OutsWithout(g.e2outs, l), e2ins := InsWithout(g.e2ins, l), nLinks := g.nLinks - 1)
  }

  /** Adding an absent link between entities in use keeps the invariant,
   *  makes the link present and leaves every other link as it was. */
  lemma WithLinkOk(g: Globals, tb: Tables, rng: Rng, l: Link)
    requires GlobalsOk(g, tb, rng, None) && l.e1 in g.es && l.e3 in g.es
    ensures GlobalsOk(WithLink(g, l), tb, rng, None)
    ensures LinkExists(WithLink(g, l), l)
    ensures forall m :: m != l ==> (LinkExists(WithLink(g, l), m) <==> LinkExists(g, m))
  {
    AddKeepsMirror(g.e2outs, g.e2ins, l);
  }

  /** Deleting a link keeps the invariant, makes the link absent and leaves
   *  every other link as it was. */
  lemma WithoutLinkOk(g: Globals, tb: Tables, rng: Rng, l: Link)
    requires GlobalsOk(g, tb, rng, None) && LinkExists(g, l)
    ensures GlobalsOk(WithoutLink(g, l), tb, rng, None)
    ensures !LinkExists(WithoutLink(g, l), l)
    ensures forall m :: m != l ==> (LinkExists(WithoutLink(g, l), m) <==> LinkExists(g, m))
  {
    LinkSeenFromBothEnds(g, tb, rng, l);
    DelKeepsMirror(g.e2outs, g.e2ins, l);
  }

  /** `add_link` followed by `del_link` of the same absent link restores the
   *  state. */
  lemma AddLinkThenDelLink(g: Globals, tb: Tables, rng: Rng, l: Link)
    requires GlobalsOk(g, tb, rng, None) && !LinkExists(g, l)
    requires l.e1 in g.e2outs && l.e3 in g.e2ins
    ensures WithoutLink(WithLink(g, l), l) == g
  {
    AddThenDelRestores(g.e2outs, g.e2ins, l);
  }

  /** `add_link`. The link must be absent and, unless it is the identity, not
   *  a self-link; its ends must be entities in use. */
  method AddLink(w: World, l: Link)
    requires w.Valid() && !LinkExists(w.g, l) && (l.e1 != l.e3 || l.rat13 == RT_ID)
    requires l.e1 in w.g.es && l.e3 in w.g.es
    modifies w
    ensures w.Valid() && w.g == WithLink(old(w.g), l)
  {
    WithLinkOk(w.g, w.tb, w.rng, l);
    w.g := WithLink(w.g, l);
  }

  /** `del_link`. The link must exist. */
  method DelLink(w: World, l: Link)
    requires w.Valid() && LinkExists(w.g, l)
    modifies w
    ensures w.Valid() && w.g == WithoutLink(old(w.g), l)
  {
    WithoutLinkOk(w.g, w.tb, w.rng, l);
    w.g := WithoutLink(w.g, l);
  }
}
