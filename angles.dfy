/** Angle enumeration (src/angle.cpp, `leg_intersection`): the angles
 *  e1 -rat12-> e2 -rat23-> e3 are the pairs of an out-leg of e1 and an in-leg
 *  of e3 that meet at the same middle entity e2. */
module Angles {
  import opened DataModel

  // ---------------------------------------------------------------------
  // Specification: the angles through one in-leg, and through all of them

  /** The angles formed by in-leg `l` of e3 with the out-legs `outs` of e1,
   *  in the order of `outs`. */
  function Row(outs: seq<OutLeg>, l: InLeg): seq<Angle> {
    if outs == [] then []
    else
      var m := |outs| - 1;
      Row(outs[..m], l)
        + (if outs[m].eOther == l.eOther then [Angle(outs[m].ratOut, l.eOther, l.ratIn)] else [])
  }

  /** All angles between `outs` and `ins`: in-leg by in-leg, and for each
   *  in-leg out-leg by out-leg. */
  function AnglesOf(outs: seq<OutLeg>, ins: seq<InLeg>): seq<Angle> {
    if ins == [] then []
    else
      var m := |ins| - 1;
      AnglesOf(outs, ins[..m]) + Row(outs, ins[m])
  }

  /** Every relationship type id of a leg lies in 1..nRats. */
  predicate OutRatsIn(outs: seq<OutLeg>, nRats: nat) {
    forall k :: 0 <= k < |outs| ==> 1 <= outs[k].ratOut <= nRats
  }

  /** The order in which `leg_intersection` emits angles: by middle entity,
   *  then by the in-leg's type, then by the out-leg's type. */
  predicate AngleLess(a: Angle, b: Angle) {
    a.e2 < b.e2
    || (a.e2 == b.e2 && a.rat23 < b.rat23)
    || (a.e2 == b.e2 && a.rat23 == b.rat23 && a.rat12 < b.rat12)
  }

  predicate AnglesSorted(s: seq<Angle>) {
    forall i, j :: 0 <= i < j < |s| ==> AngleLess(s[i], s[j])
  }

  // ---------------------------------------------------------------------
  // Lemmas about Row

  lemma RowStep(outs: seq<OutLeg>, o: nat, l: InLeg)
    requires o < |outs|
    ensures Row(outs[..o + 1], l) == Row(outs[..o], l)
      + (if outs[o].eOther == l.eOther then [Angle(outs[o].ratOut, l.eOther, l.ratIn)] else [])
  {
    assert outs[..o + 1][..o] == outs[..o];
  }

  /** Out-legs that do not meet the in-leg contribute nothing. */
  lemma {:induction false} RowNone(outs: seq<OutLeg>, l: InLeg)
    requires forall k :: 0 <= k < |outs| ==> outs[k].eOther != l.eOther
    ensures Row(outs, l) == []
  {
    if outs != [] {
      RowNone(outs[..|outs| - 1], l);
    }
  }

  /** Out-legs after position `o` that do not meet the in-leg can be dropped. */
  lemma {:induction false} RowPrefixAll(outs: seq<OutLeg>, o: nat, l: InLeg)
    requires o <= |outs|
    requires forall k :: o <= k < |outs| ==> outs[k].eOther != l.eOther
    ensures Row(outs[..o], l) == Row(outs, l)
    decreases |outs| - o
  {
    if o == |outs| {
      assert outs[..o] == outs;
    } else {
      RowStep(outs, o, l);
      RowPrefixAll(outs, o + 1, l);
    }
  }

  lemma {:induction false} RowPrefixLen(outs: seq<OutLeg>, o: nat, l: InLeg)
    requires o <= |outs|
    ensures |Row(outs[..o], l)| <= |Row(outs, l)|
    decreases |outs| - o
  {
    if o == |outs| {
      assert outs[..o] == outs;
    } else {
      RowStep(outs, o, l);
      RowPrefixLen(outs, o + 1, l);
    }
  }

  /** An angle is in the row exactly when some out-leg meets the in-leg and
   *  contributes it. */
  lemma {:induction false} RowMembers(outs: seq<OutLeg>, l: InLeg, a: Angle)
    ensures a in Row(outs, l) <==>
      exists k :: 0 <= k < |outs| && outs[k].eOther == l.eOther
        && a == Angle(outs[k].ratOut, l.eOther, l.ratIn)
  {
    if outs != [] {
      var m := |outs| - 1;
      RowMembers(outs[..m], l, a);
      if a in Row(outs[..m], l) {
        var k :| 0 <= k < m && outs[..m][k].eOther == l.eOther
          && a == Angle(outs[..m][k].ratOut, l.eOther, l.ratIn);
        assert outs[k] == outs[..m][k];
      }
      if exists k :: 0 <= k < |outs| && outs[k].eOther == l.eOther
          && a == Angle(outs[k].ratOut, l.eOther, l.ratIn) {
        var k :| 0 <= k < |outs| && outs[k].eOther == l.eOther
          && a == Angle(outs[k].ratOut, l.eOther, l.ratIn);
        if k < m {
          assert outs[..m][k] == outs[k];
        }
      }
    }
  }

  /** Within a row all angles share e2 and rat23, and their rat12 strictly increase. */
  lemma {:induction false} RowIncreasing(outs: seq<OutLeg>, l: InLeg)
    requires OutLegsSorted(outs)
    ensures forall a :: a in Row(outs, l) ==> a.e2 == l.eOther && a.rat23 == l.ratIn
    ensures forall i, j :: 0 <= i < j < |Row(outs, l)| ==> Row(outs, l)[i].rat12 < Row(outs, l)[j].rat12
  {
    forall a | a in Row(outs, l)
      ensures a.e2 == l.eOther && a.rat23 == l.ratIn
    {
      RowMembers(outs, l, a);
    }
    if outs != [] {
      var m := |outs| - 1;
      var pre := outs[..m];
      assert OutLegsSorted(pre);
      RowIncreasing(pre, l);
      if outs[m].eOther == l.eOther {
        forall a | a in Row(pre, l)
          ensures a.rat12 < outs[m].ratOut
        {
          RowMembers(pre, l, a);
          var k :| 0 <= k < |pre| && pre[k].eOther == l.eOther
            && a == Angle(pre[k].ratOut, l.eOther, l.ratIn);
          assert OutLegLess(outs[k], outs[m]);
        }
        var r := Row(outs, l);
        assert r == Row(pre, l) + [Angle(outs[m].ratOut, l.eOther, l.ratIn)];
        forall i, j | 0 <= i < j < |r|
          ensures r[i].rat12 < r[j].rat12
        {
          if j == |r| - 1 {
            assert r[i] in Row(pre, l);
          } else {
            assert r[i] == Row(pre, l)[i] && r[j] == Row(pre, l)[j];
          }
        }
      }
    }
  }

  /** Strictly increasing type ids between `lo` and `hi` number at most `hi - lo + 1`. */
  lemma {:induction false} IncreasingBound(s: seq<Angle>, lo: int, hi: int)
    requires lo <= hi + 1
    requires forall i, j :: 0 <= i < j < |s| ==> s[i].rat12 < s[j].rat12
    requires forall i :: 0 <= i < |s| ==> lo <= s[i].rat12 <= hi
    ensures |s| <= hi - lo + 1
  {
    if s != [] {
      var t := s[1..];
      var lo' := s[0].rat12 + 1;
      forall i | 0 <= i < |t|
        ensures lo' <= t[i].rat12 <= hi
      {
        assert t[i] == s[i + 1];
      }
      forall i, j | 0 <= i < j < |t|
        ensures t[i].rat12 < t[j].rat12
      {
        assert t[i] == s[i + 1] && t[j] == s[j + 1];
      }
      IncreasingBound(t, lo', hi);
    }
  }

  /** An entity has at most `nRats` out-legs to one middle entity. */
  lemma RowBound(outs: seq<OutLeg>, l: InLeg, nRats: nat)
    requires OutLegsSorted(outs) && OutRatsIn(outs, nRats)
    ensures |Row(outs, l)| <= nRats
  {
    RowIncreasing(outs, l);
    var r := Row(outs, l);
    forall i | 0 <= i < |r|
      ensures 1 <= r[i].rat12 <= nRats
    {
      RowMembers(outs, l, r[i]);
    }
    IncreasingBound(r, 1, nRats);
  }

  // ---------------------------------------------------------------------
  // Lemmas about AnglesOf

  lemma AnglesStep(outs: seq<OutLeg>, ins: seq<InLeg>, i: nat)
    requires i < |ins|
    ensures AnglesOf(outs, ins[..i + 1]) == AnglesOf(outs, ins[..i]) + Row(outs, ins[i])
  {
    assert ins[..i + 1][..i] == ins[..i];
  }

  /** In-legs after position `i` that meet no out-leg can be dropped. */
  lemma {:induction false} AnglesTailNone(outs: seq<OutLeg>, ins: seq<InLeg>, i: nat, n: nat)
    requires i <= n <= |ins|
    requires forall j :: i <= j < |ins| ==> Row(outs, ins[j]) == []
    ensures AnglesOf(outs, ins[..n]) == AnglesOf(outs, ins[..i])
    decreases n
  {
    if n > i {
      AnglesStep(outs, ins, n - 1);
      AnglesTailNone(outs, ins, i, n - 1);
    }
  }

  lemma {:induction false} AnglesPrefixLen(outs: seq<OutLeg>, ins: seq<InLeg>, i: nat, n: nat)
    requires i <= n <= |ins|
    ensures |AnglesOf(outs, ins[..i])| <= |AnglesOf(outs, ins[..n])|
    decreases n
  {
    if n > i {
      AnglesStep(outs, ins, n - 1);
      AnglesPrefixLen(outs, ins, i, n - 1);
    }
  }

  /** At most `nRats` angles per in-leg. */
  lemma {:induction false} AnglesBound(outs: seq<OutLeg>, ins: seq<InLeg>, nRats: nat)
    requires OutLegsSorted(outs) && OutRatsIn(outs, nRats)
    ensures |AnglesOf(outs, ins)| <= |ins| * nRats
  {
    if ins != [] {
      var m := |ins| - 1;
      var pre := ins[..m];
      AnglesBound(outs, pre, nRats);
      RowBound(outs, ins[m], nRats);
      assert AnglesOf(outs, ins) == AnglesOf(outs, pre) + Row(outs, ins[m]);
      assert |ins| == |pre| + 1;
      MulSucc(|pre|, nRats);
    }
  }

  /** An angle is enumerated exactly when an out-leg of e1 and an in-leg of e3
   *  meet at its middle entity and carry its two types. */
  lemma {:induction false} AnglesMembers(outs: seq<OutLeg>, ins: seq<InLeg>, a: Angle)
    ensures a in AnglesOf(outs, ins) <==>
      exists j, k :: 0 <= j < |ins| && 0 <= k < |outs| && outs[k].eOther == ins[j].eOther
        && a == Angle(outs[k].ratOut, outs[k].eOther, ins[j].ratIn)
  {
    if ins != [] {
      var m := |ins| - 1;
      var pre := ins[..m];
      AnglesMembers(outs, pre, a);
      RowMembers(outs, ins[m], a);
      assert AnglesOf(outs, ins) == AnglesOf(outs, pre) + Row(outs, ins[m]);
      assert a in AnglesOf(outs, ins) <==> a in AnglesOf(outs, pre) || a in Row(outs, ins[m]);
      if a in AnglesOf(outs, pre) {
        var j, k :| 0 <= j < |pre| && 0 <= k < |outs| && outs[k].eOther == pre[j].eOther
          && a == Angle(outs[k].ratOut, outs[k].eOther, pre[j].ratIn);
        assert ins[j] == pre[j];
      }
      if exists j, k :: 0 <= j < |ins| && 0 <= k < |outs| && outs[k].eOther == ins[j].eOther
          && a == Angle(outs[k].ratOut, outs[k].eOther, ins[j].ratIn) {
        var j, k :| 0 <= j < |ins| && 0 <= k < |outs| && outs[k].eOther == ins[j].eOther
          && a == Angle(outs[k].ratOut, outs[k].eOther, ins[j].ratIn);
        if j < m {
          assert pre[j] == ins[j];
        }
      }
    }
  }

  lemma SortedConcat(a: seq<Angle>, b: seq<Angle>)
    requires AnglesSorted(a) && AnglesSorted(b)
    requires forall x, y :: x in a && y in b ==> AngleLess(x, y)
    ensures AnglesSorted(a + b)
  {
    var c := a + b;
    forall i, j | 0 <= i < j < |c|
      ensures AngleLess(c[i], c[j])
    {
      if j < |a| {
        assert c[i] == a[i] && c[j] == a[j];
      } else if i >= |a| {
        assert c[i] == b[i - |a|] && c[j] == b[j - |a|];
      } else {
        assert c[i] == a[i] && c[j] == b[j - |a|];
      }
    }
  }

  /** For sorted leg sets the angles come out strictly ordered by
   *  (e2, rat23, rat12): grouped by middle entity in increasing order, and no
   *  angle twice. */
  lemma {:induction false} AnglesOfSorted(outs: seq<OutLeg>, ins: seq<InLeg>)
    requires OutLegsSorted(outs) && InLegsSorted(ins)
    ensures AnglesSorted(AnglesOf(outs, ins))
    ensures forall i, j :: 0 <= i < j < |AnglesOf(outs, ins)| ==>
      AnglesOf(outs, ins)[i].e2 <= AnglesOf(outs, ins)[j].e2
        && AnglesOf(outs, ins)[i] != AnglesOf(outs, ins)[j]
  {
    if ins != [] {
      var m := |ins| - 1;
      var pre := ins[..m];
      assert InLegsSorted(pre);
      AnglesOfSorted(outs, pre);
      RowIncreasing(outs, ins[m]);
      var row := Row(outs, ins[m]);
      forall x, y | x in AnglesOf(outs, pre) && y in row
        ensures AngleLess(x, y)
      {
        AnglesMembers(outs, pre, x);
        var j, k :| 0 <= j < |pre| && 0 <= k < |outs| && outs[k].eOther == pre[j].eOther
          && x == Angle(outs[k].ratOut, outs[k].eOther, pre[j].ratIn);
        assert InLegLess(ins[j], ins[m]);
      }
      SortedConcat(AnglesOf(outs, pre), row);
    }
  }

  // ---------------------------------------------------------------------
  // leg_intersection


  function MaxNat(a: nat, b: nat): nat {
    if a < b then b else a
  }

  /** What the merge has emitted once it has finished the in-legs before `i`
   *  and is at out-leg `o` for in-leg `i`. */
  function Emitted(outs: seq<OutLeg>, ins: seq<InLeg>, i: nat, o: nat): seq<Angle>
    requires i <= |ins| && o <= |outs|
  {
    AnglesOf(outs, ins[..i]) + (if i < |ins| then Row(outs[..o], ins[i]) else [])
  }

  /** The cursor state of the merge at in-leg `i` and out-leg `o`. With no
   *  block open (`bs == |outs|`) every out-leg passed lies below in-leg `i`;
   *  with a block open at `bs`, in-leg `i` and the block belong to middle
   *  entity `last`, the out-legs before the block lie below it, and those from
   *  the block start up to `o` belong to it. */
  predicate MergeState(outs: seq<OutLeg>, ins: seq<InLeg>, i: nat, o: nat, bs: nat, last: Entity) {
    i < |ins| && o <= |outs| && bs <= |outs|
    && (bs == |outs| ==> forall q :: 0 <= q < o ==> outs[q].eOther < ins[i].eOther)
    && (bs != |outs| ==>
          bs <= o && ins[i].eOther == last && outs[bs].eOther == last
          && (forall q :: 0 <= q < bs ==> outs[q].eOther < last)
          && (forall q :: bs <= q < o ==> outs[q].eOther == last))
  }

  /** When every out-leg lies below in-leg `i` (and so below all later
   *  in-legs), the angles emitted so far are all of them. */
  lemma NothingLeft(outs: seq<OutLeg>, ins: seq<InLeg>, i: nat, o: nat)
    requires InLegsSorted(ins) && i < |ins| && o <= |outs|
    requires forall q :: 0 <= q < |outs| ==> outs[q].eOther < ins[i].eOther
    ensures Emitted(outs, ins, i, o) == AnglesOf(outs, ins)
  {
    forall j | i <= j < |ins|
      ensures Row(outs, ins[j]) == []
    {
      if j > i {
        assert InLegLess(ins[i], ins[j]);
      }
      RowNone(outs, ins[j]);
    }
    RowNone(outs[..o], ins[i]);
    AnglesTailNone(outs, ins, i, |ins|);
    assert ins[..|ins|] == ins;
  }

  /** Leaving in-leg `i` once every out-leg that meets it has been passed. */
  lemma NextIn(outs: seq<OutLeg>, ins: seq<InLeg>, i: nat, o: nat, o': nat)
    requires OutLegsSorted(outs) && i < |ins| && o <= |outs| && o' <= |outs|
    requires forall q :: o <= q < |outs| ==> outs[q].eOther != ins[i].eOther
    requires i + 1 < |ins| ==> forall q :: 0 <= q < o' ==> outs[q].eOther != ins[i + 1].eOther
    ensures Emitted(outs, ins, i + 1, o') == Emitted(outs, ins, i, o)
  {
    RowPrefixAll(outs, o, ins[i]);
    AnglesStep(outs, ins, i);
    if i + 1 < |ins| {
      RowNone(outs[..o'], ins[i + 1]);
    } else {
      assert ins[..i + 1] == ins;
    }
  }

  /** The out-leg cursor is at the end and a block is open. */
  lemma StepAtEnd(outs: seq<OutLeg>, ins: seq<InLeg>, i: nat, bs: nat, last: Entity)
    requires OutLegsSorted(outs) && InLegsSorted(ins)
    requires MergeState(outs, ins, i, |outs|, bs, last) && bs != |outs|
    ensures i + 1 == |ins| ==> Emitted(outs, ins, i, |outs|) == AnglesOf(outs, ins)
    ensures i + 1 < |ins| && ins[i + 1].eOther == last ==>
      MergeState(outs, ins, i + 1, bs, bs, last)
      && Emitted(outs, ins, i + 1, bs) == Emitted(outs, ins, i, |outs|)
    ensures i + 1 < |ins| && ins[i + 1].eOther != last ==>
      Emitted(outs, ins, i, |outs|) == AnglesOf(outs, ins)
  {
    if i + 1 == |ins| {
      NextIn(outs, ins, i, |outs|, 0);
      assert ins[..i + 1] == ins;
    } else if ins[i + 1].eOther == last {
      NextIn(outs, ins, i, |outs|, bs);
    } else {
      assert InLegLess(ins[i], ins[i + 1]);
      NextIn(outs, ins, i, |outs|, 0);
      NothingLeft(outs, ins, i + 1, 0);
    }
  }

  /** The out-leg lies below the in-leg: advance the out-leg cursor. */
  lemma StepOutBelow(outs: seq<OutLeg>, ins: seq<InLeg>, i: nat, o: nat, bs: nat, last: Entity)
    requires OutLegsSorted(outs)
    requires MergeState(outs, ins, i, o, bs, last) && o < |outs|
    requires outs[o].eOther < ins[i].eOther
    ensures MergeState(outs, ins, i, o + 1, bs, last)
    ensures Emitted(outs, ins, i, o + 1) == Emitted(outs, ins, i, o)
  {
    RowStep(outs, o, ins[i]);
  }

  /** The in-leg lies below the out-leg: advance the in-leg cursor, and rewind
   *  to the open block or close it. */
  lemma StepInBelow(outs: seq<OutLeg>, ins: seq<InLeg>, i: nat, o: nat, bs: nat, last: Entity)
    requires OutLegsSorted(outs) && InLegsSorted(ins)
    requires MergeState(outs, ins, i, o, bs, last) && o < |outs|
    requires ins[i].eOther < outs[o].eOther
    ensures i + 1 == |ins| ==> Emitted(outs, ins, i, o) == AnglesOf(outs, ins)
    ensures i + 1 < |ins| && bs != |outs| && ins[i + 1].eOther == last ==>
      MergeState(outs, ins, i + 1, bs, bs, last)
      && Emitted(outs, ins, i + 1, bs) == Emitted(outs, ins, i, o)
    ensures i + 1 < |ins| && !(bs != |outs| && ins[i + 1].eOther == last) ==>
      MergeState(outs, ins, i + 1, o, |outs|, last)
      && Emitted(outs, ins, i + 1, o) == Emitted(outs, ins, i, o)
  {
    forall q | o <= q < |outs|
      ensures outs[q].eOther != ins[i].eOther
    {
      if q > o {
        assert OutLegLess(outs[o], outs[q]);
      }
    }
    if i + 1 == |ins| {
      NextIn(outs, ins, i, o, 0);
      assert ins[..i + 1] == ins;
    } else {
      assert InLegLess(ins[i], ins[i + 1]);
      if bs != |outs| && ins[i + 1].eOther == last {
        NextIn(outs, ins, i, o, bs);
      } else {
        NextIn(outs, ins, i, o, o);
      }
    }
  }

  /** The legs meet: open a block if none is open, emit the angle and advance
   *  the out-leg cursor. */
  lemma StepMatch(outs: seq<OutLeg>, ins: seq<InLeg>, i: nat, o: nat, bs: nat, last: Entity)
    requires MergeState(outs, ins, i, o, bs, last) && o < |outs|
    requires outs[o].eOther == ins[i].eOther
    ensures MergeState(outs, ins, i, o + 1, if bs == |outs| then o else bs, outs[o].eOther)
    ensures Emitted(outs, ins, i, o + 1)
      == Emitted(outs, ins, i, o) + [Angle(outs[o].ratOut, outs[o].eOther, ins[i].ratIn)]
    ensures |Emitted(outs, ins, i, o)| < |AnglesOf(outs, ins)|
  {
    RowStep(outs, o, ins[i]);
    RowPrefixLen(outs, o + 1, ins[i]);
    AnglesStep(outs, ins, i);
    AnglesPrefixLen(outs, ins, i + 1, |ins|);
    assert ins[..|ins|] == ins;
  }

  lemma MulSucc(n: nat, c: nat)
    ensures (n + 1) * c == n * c + c
  {
  }

  lemma BoundBelowSize(n: nat, m: nat, nRats: nat)
    requires n <= m && nRats >= 1
    ensures n * nRats <= m * nRats * nRats
  {
    assert n * nRats <= m * nRats;
    assert m * nRats <= m * nRats * nRats by {
      assert m * nRats * nRats == (m * nRats) * nRats;
    }
  }

  /** The size `leg_intersection` pre-allocates holds every angle. */
  lemma AnglesFit(outs: seq<OutLeg>, ins: seq<InLeg>, nRats: nat)
    requires OutLegsSorted(outs) && OutRatsIn(outs, nRats) && |outs| > 0
    ensures |AnglesOf(outs, ins)| <= MaxNat(|outs|, |ins|) * nRats * nRats
  {
    AnglesBound(outs, ins, nRats);
    assert 1 <= outs[0].ratOut <= nRats;
    BoundBelowSize(|ins|, MaxNat(|outs|, |ins|), nRats);
  }

  /** Writing slot `k` of the output vector extends its written prefix by
   *  one angle. */
  method Put(a: array<Angle>, k: nat, x: Angle)
    requires k < a.Length
    modifies a
    ensures a[..k + 1] == old(a[..k]) + [x]
  {
    a[k] := x;
    assert a[..k + 1] == a[..k] + [a[k]];
  }

  /** Comparing the current legs: advance past the lower one, or emit the
   *  angle where they meet. */
  method MergeCompare(outs: seq<OutLeg>, ins: seq<InLeg>, result: array<Angle>,
                      i: nat, o: nat, k: nat, bs: nat, last: Entity)
    returns (i': nat, o': nat, k': nat, bs': nat, last': Entity, done: bool)
    requires OutLegsSorted(outs) && InLegsSorted(ins)
    requires MergeState(outs, ins, i, o, bs, last) && o < |outs|
    requires |AnglesOf(outs, ins)| <= result.Length
    requires k <= result.Length && result[..k] == Emitted(outs, ins, i, o)
    modifies result
    ensures k' <= result.Length
    ensures done ==> result[..k'] == AnglesOf(outs, ins)
    ensures !done ==> MergeState(outs, ins, i', o', bs', last') && result[..k'] == Emitted(outs, ins, i', o')
    ensures !done ==> i < i' || (i == i' && o < o')
  {
    i', o', k', bs', last', done := i, o, k, bs, last, false;
    if outs[o].eOther < ins[i].eOther {
      StepOutBelow(outs, ins, i, o, bs, last);
      o' := o + 1;
    } else if ins[i].eOther < outs[o].eOther {
      StepInBelow(outs, ins, i, o, bs, last);
      i' := i + 1;
      if i' == |ins| {
        done := true;
      } else if bs != |outs| {
        if ins[i'].eOther == last {
          o' := bs;
        } else {
          bs' := |outs|;
        }
      }
    } else {
      StepMatch(outs, ins, i, o, bs, last);
      if bs == |outs| {
        bs' := o;
      }
      last' := outs[o].eOther;
      Put(result, k, Angle(outs[o].ratOut, last', ins[i].ratIn));
      k' := k + 1;
      o' := o + 1;
    }
  }

  /** One round of the merge loop of `leg_intersection`: at the end of the
   *  out-legs, rewind to the open block for the next in-leg of the same
   *  middle entity or finish; then compare the current legs. Either the merge
   *  is done and the written prefix holds every angle, or the cursors moved
   *  forward and the written prefix is what they have passed. */
  method MergeStep(outs: seq<OutLeg>, ins: seq<InLeg>, result: array<Angle>,
                   i: nat, o: nat, k: nat, bs: nat, last: Entity)
    returns (i': nat, o': nat, k': nat, bs': nat, last': Entity, done: bool)
    requires OutLegsSorted(outs) && InLegsSorted(ins)
    requires MergeState(outs, ins, i, o, bs, last)
    requires |AnglesOf(outs, ins)| <= result.Length
    requires k <= result.Length && result[..k] == Emitted(outs, ins, i, o)
    modifies result
    ensures k' <= result.Length
    ensures done ==> result[..k'] == AnglesOf(outs, ins)
    ensures !done ==> MergeState(outs, ins, i', o', bs', last') && result[..k'] == Emitted(outs, ins, i', o')
    ensures !done ==> i < i' || (i == i' && o < o')
  {
    if o < |outs| {
      i', o', k', bs', last', done := MergeCompare(outs, ins, result, i, o, k, bs, last);
    } else if bs == |outs| {
      NothingLeft(outs, ins, i, o);
      i', o', k', bs', last', done := i, o, k, bs, last, true;
    } else {
      StepAtEnd(outs, ins, i, bs, last);
      if i + 1 == |ins| || ins[i + 1].eOther != last {
        i', o', k', bs', last', done := i, o, k, bs, last, true;
      } else {
        i', o', k', bs', last', done := MergeCompare(outs, ins, result, i + 1, bs, k, bs, last);
      }
    }
  }

  /** The block-rewinding merge join of `leg_intersection`. It walks the
   *  in-legs of e3 once; for a run of in-legs of the same middle entity it
   *  rewinds the out-leg cursor to the start of that entity's block of
   *  out-legs (`bs`, where `|outs|` plays the role of `out1.end()`). It writes
   *  into a vector pre-sized to max(|outs|, |ins|) * nRats^2 and returns the
   *  written prefix. */
  method LegIntersection(outs: seq<OutLeg>, ins: seq<InLeg>, nRats: nat) returns (r: seq<Angle>)
    requires OutLegsSorted(outs) && InLegsSorted(ins)
    requires |outs| > 0
    requires OutRatsIn(outs, nRats)
    ensures r == AnglesOf(outs, ins)
    ensures |r| <= MaxNat(|outs|, |ins|) * nRats * nRats
  {
    var size := MaxNat(|outs|, |ins|) * nRats * nRats;
    AnglesFit(outs, ins, nRats);
    var result := new Angle[size](_ => Angle(NO_RAT, 0, NO_RAT));
    var o: nat, i: nat, k: nat, bs: nat := 0, 0, 0, |outs|;
    var last := outs[0].eOther;
    var done := i == |ins|;
    assert done ==> result[..k] == AnglesOf(outs, ins);
    while !done
      invariant k <= size && result.Length == size
      invariant done ==> result[..k] == AnglesOf(outs, ins)
      invariant !done ==> MergeState(outs, ins, i, o, bs, last) && result[..k] == Emitted(outs, ins, i, o)
      decreases if done then 0 else 1, |ins| - i, |outs| - o
    {
      i, o, k, bs, last, done := MergeStep(outs, ins, result, i, o, k, bs, last);
    }
    r := result[..k];
  }
}
