/** The consistency checks of src/debugging.cpp: `compute_n_angles` counts
 *  the angles between the ends of an event that can influence it,
 *  `verify_angle_consistency` compares those counts with the stored ones,
 *  and `verify_data_consistency` checks the mirrored leg sets and the
 *  event bookkeeping. The two `verify_*` checks are read-only, so the data
 *  check is a predicate and the lemmas below say how it relates to the
 *  invariant the rest of the model keeps. */
module Debugging {
  import opened Wrappers
  import opened ExtReal
  import opened DataModel
  import opened State
  import opened Events
  import opened Angles
  import opened EventAdd

  // ---------------------------------------------------------------------
  // compute_n_angles

  /** `leg_intersection` can run on the out-legs of `e1`: the set is not
   *  empty (its first element is read) and every leg type lies in 1..n_rats
   *  (the result vector is sized by n_rats). */
  predicate LegsUsable(g: Globals, tb: Tables, e1: Entity) {
    var outs := OutsOf(g.e2outs, e1);
    outs != [] && OutRatsIn(outs, tb.nRats)
  }

  /** The number `compute_n_angles` is meant to return: the angles between
   *  `e1` and `e3` that influence `evt`, or all of them under
   *  COUNT_ALL_ANGLES. */
  function NAngles(g: Globals, tb: Tables, evt: EventType, e1: Entity, e3: Entity): nat {
    CountAngles(tb, g.e2et, evt, AnglesOf(OutsOf(g.e2outs, e1), InsOf(g.e2ins, e3)), tb.countAllAngles)
  }

  /** `compute_n_angles(evt, e1, e3)`; `ok` is false where `leg_intersection`
   *  would read past an empty leg set or size its result wrongly. */
  method ComputeNAngles(w: World, evt: EventType, e1: Entity, e3: Entity) returns (na: int, ok: bool)
    requires w.Valid()
    ensures ok <==> LegsUsable(w.g, w.tb, e1)
    ensures ok ==> 0 <= na <= |AnglesOf(OutsOf(w.g.e2outs, e1), InsOf(w.g.e2ins, e3))|
    ensures ok ==> na == NAngles(w.g, w.tb, evt, e1, e3)
  {
    var outs1, ins3 := OutsOf(w.g.e2outs, e1), InsOf(w.g.e2ins, e3);
    if outs1 == [] || !OutRatsIn(outs1, w.tb.nRats) {
      return 0, false;
    }
    var angles := LegIntersection(outs1, ins3, w.tb.nRats);
    na := 0;
    for k := 0 to |angles|
      invariant na == CountAngles(w.tb, w.g.e2et, evt, angles[..k], w.tb.countAllAngles)
    {
      assert angles[..k + 1][..k] == angles[..k];
      var i := InfluenceType(evt, AngleType(angles[k].rat12, EtOf(w.g.e2et, angles[k].e2), angles[k].rat23));
      var dar, dsl := AttemptRateOf(w.tb, i), DeltaProbunitOf(w.tb, i);
      if w.tb.countAllAngles || dar != Zero || dsl != Zero {
        na := na + 1;
      }
    }
    assert angles[..|angles|] == angles;
    CountAnglesPositive(w.tb, w.g.e2et, evt, angles, w.tb.countAllAngles);
    ok := true;
  }

  /** Under COUNT_ALL_ANGLES every angle is counted. */
  lemma {:induction false} CountingAllCountsEvery(tb: Tables, e2et: map<Entity, EntityType>, evt: EventType,
                                                  angles: seq<Angle>)
    ensures CountAngles(tb, e2et, evt, angles, true) == |angles|
    decreases |angles|
  {
    if angles != [] {
      CountingAllCountsEvery(tb, e2et, evt, angles[..|angles| - 1]);
    }
  }

  // ---------------------------------------------------------------------
  // verify_angle_consistency

  /** The check `verify_angle_consistency` makes for one stored event. */
  predicate AngleCountAgrees(g: Globals, tb: Tables, ev: Event)
    requires ev in g.ev2data
  {
    LegsUsable(g, tb, ev.e1) && g.ev2data[ev].nAngles == NAngles(g, tb, TypeOf(g, ev), ev.e1, ev.e3)
  }

  predicate AngleCountsAgree(g: Globals, tb: Tables) {
    forall ev :: ev in g.ev2data ==> AngleCountAgrees(g, tb, ev)
  }

  /** `verify_angle_consistency`: `ok` is false where the source's assertion
   *  fails (or `compute_n_angles` cannot run) for some stored event. */
  method VerifyAngleConsistency(w: World) returns (ok: bool)
    requires w.Valid()
    ensures ok <==> AngleCountsAgree(w.g, w.tb)
  {
    var rest := w.g.ev2data.Keys;
    while rest != {}
      invariant rest <= w.g.ev2data.Keys
      invariant forall ev :: ev in w.g.ev2data && ev !in rest ==> AngleCountAgrees(w.g, w.tb, ev)
      decreases rest
    {
      var ev :| ev in rest;
      var n, usable := ComputeNAngles(w, TypeOf(w.g, ev), ev.e1, ev.e3);
      if !usable || n != w.g.ev2data[ev].nAngles {
        return false;
      }
      rest := rest - {ev};
    }
    return true;
  }

  /** An event that `add_event` stores on its own passes the angle check
   *  when only influencing angles are counted: `add_event` counts the
   *  angles the same way. */
  lemma AddedEventPassesAngleCheck(g: Globals, tb: Tables, rng: Rng, ev: Event)
    requires GlobalsOk(g, tb, rng, None) && !tb.countAllAngles
    ensures var r := EventAdded(g, tb, rng, ev);
      r.Some? && StoresIndividually(g, tb, ev) ==> ev in r.value.ev2data && AngleCountAgrees(r.value, tb, ev)
  {
    EventAddedStores(g, tb, rng, ev);
  }

  // ---------------------------------------------------------------------
  // verify_data_consistency

  /** Every out-leg (r, e3) of e1 has its in-leg (e1, r) in the in-set of e3
   *  (`e2ins.at(e3)` also demands that the in-set exists). */
  predicate OutLegsMatched(g: Globals) {
    forall e1, k :: e1 in g.e2outs && 0 <= k < |g.e2outs[e1]| ==>
      g.e2outs[e1][k].eOther in g.e2ins && InLeg(e1, g.e2outs[e1][k].ratOut) in g.e2ins[g.e2outs[e1][k].eOther]
  }

  /** Every in-leg (e1, r) of e3 has its out-leg (r, e3) in the out-set of e1. */
  predicate InLegsMatched(g: Globals) {
    forall e3, k :: e3 in g.e2ins && 0 <= k < |g.e2ins[e3]| ==>
      g.e2ins[e3][k].eOther in g.e2outs && OutLeg(g.e2ins[e3][k].ratIn, e3) in g.e2outs[g.e2ins[e3][k].eOther]
  }

  /** The checks on one stored event. The source asks for exactly one key
   *  of `t2be` equal to a finite t and for at least one equal to an
   *  infinite t; a `std::map` holds a key at most once, so both say that t
   *  is a key. */
  predicate StoredEventChecked(g: Globals, ev: Event)
    requires ev in g.ev2data
  {
    var d := g.ev2data[ev];
    d.nAngles >= 0 && Zero.Le(d.attemptRate) && NegInf.Lt(d.successProbunits)
    && NegInf.Lt(d.t) && d.t in g.t2be
  }

  /** `verify_data_consistency`: true exactly when none of its assertions
   *  fails. */
  predicate VerifyDataConsistency(g: Globals) {
    && OutLegsMatched(g) && InLegsMatched(g)
    && (forall ev :: ev in g.ev2data ==> StoredEventChecked(g, ev))
    && (forall t :: t in g.t2be ==> NegInf.Lt(t) && g.t2be[t] in g.ev2data)
  }

  /** The model's invariant passes the data check as long as no drawn time
   *  has collided with a scheduled one. */
  lemma InvariantPassesDataCheck(g: Globals, tb: Tables, rng: Rng)
    requires GlobalsOk(g, tb, rng, None) && !g.collided
    ensures VerifyDataConsistency(g)
  {
    forall e1, k | e1 in g.e2outs && 0 <= k < |g.e2outs[e1]|
      ensures g.e2outs[e1][k].eOther in g.e2ins && InLeg(e1, g.e2outs[e1][k].ratOut) in g.e2ins[g.e2outs[e1][k].eOther]
    {
      var o := g.e2outs[e1][k];
      assert MirroredAt(g.e2outs, g.e2ins, e1, o.ratOut, o.eOther);
    }
    forall e3, k | e3 in g.e2ins && 0 <= k < |g.e2ins[e3]|
      ensures g.e2ins[e3][k].eOther in g.e2outs && OutLeg(g.e2ins[e3][k].ratIn, e3) in g.e2outs[g.e2ins[e3][k].eOther]
    {
      var i := g.e2ins[e3][k];
      assert MirroredAt(g.e2outs, g.e2ins, i.eOther, i.ratIn, e3);
    }
    forall ev | ev in g.ev2data
      ensures StoredEventChecked(g, ev)
    {
      assert DataBounds(g.ev2data[ev]);
    }
  }

  /** The leg half of the data check is exactly the mirror condition of
   *  the invariant. */
  lemma DataCheckMeansMirrored(g: Globals)
    ensures OutLegsMatched(g) && InLegsMatched(g) ==> Mirrored(g.e2outs, g.e2ins)
    ensures Mirrored(g.e2outs, g.e2ins) ==> OutLegsMatched(g) && InLegsMatched(g)
  {
    if OutLegsMatched(g) && InLegsMatched(g) {
      forall e1: Entity, r: Rat, e3: Entity
        ensures MirroredAt(g.e2outs, g.e2ins, e1, r, e3)
      {
        if OutLeg(r, e3) in OutsOf(g.e2outs, e1) {
          var k :| 0 <= k < |g.e2outs[e1]| && g.e2outs[e1][k] == OutLeg(r, e3);
        }
        if InLeg(e1, r) in InsOf(g.e2ins, e3) {
          var k :| 0 <= k < |g.e2ins[e3]| && g.e2ins[e3][k] == InLeg(e1, r);
        }
      }
    }
    if Mirrored(g.e2outs, g.e2ins) {
      forall e1, k | e1 in g.e2outs && 0 <= k < |g.e2outs[e1]|
        ensures g.e2outs[e1][k].eOther in g.e2ins && InLeg(e1, g.e2outs[e1][k].ratOut) in g.e2ins[g.e2outs[e1][k].eOther]
      {
        var o := g.e2outs[e1][k];
        assert MirroredAt(g.e2outs, g.e2ins, e1, o.ratOut, o.eOther);
      }
      forall e3, k | e3 in g.e2ins && 0 <= k < |g.e2ins[e3]|
        ensures g.e2ins[e3][k].eOther in g.e2outs && OutLeg(g.e2ins[e3][k].ratIn, e3) in g.e2outs[g.e2ins[e3][k].eOther]
      {
        var i := g.e2ins[e3][k];
        assert MirroredAt(g.e2outs, g.e2ins, i.eOther, i.ratIn, e3);
      }
    }
  }

  /** The data check does not look at which event a key names: two
   *  scheduled events whose keys have been swapped pass it, although the
   *  invariant (`t2be` inverse to the stored times) fails. */
  lemma DataCheckMissesSwappedKeys()
    ensures var a, b := Event(EC_TERM, 0, 2, 1), Event(EC_TERM, 1, 2, 0);
      var d := map[a := EventData(0, Zero, Zero, Fin(1.0)), b := EventData(0, Zero, Zero, Fin(2.0))];
      var g := Initial.(ev2data := d, t2be := map[Fin(1.0) := b, Fin(2.0) := a]);
      VerifyDataConsistency(g) && !KeysNameEvents(g.ev2data, g.t2be)
  {
    var a, b := Event(EC_TERM, 0, 2, 1), Event(EC_TERM, 1, 2, 0);
    var d := map[a := EventData(0, Zero, Zero, Fin(1.0)), b := EventData(0, Zero, Zero, Fin(2.0))];
    var g := Initial.(ev2data := d, t2be := map[Fin(1.0) := b, Fin(2.0) := a]);
    assert g.t2be[Fin(1.0)] == b && d[b].t != Fin(1.0);
  }
}
