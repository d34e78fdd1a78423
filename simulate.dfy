/** The simulation loop: `pop_next_event` of src/event.cpp, which finds the
 *  next event to perform (drawing the entities of summary events and
 *  testing their success), `step` of src/simulate.cpp and the main loop of
 *  src/tricl.cpp, and `do_random_link` of src/link.cpp. */
module Simulate {
  import opened Wrappers
  import opened ExtReal
  import opened DataModel
  import opened State
  import opened Events
  import opened Links
  import opened Entities
  import opened EventAdd
  import opened EventPerform

  // ---------------------------------------------------------------------
  // The success probunits of a drawn summary event

  /** `if (inflt2delta_probunit.count(i) > 0) spu += inflt2delta_probunit.at(i)`. */
  function WithSparseDelta(tb: Tables, spu: Ext, i: InfluenceType): Ext {
    if i in tb.deltaProbunit then spu.Plus(tb.deltaProbunit[i]) else spu
  }

  /** The probunits after the loop over the out-legs of e1. */
  function OutLegProbunits(tb: Tables, e2et: map<Entity, EntityType>, evt: EventType, spu: Ext, outs: seq<OutLeg>): Ext
    decreases |outs|
  {
    if outs == [] then spu
    else
      var m := |outs| - 1;
      WithSparseDelta(tb, OutLegProbunits(tb, e2et, evt, spu, outs[..m]), InfluenceType(evt, OutLegAngle(e2et, outs[m])))
  }

  /** The probunits after the loop over the in-legs of e3. */
  function InLegProbunits(tb: Tables, e2et: map<Entity, EntityType>, evt: EventType, spu: Ext, ins: seq<InLeg>): Ext
    decreases |ins|
  {
    if ins == [] then spu
    else
      var m := |ins| - 1;
      WithSparseDelta(tb, InLegProbunits(tb, e2et, evt, spu, ins[..m]), InfluenceType(evt, InLegAngle(e2et, ins[m])))
  }

  /** The success probunits of the drawn establishment of `evt` between e1
   *  and e3: the base probunits of the type plus the sparse changes of
   *  the legs at both ends. */
  function SummaryProbunits(g: Globals, tb: Tables, evt: EventType, e1: Entity, e3: Entity): Ext
    requires evt in tb.evt2baseProbunit
  {
    var spu1 := OutLegProbunits(tb, g.e2et, evt, tb.evt2baseProbunit[evt], OutsOf(g.e2outs, e1));
    InLegProbunits(tb, g.e2et, evt, spu1, InsOf(g.e2ins, e3))
  }

  lemma {:induction false} OutLegProbunitsBounded(tb: Tables, e2et: map<Entity, EntityType>, evt: EventType, spu: Ext,
                                                  outs: seq<OutLeg>)
    requires TablesOk(tb) && spu != NegInf
    ensures OutLegProbunits(tb, e2et, evt, spu, outs) != NegInf
    ensures spu.Fin? ==> OutLegProbunits(tb, e2et, evt, spu, outs).Fin?
    decreases |outs|
  {
    if outs != [] {
      OutLegProbunitsBounded(tb, e2et, evt, spu, outs[..|outs| - 1]);
    }
  }

  lemma {:induction false} InLegProbunitsBounded(tb: Tables, e2et: map<Entity, EntityType>, evt: EventType, spu: Ext,
                                                 ins: seq<InLeg>)
    requires TablesOk(tb) && spu != NegInf
    ensures InLegProbunits(tb, e2et, evt, spu, ins) != NegInf
    ensures spu.Fin? ==> InLegProbunits(tb, e2et, evt, spu, ins).Fin?
    decreases |ins|
  {
    if ins != [] {
      InLegProbunitsBounded(tb, e2et, evt, spu, ins[..|ins| - 1]);
    }
  }

  /** The probunits of a drawn summary event lie above minus infinity, and
   *  are finite when the base probunits are: the sparse changes are finite. */
  lemma SummaryProbunitsBounded(g: Globals, tb: Tables, evt: EventType, e1: Entity, e3: Entity)
    requires TablesOk(tb) && evt in tb.evt2baseProbunit
    ensures SummaryProbunits(g, tb, evt, e1, e3) != NegInf
    ensures tb.evt2baseProbunit[evt].Fin? ==> SummaryProbunits(g, tb, evt, e1, e3).Fin?
  {
    var spu1 := OutLegProbunits(tb, g.e2et, evt, tb.evt2baseProbunit[evt], OutsOf(g.e2outs, e1));
    OutLegProbunitsBounded(tb, g.e2et, evt, tb.evt2baseProbunit[evt], OutsOf(g.e2outs, e1));
    InLegProbunitsBounded(tb, g.e2et, evt, spu1, InsOf(g.e2ins, e3));
  }

  /** An entity without legs adds nothing: the probunits of a drawn event
   *  between two isolated entities are the base probunits of its type. */
  lemma IsolatedEntitiesKeepBase(g: Globals, tb: Tables, evt: EventType, e1: Entity, e3: Entity)
    requires evt in tb.evt2baseProbunit
    requires OutsOf(g.e2outs, e1) == [] && InsOf(g.e2ins, e3) == []
    ensures SummaryProbunits(g, tb, evt, e1, e3) == tb.evt2baseProbunit[evt]
  {
  }

  /** Legs whose influence has no sparse entry add nothing. */
  lemma {:induction false} OutLegProbunitsInert(tb: Tables, e2et: map<Entity, EntityType>, evt: EventType, spu: Ext,
                                                outs: seq<OutLeg>)
    requires forall k :: 0 <= k < |outs| ==> InfluenceType(evt, OutLegAngle(e2et, outs[k])) !in tb.deltaProbunit
    ensures OutLegProbunits(tb, e2et, evt, spu, outs) == spu
    decreases |outs|
  {
    if outs != [] {
      var m := |outs| - 1;
      assert forall k :: 0 <= k < m ==> outs[..m][k] == outs[k];
      OutLegProbunitsInert(tb, e2et, evt, spu, outs[..m]);
    }
  }

  method SumOutLegProbunits(tb: Tables, e2et: map<Entity, EntityType>, evt: EventType, spu0: Ext, outs: seq<OutLeg>)
    returns (spu: Ext)
    ensures spu == OutLegProbunits(tb, e2et, evt, spu0, outs)
  {
    spu := spu0;
    for k := 0 to |outs|
      invariant spu == OutLegProbunits(tb, e2et, evt, spu0, outs[..k])
    {
      assert outs[..k + 1][..k] == outs[..k];
      var i := InfluenceType(evt, AngleType(outs[k].ratOut, EtOf(e2et, outs[k].eOther), NO_RAT));
      if i in tb.deltaProbunit {
        spu := spu.Plus(tb.deltaProbunit[i]);
      }
    }
    assert outs[..|outs|] == outs;
  }

  method SumInLegProbunits(tb: Tables, e2et: map<Entity, EntityType>, evt: EventType, spu0: Ext, ins: seq<InLeg>)
    returns (spu: Ext)
    ensures spu == InLegProbunits(tb, e2et, evt, spu0, ins)
  {
    spu := spu0;
    for k := 0 to |ins|
      invariant spu == InLegProbunits(tb, e2et, evt, spu0, ins[..k])
    {
      assert ins[..k + 1][..k] == ins[..k];
      var i := InfluenceType(evt, AngleType(NO_RAT, EtOf(e2et, ins[k].eOther), ins[k].ratIn));
      if i in tb.deltaProbunit {
        spu := spu.Plus(tb.deltaProbunit[i]);
      }
    }
    assert ins[..|ins|] == ins;
  }

  // ---------------------------------------------------------------------
  // One attempt of a summary event

  /** The attempt of a summary event of relationship type `rat13` once its
   *  entities e1 (of type et1) and e3 (of type et3) are drawn, with the
   *  flag telling whether the establishment was found; None where `.at`
   *  throws because the event type has no base probunits. Nothing happens
   *  when the link exists, the two entities are equal, or the event is
   *  stored on its own (an angle made it individual); otherwise one
   *  uniform draw decides success against the probability of the summed
   *  probunits, and a success becomes the current event. Only the draw
   *  counter and the current event change. */
  function Attempt(g: Globals, tb: Tables, rng: Rng, rat13: Rat, et1: EntityType, e1: Entity,
                   et3: EntityType, e3: Entity): (r: Option<(Globals, bool)>)
    ensures r.Some? ==> r.value.0 == g.(nDraws := r.value.0.nDraws, currentEv := r.value.0.currentEv)
    ensures r.Some? && !r.value.1 ==> r.value.0.currentEv == g.currentEv
    ensures r.Some? && r.value.1 ==>
      var actual := Event(EC_EST, e1, rat13, e3);
      var evt := EventType(EC_EST, et1, rat13, et3);
      && r.value.0.currentEv == actual && actual !in g.ev2data && e1 != e3 && !LinkExists(g, Link(e1, rat13, e3))
      && evt in tb.evt2baseProbunit
      && rng.uniform(g.nDraws) < tb.probunitToProbability(SummaryProbunits(g, tb, evt, e1, e3))
    ensures r.None? <==>
      !LinkExists(g, Link(e1, rat13, e3)) && e1 != e3 && Event(EC_EST, e1, rat13, e3) !in g.ev2data &&
      EventType(EC_EST, et1, rat13, et3) !in tb.evt2baseProbunit
  {
    var actual := Event(EC_EST, e1, rat13, e3);
    if LinkExists(g, Link(e1, rat13, e3)) || e1 == e3 || actual in g.ev2data then Some((g, false))
    else
      var evt := EventType(EC_EST, et1, rat13, et3);
      if evt !in tb.evt2baseProbunit then None
      else
        var spu := SummaryProbunits(g, tb, evt, e1, e3);
        var g1 := g.(nDraws := g.nDraws + 1);
        if rng.uniform(g.nDraws) < tb.probunitToProbability(spu) then Some((g1.(currentEv := actual), true))
        else Some((g1, false))
  }

  /** An attempt keeps the invariant. */
  lemma AttemptOk(g: Globals, tb: Tables, rng: Rng, rat13: Rat, et1: EntityType, e1: Entity,
                  et3: EntityType, e3: Entity)
    requires GlobalsOk(g, tb, rng, None)
    ensures var r := Attempt(g, tb, rng, rat13, et1, e1, et3, e3);
      r.Some? ==> GlobalsOk(r.value.0, tb, rng, None)
  {
    var r := Attempt(g, tb, rng, rat13, et1, e1, et3, e3);
    if r.Some? {
      CountersFree(g, r.value.0, tb, rng, None);
    }
  }

  method TryLink(w: World, rat13: Rat, et1: EntityType, e1: Entity, et3: EntityType, e3: Entity)
    returns (found: bool, ok: bool)
    requires w.Valid()
    modifies w
    ensures ok == Attempt(old(w.g), w.tb, w.rng, rat13, et1, e1, et3, e3).Some?
    ensures ok ==> w.Valid() && (w.g, found) == Attempt(old(w.g), w.tb, w.rng, rat13, et1, e1, et3, e3).value
  {
    AttemptOk(w.g, w.tb, w.rng, rat13, et1, e1, et3, e3);
    var actual := Event(EC_EST, e1, rat13, e3);
    if LinkExists(w.g, Link(e1, rat13, e3)) || e1 == e3 || actual in w.g.ev2data {
      return false, true;
    }
    var evt := EventType(EC_EST, et1, rat13, et3);
    if evt !in w.tb.evt2baseProbunit {
      return false, false;
    }
    var spu := SumOutLegProbunits(w.tb, w.g.e2et, evt, w.tb.evt2baseProbunit[evt], OutsOf(w.g.e2outs, e1));
    spu := SumInLegProbunits(w.tb, w.g.e2et, evt, spu, InsOf(w.g.e2ins, e3));
    var u := w.rng.uniform(w.g.nDraws);
    w.g := w.g.(nDraws := w.g.nDraws + 1);
    found := u < w.tb.probunitToProbability(spu);
    if found {
      w.g := w.g.(currentEv := actual);
    }
    ok := true;
  }

  // ---------------------------------------------------------------------
  // pop_next_event

  /** What a pass needs of its state: a finite clock and time limit, and
   *  draws in range. */
  ghost predicate Ready(g: Globals, tb: Tables, rng: Rng) {
    g.currentT.Fin? && tb.maxT.Fin? && RngOk(rng)
  }

  lemma ReadyOk(g: Globals, tb: Tables, rng: Rng)
    requires GlobalsOk(g, tb, rng, None)
    ensures Ready(g, tb, rng)
  {
  }

  /** The earliest scheduled time (`t2be.begin()`). */
  ghost function Earliest(t2be: map<Ext, Event>): (t: Ext)
    requires t2be.Keys != {}
    ensures t in t2be
  {
    MinKey(t2be.Keys)
  }

  /** The attempt of a due summary event `sev` once the clock has advanced,
   *  with the flag telling whether it found an establishment; None where
   *  the source aborts: a summary event must be an establishment whose
   *  target is a type as well, `random_entity` needs entities of both
   *  types, the attempt may throw, `.at` throws if the summary event is not
   *  stored, and it can only be rescheduled with a positive attempt rate.
   *  The state is the one before the summary event is rescheduled, which
   *  happens either way; the clock and the event count stay. */
  ghost function SummaryAttempt(g: Globals, tb: Tables, rng: Rng, sev: Event): (r: Option<(Globals, bool)>)
    requires Ready(g, tb, rng) && sev.e1 < 0
    ensures r.Some? ==> r.value.0.currentT == g.currentT && r.value.0.nEvents == g.nEvents
    ensures r.Some? ==> sev in r.value.0.ev2data && Zero.Lt(r.value.0.ev2data[sev].attemptRate)
  {
    if sev.e3 >= 0 || sev.ec != EC_EST then None
    else
      var et1, et3 := (-sev.e1) as nat, (-sev.e3) as nat;
      if !(et1 in g.et2es && |g.et2es[et1]| > 0 && et3 in g.et2es && |g.et2es[et3]| > 0) then None
      else
        var e1 := RandomEntity(g.et2es, et1, rng.uniform(g.nDraws));
        var e3 := RandomEntity(g.et2es, et3, rng.uniform(g.nDraws + 1));
        var g1 := g.(nDraws := g.nDraws + 2);
        match Attempt(g1, tb, rng, sev.rat13, et1, e1, et3, e3)
        case None => None
        case Some((g2, found)) =>
          if sev !in g2.ev2data || !Zero.Lt(g2.ev2data[sev].attemptRate) then None
          else Some((g2, found))
  }

  /** `pop_next_event` with at most `fuel` passes of its loop: the state it
   *  leaves and whether it found an event to perform; None where a pass
   *  aborts or the passes run out. The clock never moves back; when nothing
   *  is found it is at the limit (or where it was, if that was past the
   *  limit), and an event found is due before the limit. The event count
   *  stays. */
  ghost function PopNext(g: Globals, tb: Tables, rng: Rng, fuel: nat): Option<(Globals, bool)>
    requires Ready(g, tb, rng)
    decreases fuel, 0
  {
    if !g.currentT.Lt(tb.maxT) then Some((g, false))
    else if fuel == 0 then None
    else Pass(g, tb, rng, fuel - 1)
  }

  /** `pop_next_event` from the start of a pass of its loop, with the clock
   *  below the limit and `fuel` passes left after this one. With nothing
   *  scheduled, or nothing before the limit, the clock jumps to the limit.
   *  Otherwise the clock advances to the earliest time (an instant event
   *  formally scheduled in the past leaves it where it is) and the event
   *  there is taken up. */
  ghost function Pass(g: Globals, tb: Tables, rng: Rng, fuel: nat): Option<(Globals, bool)>
    requires Ready(g, tb, rng) && g.currentT.Lt(tb.maxT)
    decreases fuel, 3
  {
    if g.t2be.Keys == {} then Some((g.(currentT := tb.maxT), false))
    else
      var t := Earliest(g.t2be);
      if tb.maxT.Le(t) then Some((g.(currentT := tb.maxT), false))
      else Due(g.(currentT := Max(g.currentT, t)), tb, rng, g.t2be[t], fuel)
  }

  /** The rest of the pass for the earliest event `ev`, once the clock has
   *  advanced: a specific event becomes the current event and is removed
   *  (`.at` throws if it is not stored); a summary event makes its
   *  attempt. */
  ghost function Due(g: Globals, tb: Tables, rng: Rng, ev: Event, fuel: nat): Option<(Globals, bool)>
    requires Ready(g, tb, rng) && g.currentT.Lt(tb.maxT)
    decreases fuel, 2
  {
    if ev.e1 < 0 then SummaryPass(g, tb, rng, ev, fuel)
    else if ev !in g.ev2data then None
    else Some((Removed(g.(currentEv := ev), ev), true))
  }

  /** The rest of `pop_next_event` once a summary event is due: the event
   *  its attempt found, or the next pass of the loop. */
  ghost function SummaryPass(g: Globals, tb: Tables, rng: Rng, sev: Event, fuel: nat): Option<(Globals, bool)>
    requires Ready(g, tb, rng) && g.currentT.Lt(tb.maxT) && sev.e1 < 0
    decreases fuel, 1
  {
    match SummaryAttempt(g, tb, rng, sev)
    case None => None
    case Some((g2, found)) =>
      var g' := Rescheduled(g2, tb, rng, sev);
      if found then Some((g', true)) else PopNext(g', tb, rng, fuel)
  }

  /** The clock of `pop_next_event` never moves back; when nothing is found
   *  it is at the limit (or where it was, if that was past the limit), and
   *  an event found is due before the limit. The event count stays. */
  lemma {:induction false} PopNextClock(g: Globals, tb: Tables, rng: Rng, fuel: nat)
    requires Ready(g, tb, rng)
    ensures var r := PopNext(g, tb, rng, fuel);
      r.Some? ==>
        && Ready(r.value.0, tb, rng) && g.currentT.Le(r.value.0.currentT) && r.value.0.nEvents == g.nEvents
        && (!r.value.1 ==> r.value.0.currentT == Max(g.currentT, tb.maxT))
        && (r.value.1 ==> r.value.0.currentT.Lt(tb.maxT))
    decreases fuel, 0
  {
    if g.currentT.Lt(tb.maxT) && fuel > 0 {
      PassClock(g, tb, rng, fuel - 1);
    }
  }

  lemma {:induction false} PassClock(g: Globals, tb: Tables, rng: Rng, fuel: nat)
    requires Ready(g, tb, rng) && g.currentT.Lt(tb.maxT)
    ensures var r := Pass(g, tb, rng, fuel);
      r.Some? ==>
        && Ready(r.value.0, tb, rng) && g.currentT.Le(r.value.0.currentT) && r.value.0.nEvents == g.nEvents
        && (!r.value.1 ==> r.value.0.currentT == tb.maxT)
        && (r.value.1 ==> r.value.0.currentT.Lt(tb.maxT))
    decreases fuel, 3
  {
    if g.t2be.Keys == {} || tb.maxT.Le(Earliest(g.t2be)) {
      assert Pass(g, tb, rng, fuel) == Some((g.(currentT := tb.maxT), false));
    } else {
      var t := Earliest(g.t2be);
      var g1 := g.(currentT := Max(g.currentT, t));
      DueClock(g1, tb, rng, g.t2be[t], fuel);
      var r := Due(g1, tb, rng, g.t2be[t], fuel);
      if r.Some? {
        LtIsStrictTotalOrder(g.currentT, g1.currentT, r.value.0.currentT);
      }
    }
  }

  lemma {:induction false} DueClock(g: Globals, tb: Tables, rng: Rng, ev: Event, fuel: nat)
    requires Ready(g, tb, rng) && g.currentT.Lt(tb.maxT)
    ensures var r := Due(g, tb, rng, ev, fuel);
      r.Some? ==>
        && Ready(r.value.0, tb, rng) && g.currentT.Le(r.value.0.currentT) && r.value.0.nEvents == g.nEvents
        && (!r.value.1 ==> r.value.0.currentT == tb.maxT)
        && (r.value.1 ==> r.value.0.currentT.Lt(tb.maxT))
    decreases fuel, 2
  {
    if ev.e1 < 0 {
      SummaryPassClock(g, tb, rng, ev, fuel);
    }
  }

  lemma {:induction false} SummaryPassClock(g: Globals, tb: Tables, rng: Rng, sev: Event, fuel: nat)
    requires Ready(g, tb, rng) && g.currentT.Lt(tb.maxT) && sev.e1 < 0
    ensures var r := SummaryPass(g, tb, rng, sev, fuel);
      r.Some? ==>
        && Ready(r.value.0, tb, rng) && g.currentT.Le(r.value.0.currentT) && r.value.0.nEvents == g.nEvents
        && (!r.value.1 ==> r.value.0.currentT == tb.maxT)
        && (r.value.1 ==> r.value.0.currentT.Lt(tb.maxT))
    decreases fuel, 1
  {
    var a := SummaryAttempt(g, tb, rng, sev);
    if a.Some? && !a.value.1 {
      PopNextClock(Rescheduled(a.value.0, tb, rng, sev), tb, rng, fuel);
    }
  }

  /** Setting the clock to another finite time keeps the invariant. */
  lemma ClockMoved(g: Globals, t: Ext, tb: Tables, rng: Rng)
    requires GlobalsOk(g, tb, rng, None) && t.Fin?
    ensures GlobalsOk(g.(currentT := t), tb, rng, None)
  {
  }

  /** Rescheduling a stored event keeps the invariant. */
  lemma RescheduledOk(g: Globals, tb: Tables, rng: Rng, ev: Event)
    requires GlobalsOk(g, tb, rng, None) && ev in g.ev2data
    ensures GlobalsOk(Rescheduled(g, tb, rng, ev), tb, rng, None)
  {
    UnscheduledOk(g, tb, rng, ev);
    ScheduledOk(Unscheduled(g, ev), tb, rng, ev);
  }

  /** A drawn entity is one in use. */
  lemma DrawnInUse(g: Globals, tb: Tables, rng: Rng, et: EntityType, k: nat)
    requires GlobalsOk(g, tb, rng, None) && et in g.et2es && |g.et2es[et]| > 0
    ensures 0.0 <= rng.uniform(k) < 1.0
    ensures RandomEntity(g.et2es, et, rng.uniform(k)) in g.es
  {
    var i := RandomIndex(|g.et2es[et]|, rng.uniform(k));
    assert g.et2es[et][i] in g.es;
  }

  /** A summary attempt keeps the invariant. */
  lemma SummaryAttemptOk(g: Globals, tb: Tables, rng: Rng, sev: Event)
    requires GlobalsOk(g, tb, rng, None) && sev.e1 < 0
    ensures var r := SummaryAttempt(g, tb, rng, sev);
      r.Some? ==> GlobalsOk(r.value.0, tb, rng, None)
  {
    var r := SummaryAttempt(g, tb, rng, sev);
    if r.Some? {
      var et1, et3 := (-sev.e1) as nat, (-sev.e3) as nat;
      var e1 := RandomEntity(g.et2es, et1, rng.uniform(g.nDraws));
      var e3 := RandomEntity(g.et2es, et3, rng.uniform(g.nDraws + 1));
      var g1 := g.(nDraws := g.nDraws + 2);
      CountersFree(g, g1, tb, rng, None);
      AttemptOk(g1, tb, rng, sev.rat13, et1, e1, et3, e3);
      var a := Attempt(g1, tb, rng, sev.rat13, et1, e1, et3, e3);
      assert r == a;
    }
  }

  /** The summary event is rescheduled after its attempt, and no other
   *  stored entry changes. */
  lemma SummaryAttemptReschedules(g: Globals, tb: Tables, rng: Rng, sev: Event)
    requires Ready(g, tb, rng) && sev.e1 < 0
    ensures var r := SummaryAttempt(g, tb, rng, sev);
      r.Some? ==>
        var g' := Rescheduled(r.value.0, tb, rng, sev);
        && sev in g.ev2data && sev in g'.ev2data && g'.ev2data[sev].t != NegInf
        && g'.ev2data == g.ev2data[sev := g.ev2data[sev].(t := g'.ev2data[sev].t)]
        && g'.t2be[g'.ev2data[sev].t] == sev
  {
    var r := SummaryAttempt(g, tb, rng, sev);
    if r.Some? {
      var g2 := r.value.0;
      var g3 := Unscheduled(g2, sev);
      var d := DrawnTime(sev, g3.ev2data[sev], g3.currentT, tb, rng, g3.nDraws);
      assert Rescheduled(g2, tb, rng, sev).ev2data[sev].t == d.0;
    }
  }

  /** The establishment a summary attempt finds is of the summary event's
   *  relationship type, between two different entities in use whose link
   *  is absent, and is not stored. */
  lemma SummaryAttemptFinds(g: Globals, tb: Tables, rng: Rng, sev: Event)
    requires GlobalsOk(g, tb, rng, None) && sev.e1 < 0
    ensures var r := SummaryAttempt(g, tb, rng, sev);
      r.Some? && r.value.1 ==>
        var ev := r.value.0.currentEv;
        && ev.ec == EC_EST && ev.rat13 == sev.rat13 && ev.e1 in g.es && ev.e3 in g.es && ev.e1 != ev.e3
        && ev !in r.value.0.ev2data && !LinkExists(g, Link(ev.e1, ev.rat13, ev.e3))
  {
    var r := SummaryAttempt(g, tb, rng, sev);
    if r.Some? {
      var et1, et3 := (-sev.e1) as nat, (-sev.e3) as nat;
      var e1 := RandomEntity(g.et2es, et1, rng.uniform(g.nDraws));
      var e3 := RandomEntity(g.et2es, et3, rng.uniform(g.nDraws + 1));
      var g1 := g.(nDraws := g.nDraws + 2);
      var a := Attempt(g1, tb, rng, sev.rat13, et1, e1, et3, e3);
      assert r == a;
      DrawnInUse(g, tb, rng, et1, g.nDraws);
      DrawnInUse(g, tb, rng, et3, g.nDraws + 1);
    }
  }

  /** `pop_next_event` keeps the invariant; the event it finds has specific
   *  entities and is no longer stored. */
  lemma {:induction false} PopNextOk(g: Globals, tb: Tables, rng: Rng, fuel: nat)
    requires GlobalsOk(g, tb, rng, None)
    ensures Ready(g, tb, rng)
    ensures var r := PopNext(g, tb, rng, fuel);
      r.Some? ==>
        && GlobalsOk(r.value.0, tb, rng, None)
        && (r.value.1 ==> r.value.0.currentEv.e1 >= 0 && r.value.0.currentEv !in r.value.0.ev2data)
    decreases fuel, 0
  {
    if g.currentT.Lt(tb.maxT) && fuel > 0 {
      PassOk(g, tb, rng, fuel - 1);
    }
  }

  lemma {:induction false} PassOk(g: Globals, tb: Tables, rng: Rng, fuel: nat)
    requires GlobalsOk(g, tb, rng, None) && g.currentT.Lt(tb.maxT)
    ensures Ready(g, tb, rng)
    ensures var r := Pass(g, tb, rng, fuel);
      r.Some? ==>
        && GlobalsOk(r.value.0, tb, rng, None)
        && (r.value.1 ==> r.value.0.currentEv.e1 >= 0 && r.value.0.currentEv !in r.value.0.ev2data)
    decreases fuel, 3
  {
    if g.t2be.Keys == {} || tb.maxT.Le(Earliest(g.t2be)) {
      ClockMoved(g, tb.maxT, tb, rng);
    } else {
      var t := Earliest(g.t2be);
      var g1 := g.(currentT := Max(g.currentT, t));
      ClockMoved(g, g1.currentT, tb, rng);
      DueOk(g1, tb, rng, g.t2be[t], fuel);
    }
  }

  lemma {:induction false} DueOk(g: Globals, tb: Tables, rng: Rng, ev: Event, fuel: nat)
    requires GlobalsOk(g, tb, rng, None) && g.currentT.Lt(tb.maxT)
    ensures Ready(g, tb, rng)
    ensures var r := Due(g, tb, rng, ev, fuel);
      r.Some? ==>
        && GlobalsOk(r.value.0, tb, rng, None)
        && (r.value.1 ==> r.value.0.currentEv.e1 >= 0 && r.value.0.currentEv !in r.value.0.ev2data)
    decreases fuel, 2
  {
    if ev.e1 < 0 {
      SummaryPassOk(g, tb, rng, ev, fuel);
    } else if ev in g.ev2data {
      RemovedOk(g.(currentEv := ev), tb, rng, ev);
    }
  }

  lemma {:induction false} SummaryPassOk(g: Globals, tb: Tables, rng: Rng, sev: Event, fuel: nat)
    requires GlobalsOk(g, tb, rng, None) && g.currentT.Lt(tb.maxT) && sev.e1 < 0
    ensures Ready(g, tb, rng)
    ensures var r := SummaryPass(g, tb, rng, sev, fuel);
      r.Some? ==>
        && GlobalsOk(r.value.0, tb, rng, None)
        && (r.value.1 ==> r.value.0.currentEv.e1 >= 0 && r.value.0.currentEv !in r.value.0.ev2data)
    decreases fuel, 1
  {
    SummaryAttemptOk(g, tb, rng, sev);
    SummaryAttemptFinds(g, tb, rng, sev);
    var a := SummaryAttempt(g, tb, rng, sev);
    if a.Some? {
      RescheduledOk(a.value.0, tb, rng, sev);
      if !a.value.1 {
        PopNextOk(Rescheduled(a.value.0, tb, rng, sev), tb, rng, fuel);
      }
    }
  }

  /** A due specific event becomes the current event and is removed: its
   *  entry and its key `t` are erased, and the clock is at `t` or later. */
  lemma PassPerformsSpecificEvent(g: Globals, tb: Tables, rng: Rng, fuel: nat)
    requires GlobalsOk(g, tb, rng, None) && g.currentT.Lt(tb.maxT) && g.t2be.Keys != {}
    requires Earliest(g.t2be).Lt(tb.maxT) && g.t2be[Earliest(g.t2be)].e1 >= 0
    ensures var t := Earliest(g.t2be);
      var ev := g.t2be[t];
      var r := Pass(g, tb, rng, fuel);
      && r.Some? && r.value.1
      && r.value.0.currentEv == ev && t.Le(r.value.0.currentT)
      && r.value.0.ev2data == g.ev2data - {ev} && r.value.0.t2be == g.t2be - {t}
  {
  }

  /** With nothing scheduled before the limit the pass jumps to the limit
   *  and changes nothing else. */
  lemma PassWithNothingDue(g: Globals, tb: Tables, rng: Rng, fuel: nat)
    requires Ready(g, tb, rng) && g.currentT.Lt(tb.maxT)
    requires g.t2be.Keys == {} || tb.maxT.Le(Earliest(g.t2be))
    ensures Pass(g, tb, rng, fuel) == Some((g.(currentT := tb.maxT), false))
  {
  }

  /** No event is found once the clock has reached the limit, and the
   *  state is left as it is. */
  lemma PopNextAtLimit(g: Globals, tb: Tables, rng: Rng, fuel: nat)
    requires Ready(g, tb, rng) && tb.maxT.Le(g.currentT)
    ensures PopNext(g, tb, rng, fuel) == Some((g, false))
  {
  }

  /** The attempt of a due summary event `sev`, before it is rescheduled. */
  method SummaryStep(w: World, sev: Event) returns (found: bool, ok: bool)
    requires w.Valid() && sev.e1 < 0
    modifies w
    ensures Ready(old(w.g), w.tb, w.rng)
    ensures ok == SummaryAttempt(old(w.g), w.tb, w.rng, sev).Some?
    ensures ok ==> w.Valid() && (w.g, found) == SummaryAttempt(old(w.g), w.tb, w.rng, sev).value
  {
    ReadyOk(w.g, w.tb, w.rng);
    ghost var g0 := w.g;
    if sev.e3 >= 0 || sev.ec != EC_EST {
      return false, false;
    }
    var et1, et3 := (-sev.e1) as nat, (-sev.e3) as nat;
    if !(et1 in w.g.et2es && |w.g.et2es[et1]| > 0 && et3 in w.g.et2es && |w.g.et2es[et3]| > 0) {
      return false, false;
    }
    var e1 := RandomEntity(w.g.et2es, et1, w.rng.uniform(w.g.nDraws));
    var e3 := RandomEntity(w.g.et2es, et3, w.rng.uniform(w.g.nDraws + 1));
    w.g := w.g.(nDraws := w.g.nDraws + 2);
    CountersFree(g0, w.g, w.tb, w.rng, None);
    ghost var g1 := w.g;
    found, ok := TryLink(w, sev.rat13, et1, e1, et3, e3);
    if !ok {
      return;
    }
    ghost var g2 := w.g;
    assert Attempt(g1, w.tb, w.rng, sev.rat13, et1, e1, et3, e3) == Some((g2, found));
    if sev !in w.g.ev2data || !Zero.Lt(w.g.ev2data[sev].attemptRate) {
      return false, false;
    }
  }

  /** How a pass of the loop in `pop_next_event` ends: an event to perform
   *  was found, the attempt of a summary event came to nothing and the
   *  loop goes on, or nothing is due before the time limit. */
  datatype Outcome = Found | Again | Done

  /** The rest of a pass for the earliest event `ev`, with `fuel` passes
   *  left after it for the specification. */
  method DueStep(w: World, ev: Event, ghost fuel: nat) returns (p: Outcome, ok: bool)
    requires w.Valid() && w.g.currentT.Lt(w.tb.maxT)
    modifies w
    ensures Ready(old(w.g), w.tb, w.rng)
    ensures !ok ==> Due(old(w.g), w.tb, w.rng, ev, fuel).None?
    ensures ok ==> w.Valid() && Ready(w.g, w.tb, w.rng) && p != Done
    ensures ok && p == Again ==> Due(old(w.g), w.tb, w.rng, ev, fuel) == PopNext(w.g, w.tb, w.rng, fuel)
    ensures ok && p == Found ==> Due(old(w.g), w.tb, w.rng, ev, fuel) == Some((w.g, true))
  {
    ReadyOk(w.g, w.tb, w.rng);
    if ev.e1 < 0 {
      ghost var g0 := w.g;
      var found;
      found, ok := SummaryStep(w, ev);
      if !ok {
        return Again, false;
      }
      ghost var g2 := w.g;
      RescheduleEvent(w, ev);
      assert SummaryPass(g0, w.tb, w.rng, ev, fuel) ==
        (if found then Some((Rescheduled(g2, w.tb, w.rng, ev), true)) else PopNext(Rescheduled(g2, w.tb, w.rng, ev), w.tb, w.rng, fuel));
      p := if found then Found else Again;
    } else if ev !in w.g.ev2data {
      return Again, false;
    } else {
      w.g := w.g.(currentEv := ev);
      RemoveEvent(w, ev);
      p, ok := Found, true;
    }
  }

  /** One pass of the loop in `pop_next_event`, with `fuel` passes left
   *  after it for the specification. */
  method OnePass(w: World, ghost fuel: nat) returns (p: Outcome, ok: bool)
    requires w.Valid() && w.g.currentT.Lt(w.tb.maxT)
    modifies w
    ensures Ready(old(w.g), w.tb, w.rng)
    ensures !ok ==> Pass(old(w.g), w.tb, w.rng, fuel).None?
    ensures ok ==> w.Valid() && Ready(w.g, w.tb, w.rng)
    ensures ok && p == Again ==> Pass(old(w.g), w.tb, w.rng, fuel) == PopNext(w.g, w.tb, w.rng, fuel)
    ensures ok && p != Again ==> Pass(old(w.g), w.tb, w.rng, fuel) == Some((w.g, p == Found))
  {
    ReadyOk(w.g, w.tb, w.rng);
    if w.g.t2be.Keys == {} {
      w.g := w.g.(currentT := w.tb.maxT);
      return Done, true;
    }
    MinExists(w.g.t2be.Keys);
    var t :| t in w.g.t2be && forall u :: u in w.g.t2be ==> t.Le(u);
    MinKeyUnique(w.g.t2be.Keys, t);
    if w.tb.maxT.Le(t) {
      w.g := w.g.(currentT := w.tb.maxT);
      return Done, true;
    }
    p, ok := DueAt(w, t, fuel);
  }

  /** The rest of a pass once the earliest time `t` is known to be due. */
  method DueAt(w: World, t: Ext, ghost fuel: nat) returns (p: Outcome, ok: bool)
    requires w.Valid() && w.g.currentT.Lt(w.tb.maxT)
    requires w.g.t2be.Keys != {} && t == Earliest(w.g.t2be) && !w.tb.maxT.Le(t)
    modifies w
    ensures Ready(old(w.g), w.tb, w.rng)
    ensures !ok ==> Pass(old(w.g), w.tb, w.rng, fuel).None?
    ensures ok ==> w.Valid() && Ready(w.g, w.tb, w.rng)
    ensures ok && p == Again ==> Pass(old(w.g), w.tb, w.rng, fuel) == PopNext(w.g, w.tb, w.rng, fuel)
    ensures ok && p != Again ==> Pass(old(w.g), w.tb, w.rng, fuel) == Some((w.g, p == Found))
  {
    ReadyOk(w.g, w.tb, w.rng);
    ClockMoved(w.g, Max(w.g.currentT, t), w.tb, w.rng);
    var ev := w.g.t2be[t];
    w.g := w.g.(currentT := Max(w.g.currentT, t));
    p, ok := DueStep(w, ev, fuel);
  }

  /** `pop_next_event`, with the number of loop passes bounded by `fuel`;
   *  `ok` is false where the source aborts or the passes run out. */
  method PopNextEvent(w: World, fuel: nat) returns (found: bool, ok: bool)
    requires w.Valid()
    modifies w
    ensures Ready(old(w.g), w.tb, w.rng)
    ensures ok == PopNext(old(w.g), w.tb, w.rng, fuel).Some?
    ensures ok ==> w.Valid() && (w.g, found) == PopNext(old(w.g), w.tb, w.rng, fuel).value
  {
    ReadyOk(w.g, w.tb, w.rng);
    var left := fuel;
    while w.g.currentT.Lt(w.tb.maxT)
      invariant w.Valid() && Ready(w.g, w.tb, w.rng)
      invariant PopNext(old(w.g), w.tb, w.rng, fuel) == PopNext(w.g, w.tb, w.rng, left)
      decreases left
    {
      if left == 0 {
        return false, false;
      }
      ghost var g0 := w.g;
      assert PopNext(g0, w.tb, w.rng, left) == Pass(g0, w.tb, w.rng, left - 1);
      var p;
      p, ok := OnePass(w, left - 1);
      if !ok {
        return false, false;
      }
      if p != Again {
        return p == Found, true;
      }
      left := left - 1;
    }
    return false, true;
  }

  // ---------------------------------------------------------------------
  // step and the main loop

  /** What `step` does with a found event: it counts the event and
   *  performs it. */
  function Counted(g: Globals, tb: Tables, rng: Rng): Option<Globals>
    requires GlobalsOk(g, tb, rng, None)
  {
    var g1 := g.(nEvents := g.nEvents + 1);
    CountersFree(g, g1, tb, rng, None);
    Performed(g1, tb, rng, g.currentEv, true)
  }

  lemma CountedOk(g: Globals, tb: Tables, rng: Rng)
    requires GlobalsOk(g, tb, rng, None)
    ensures var r := Counted(g, tb, rng);
      var ev := g.currentEv;
      r.Some? ==>
        && GlobalsOk(r.value, tb, rng, None)
        && r.value.currentT == g.currentT && r.value.currentEv == ev && r.value.nEvents == g.nEvents + 1
        && (LinkExists(r.value, Link(ev.e1, ev.rat13, ev.e3)) <==> ev.ec == EC_EST)
  {
    var g1 := g.(nEvents := g.nEvents + 1);
    CountersFree(g, g1, tb, rng, None);
    PerformedOk(g1, tb, rng, g.currentEv, true);
    assert Counted(g, tb, rng) == Performed(g1, tb, rng, g.currentEv, true);
  }

  /** `step`: below the event limit, pops the next event and performs it,
   *  counting it; the flag tells whether an event was performed. */
  ghost function Stepped(g: Globals, tb: Tables, rng: Rng, fuel: nat): Option<(Globals, bool)>
    requires GlobalsOk(g, tb, rng, None)
  {
    if !(g.nEvents < tb.maxNEvents) then Some((g, false))
    else
      PopNextOk(g, tb, rng, fuel);
      match PopNext(g, tb, rng, fuel)
      case None => None
      case Some((g1, found)) =>
        if !found then Some((g1, false))
        else
          match Counted(g1, tb, rng)
          case None => None
          case Some(g3) => Some((g3, true))
  }

  /** A step keeps the invariant and never moves the clock back; it counts
   *  exactly the event it performs, so the count never passes the limit;
   *  the performed event happens before the time limit and changes its
   *  link and nothing else among the links but its companion. */
  lemma SteppedOk(g: Globals, tb: Tables, rng: Rng, fuel: nat)
    requires GlobalsOk(g, tb, rng, None)
    ensures var r := Stepped(g, tb, rng, fuel);
      r.Some? ==>
        && GlobalsOk(r.value.0, tb, rng, None)
        && g.currentT.Le(r.value.0.currentT)
        && r.value.0.nEvents == g.nEvents + (if r.value.1 then 1 else 0)
        && (r.value.1 ==> g.nEvents < tb.maxNEvents && r.value.0.currentT.Lt(tb.maxT))
        && (g.nEvents <= tb.maxNEvents ==> r.value.0.nEvents <= tb.maxNEvents)
        && (r.value.1 ==>
              var ev := r.value.0.currentEv;
              LinkExists(r.value.0, Link(ev.e1, ev.rat13, ev.e3)) <==> ev.ec == EC_EST)
  {
    var r := Stepped(g, tb, rng, fuel);
    if g.nEvents < tb.maxNEvents && r.Some? {
      PopNextOk(g, tb, rng, fuel);
      PopNextClock(g, tb, rng, fuel);
      var p := PopNext(g, tb, rng, fuel);
      var g1 := p.value.0;
      if p.value.1 {
        CountedOk(g1, tb, rng);
        assert r == Some((Counted(g1, tb, rng).value, true));
      } else {
        assert r == Some((g1, false));
      }
    }
  }

  /** At the event limit a step changes nothing. */
  lemma SteppedAtEventLimit(g: Globals, tb: Tables, rng: Rng, fuel: nat)
    requires GlobalsOk(g, tb, rng, None) && tb.maxNEvents <= g.nEvents
    ensures Stepped(g, tb, rng, fuel) == Some((g, false))
  {
  }

  /** `step`. */
  method Step(w: World, fuel: nat) returns (performed: bool, ok: bool)
    requires w.Valid()
    modifies w
    ensures ok == Stepped(old(w.g), w.tb, w.rng, fuel).Some?
    ensures ok ==> w.Valid() && (w.g, performed) == Stepped(old(w.g), w.tb, w.rng, fuel).value
  {
    if !(w.g.nEvents < w.tb.maxNEvents) {
      return false, true;
    }
    var found;
    found, ok := PopNextEvent(w, fuel);
    if !ok || !found {
      return false, ok;
    }
    ok := CountAndPerform(w);
    performed := true;
  }

  /** `++n_events; perform_event(current_ev);` */
  method CountAndPerform(w: World) returns (ok: bool)
    requires w.Valid()
    modifies w
    ensures ok == Counted(old(w.g), w.tb, w.rng).Some?
    ensures ok ==> w.Valid() && w.g == Counted(old(w.g), w.tb, w.rng).value
  {
    ghost var g0 := w.g;
    w.g := w.g.(nEvents := w.g.nEvents + 1);
    CountersFree(g0, w.g, w.tb, w.rng, None);
    ok := PerformEvent(w, w.g.currentEv);
  }

  /** The main loop `while (step())` with at most `steps` steps: the state
   *  when a step performs nothing; None where a step aborts or the steps
   *  run out. */
  ghost function Run(g: Globals, tb: Tables, rng: Rng, steps: nat, fuel: nat): Option<Globals>
    requires GlobalsOk(g, tb, rng, None)
    decreases steps, 1
  {
    SteppedOk(g, tb, rng, fuel);
    match Stepped(g, tb, rng, fuel)
    case None => None
    case Some((g1, performed)) =>
      if !performed then Some(g1) else Continued(g1, tb, rng, steps, fuel)
  }

  /** The main loop after a step that performed an event, which used up one
   *  of the `steps` allowed. */
  ghost function Continued(g: Globals, tb: Tables, rng: Rng, steps: nat, fuel: nat): Option<Globals>
    requires GlobalsOk(g, tb, rng, None)
    decreases steps, 0
  {
    if steps == 0 then None else Run(g, tb, rng, steps - 1, fuel)
  }

  /** A finished run keeps the invariant, never moves the clock back, and
   *  performs at most `max_n_events` events in all. */
  lemma {:induction false} RunOk(g: Globals, tb: Tables, rng: Rng, steps: nat, fuel: nat)
    requires GlobalsOk(g, tb, rng, None) && g.nEvents <= tb.maxNEvents
    ensures var r := Run(g, tb, rng, steps, fuel);
      r.Some? ==> GlobalsOk(r.value, tb, rng, None) && g.currentT.Le(r.value.currentT)
                  && g.nEvents <= r.value.nEvents <= tb.maxNEvents
    decreases steps, 1
  {
    SteppedOk(g, tb, rng, fuel);
    var s := Stepped(g, tb, rng, fuel);
    if s.Some? && s.value.1 {
      ContinuedOk(s.value.0, tb, rng, steps, fuel);
      var r := Continued(s.value.0, tb, rng, steps, fuel);
      if r.Some? {
        LtIsStrictTotalOrder(g.currentT, s.value.0.currentT, r.value.currentT);
      }
    }
  }

  lemma {:induction false} ContinuedOk(g: Globals, tb: Tables, rng: Rng, steps: nat, fuel: nat)
    requires GlobalsOk(g, tb, rng, None) && g.nEvents <= tb.maxNEvents
    ensures var r := Continued(g, tb, rng, steps, fuel);
      r.Some? ==> GlobalsOk(r.value, tb, rng, None) && g.currentT.Le(r.value.currentT)
                  && g.nEvents <= r.value.nEvents <= tb.maxNEvents
    decreases steps, 0
  {
    if steps > 0 {
      RunOk(g, tb, rng, steps - 1, fuel);
    }
  }

  /** The main loop of src/tricl.cpp between `init` and `finish`. */
  method Simulate(w: World, steps: nat, fuel: nat) returns (ok: bool)
    requires w.Valid()
    modifies w
    ensures ok == Run(old(w.g), w.tb, w.rng, steps, fuel).Some?
    ensures ok ==> w.Valid() && w.g == Run(old(w.g), w.tb, w.rng, steps, fuel).value
  {
    var left := steps;
    while true
      invariant w.Valid()
      invariant Run(old(w.g), w.tb, w.rng, steps, fuel) == Run(w.g, w.tb, w.rng, left, fuel)
      decreases left
    {
      var performed;
      performed, ok := Step(w, fuel);
      if !ok || !performed {
        return;
      }
      if left == 0 {
        return false;
      }
      left := left - 1;
    }
  }

  // ---------------------------------------------------------------------
  // do_random_link

  /** The state `do_random_link` leaves as written (src/link.cpp:52-53),
   *  just before `perform_event`, once the draw has succeeded and the link
   *  is absent: `&ev2data[ev]` inserts a default entry (time minus
   *  infinity) for an event that was not stored, and only a scheduled
   *  entry is removed. */
  function RandomLinkEntryAsWritten(g: Globals, l: Link): (g': Globals)
    ensures var ev := Event(EC_EST, l.e1, l.rat13, l.e3);
      && (ev in g.ev2data && g.ev2data[ev].t != NegInf ==> ev !in g'.ev2data && g'.ev2data == g.ev2data - {ev})
      && (ev !in g.ev2data ==> ev in g'.ev2data && g'.ev2data[ev].t == NegInf && g'.ev2data.Keys == g.ev2data.Keys + {ev})
  {
    var ev := Event(EC_EST, l.e1, l.rat13, l.e3);
    var d := if ev in g.ev2data then g.ev2data[ev] else DefaultEventData;
    var g1 := g.(ev2data := g.ev2data[ev := d]);
    if NegInf.Lt(d.t) then
      assert g1.ev2data - {ev} == g.ev2data - {ev};
      Removed(g1, ev)
    else g1
  }

  /** When the establishment was not stored, the state as written keeps an
   *  entry that is not scheduled, which breaks the consistency that
   *  `verify_data_consistency` checks (src/debugging.cpp:65) and makes the
   *  later `add_event` for the same establishment fail its check that the
   *  event is not stored (src/event.cpp:146). */
  lemma RandomLinkEntryAsWrittenBreaksInvariant(g: Globals, tb: Tables, rng: Rng, l: Link)
    requires GlobalsOk(g, tb, rng, None) && Event(EC_EST, l.e1, l.rat13, l.e3) !in g.ev2data
    ensures !GlobalsOk(RandomLinkEntryAsWritten(g, l), tb, rng, None)
  {
  }

  /** `do_random_link` as intended: with probability `p` (one uniform draw),
   *  an absent link is established at once, after removing the stored
   *  establishment event, if any, as `init_links` does for its fixed links.
   *  None where performing the event aborts. */
  ghost function RandomLinked(g: Globals, tb: Tables, rng: Rng, p: real, l: Link): Option<Globals>
    requires GlobalsOk(g, tb, rng, None)
  {
    var g1 := g.(nDraws := g.nDraws + 1);
    CountersFree(g, g1, tb, rng, None);
    if !(rng.uniform(g.nDraws) < p) || LinkExists(g, l) then Some(g1)
    else Established(g1, tb, rng, l)
  }

  /** A random link keeps the invariant; when it is drawn the link exists
   *  afterwards, and otherwise every link is as it was. */
  lemma RandomLinkedOk(g: Globals, tb: Tables, rng: Rng, p: real, l: Link)
    requires GlobalsOk(g, tb, rng, None)
    ensures var r := RandomLinked(g, tb, rng, p, l);
      r.Some? ==>
        && GlobalsOk(r.value, tb, rng, None)
        && (LinkExists(r.value, l) <==> LinkExists(g, l) || rng.uniform(g.nDraws) < p)
        && (forall m :: m != l && m != Link(l.e3, InverseRat(tb, l.rat13), l.e1) ==>
              (LinkExists(r.value, m) <==> LinkExists(g, m)))
  {
    var g1 := g.(nDraws := g.nDraws + 1);
    CountersFree(g, g1, tb, rng, None);
    var r := RandomLinked(g, tb, rng, p, l);
    if !(rng.uniform(g.nDraws) < p) || LinkExists(g, l) {
      assert r == Some(g1);
    } else {
      EstablishedOk(g1, tb, rng, l);
      assert r == Established(g1, tb, rng, l);
    }
  }

  /** The random initial link only adds links. */
  lemma RandomLinkedOnlyAdds(g: Globals, tb: Tables, rng: Rng, p: real, l: Link)
    requires GlobalsOk(g, tb, rng, None)
    ensures var r := RandomLinked(g, tb, rng, p, l);
      r.Some? ==> forall m :: LinkExists(g, m) ==> LinkExists(r.value, m)
  {
    var g1 := g.(nDraws := g.nDraws + 1);
    CountersFree(g, g1, tb, rng, None);
    var r := RandomLinked(g, tb, rng, p, l);
    if !(rng.uniform(g.nDraws) < p) || LinkExists(g, l) {
      assert r == Some(g1);
    } else {
      EstablishedOnlyAdds(g1, tb, rng, l);
      assert r == Established(g1, tb, rng, l);
    }
  }

  /** `do_random_link` as intended. */
  method DoRandomLink(w: World, p: real, l: Link) returns (ok: bool)
    requires w.Valid()
    modifies w
    ensures ok == RandomLinked(old(w.g), w.tb, w.rng, p, l).Some?
    ensures ok ==> w.Valid() && w.g == RandomLinked(old(w.g), w.tb, w.rng, p, l).value
  {
    var u := w.rng.uniform(w.g.nDraws);
    ghost var g0 := w.g;
    w.g := w.g.(nDraws := w.g.nDraws + 1);
    CountersFree(g0, w.g, w.tb, w.rng, None);
    if !(u < p) || LinkExists(w.g, l) {
      return true;
    }
    ok := Establish(w, l);
  }
}
