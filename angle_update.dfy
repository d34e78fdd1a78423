/** `add_or_delete_angle` (src/angle.cpp): when an angle e1 -rat12-> e2
 *  -rat23-> e3 appears or disappears, every event between e1 and e3 whose
 *  type it influences gains or loses that influence, and is created,
 *  rescheduled or removed accordingly. */
module AngleUpdate {
  import opened Wrappers
  import opened ExtReal
  import opened DataModel
  import opened State
  import opened Events

  /** The counts of an event that angles change. */
  datatype Counts = Counts(nAngles: int, attemptRate: Ext, successProbunits: Ext)

  function StoredCounts(m: map<Event, EventData>, ev: Event): (c: Option<Counts>)
    ensures c.Some? <==> ev in m
  {
    if ev in m then Some(Counts(m[ev].nAngles, m[ev].attemptRate, m[ev].successProbunits)) else None
  }

  predicate CountsBounds(c: Counts) {
    c.nAngles >= 0 && Zero.Le(c.attemptRate) && c.successProbunits != NegInf
  }

  /** What one angle with influences (dar, dsl) does to the stored counts `c`
   *  of an event it affects (None: no entry). Adding gives a new event one
   *  angle, rate dar and probunits dsl, and adds them to an existing one.
   *  Deleting needs a stored event with a positive count, takes one angle,
   *  dar (not below 0) and dsl away, and drops an establishment event whose
   *  count reaches 0. */
  function AngleEffect(adding: bool, isEst: bool, c: Option<Counts>, dar: Ext, dsl: Ext): (r: Option<Counts>)
    requires adding || (c.Some? && c.value.nAngles > 0)
  {
    if adding then
      if c.None? then Some(Counts(1, dar, dsl))
      else Some(Counts(c.value.nAngles + 1, c.value.attemptRate.Plus(dar), c.value.successProbunits.Plus(dsl)))
    else
      var n := c.value.nAngles - 1;
      if isEst && n == 0 then None
      else Some(Counts(n, Max(Zero, c.value.attemptRate.Minus(dar)), c.value.successProbunits.Minus(dsl)))
  }

  /** The effect keeps the bounds every stored event satisfies, and an event
   *  that had angles or was absent has a positive count after an addition. */
  lemma AngleEffectBounds(adding: bool, isEst: bool, c: Option<Counts>, dar: Ext, dsl: Ext)
    requires adding || (c.Some? && c.value.nAngles > 0)
    requires c.Some? ==> CountsBounds(c.value)
    requires Zero.Le(dar) && dsl.Fin?
    ensures var r := AngleEffect(adding, isEst, c, dar, dsl);
      && (r.Some? ==> CountsBounds(r.value))
      && (adding ==> r.Some? && r.value.nAngles >= 1)
      && (!adding ==> (r.None? <==> isEst && c.value.nAngles == 1))
  {
  }

  /** Deleting an angle that was just added restores the counts (the
   *  arithmetic is exact on reals), provided the influences are finite and
   *  an establishment event had angles or was absent, and a termination
   *  event was present. */
  lemma AddThenDeleteRestores(isEst: bool, c: Option<Counts>, dar: Ext, dsl: Ext)
    requires dar.Fin? && Zero.Le(dar) && dsl.Fin?
    requires c.Some? ==> CountsBounds(c.value) && (isEst ==> c.value.nAngles > 0)
    requires c.None? ==> isEst
    ensures AngleEffect(true, isEst, c, dar, dsl).Some?
    ensures AngleEffect(true, isEst, c, dar, dsl).value.nAngles > 0
    ensures AngleEffect(false, isEst, AngleEffect(true, isEst, c, dar, dsl), dar, dsl) == c
  {
    if c.Some? {
      var x := c.value;
      PlusMinusCancels(x.attemptRate, dar);
      PlusMinusCancels(x.successProbunits, dsl);
      assert Max(Zero, x.attemptRate) == x.attemptRate;
    }
  }

  lemma PlusMinusCancels(a: Ext, d: Ext)
    requires d.Fin?
    ensures a.Plus(d).Minus(d) == a
  {
    if a.Fin? {
      assert a.Plus(d) == Fin(a.v + d.v);
      assert Fin(a.v + d.v).Minus(d) == Fin(a.v + d.v - d.v);
    }
  }

  // ---------------------------------------------------------------------
  // Which events an angle affects

  /** The event for `rat13` between e1 and e3 that an angle affects: its
   *  termination if the link exists, its establishment otherwise. */
  function AngleTarget(g: Globals, e1: Entity, rat13: Rat, e3: Entity): (ev: Event)
    ensures ev.e1 == e1 && ev.rat13 == rat13 && ev.e3 == e3
    ensures ev.ec == EC_TERM <==> LinkIn(g.e2outs, Link(e1, rat13, e3))
    ensures ev.ec != EC_ACT
  {
    Event(if OutLeg(rat13, e3) in OutsOf(g.e2outs, e1) then EC_TERM else EC_EST, e1, rat13, e3)
  }

  /** Whether the angle type `at` counts for events of type `evt`: the event
   *  type must have a base probunit, and the angle a non-zero influence
   *  unless all angles count. */
  predicate Influences(tb: Tables, evt: EventType, at: AngleType) {
    var i := InfluenceType(evt, at);
    evt in tb.evt2baseProbunit
    && (tb.countAllAngles || AttemptRateOf(tb, i) != Zero || DeltaProbunitOf(tb, i) != Zero)
  }

  /** The counts `ev` has once the rats in `rats` have been processed, for an
   *  angle of type `at` between e1 (of type et1) and e3 (of type et3). */
  function Expected(g: Globals, tb: Tables, adding: bool, e1: Entity, et1: EntityType, at: AngleType,
                    e3: Entity, et3: EntityType, rats: seq<Rat>, ev: Event): Option<Counts>
  {
    var c := StoredCounts(g.ev2data, ev);
    var evt := EventType(ev.ec, et1, ev.rat13, et3);
    var i := InfluenceType(evt, at);
    if ev.e1 == e1 && ev.e3 == e3 && ev.rat13 in rats && ev == AngleTarget(g, e1, ev.rat13, e3)
       && Influences(tb, evt, at) && (adding || (c.Some? && c.value.nAngles > 0))
    then AngleEffect(adding, ev.ec == EC_EST, c, AttemptRateOf(tb, i), DeltaProbunitOf(tb, i))
    else c
  }

  /** The event data holding counts `c` and time `t`. */
  function DataOf(c: Counts, t: Ext): (d: EventData)
    ensures Counts(d.nAngles, d.attemptRate, d.successProbunits) == c && d.t == t
  {
    EventData(c.nAngles, c.attemptRate, c.successProbunits, t)
  }

  /** The state `add_or_delete_angle` leaves after treating one affected event
   *  `ev` with influences (dar, dsl), or None where the source stops: an
   *  angle deleted from an event that is not stored (`ev2data.at` throws) or
   *  has no angles (the assertion on `n_angles`), or an event to be scheduled
   *  whose attempt rate is not positive (the assertion in
   *  `_schedule_event`). A new event is stored and scheduled, a stored one
   *  updated and rescheduled, and an establishment event that loses its last
   *  angle removed. */
  function AngleStep(g: Globals, tb: Tables, rng: Rng, adding: bool, ev: Event, dar: Ext, dsl: Ext): (r: Option<Globals>)
    requires g.currentT.Fin?
  {
    var c := StoredCounts(g.ev2data, ev);
    if !adding && !(c.Some? && c.value.nAngles > 0) then None
    else
      var n := AngleEffect(adding, ev.ec == EC_EST, c, dar, dsl);
      if n.None? then Some(Removed(g, ev))
      else if !Zero.Lt(n.value.attemptRate) then None
      else Some(Touched(g, tb, rng, ev, n.value))
  }

  /** Giving `ev` the counts `n` and (re)scheduling it: a stored event keeps
   *  its time until `reschedule_event` draws a new one, a new event is
   *  stored unscheduled and then scheduled. */
  function Touched(g: Globals, tb: Tables, rng: Rng, ev: Event, n: Counts): Globals
    requires g.currentT.Fin?
  {
    if ev in g.ev2data then Rescheduled(Stored(g, ev, DataOf(n, g.ev2data[ev].t)), tb, rng, ev)
    else Scheduled(Stored(g, ev, DataOf(n, NegInf)), tb, rng, ev)
  }

  /** Touching an event keeps the invariant, gives the event the counts `n`
   *  and leaves every other event's counts. */
  lemma TouchedOk(g: Globals, tb: Tables, rng: Rng, ev: Event, n: Counts)
    requires GlobalsOk(g, tb, rng, None) && CountsBounds(n)
    ensures var g' := Touched(g, tb, rng, ev, n);
      && GlobalsOk(g', tb, rng, None) && EventsOnly(g, g')
      && StoredCounts(g'.ev2data, ev) == Some(n)
      && (forall y :: y != ev ==> StoredCounts(g'.ev2data, y) == StoredCounts(g.ev2data, y))
  {
    if ev in g.ev2data {
      RetouchRescheduleOk(g, tb, rng, ev, DataOf(n, g.ev2data[ev].t));
    } else {
      StoreScheduleOk(g, tb, rng, ev, DataOf(n, NegInf));
    }
  }

  /** Storing a new event and scheduling it keeps the invariant, gives the
   *  event the stored counts and leaves every other event's counts. */
  lemma StoreScheduleOk(g: Globals, tb: Tables, rng: Rng, ev: Event, x: EventData)
    requires GlobalsOk(g, tb, rng, None) && ev !in g.ev2data && DataBounds(x) && x.t == NegInf
    ensures var g' := Scheduled(Stored(g, ev, x), tb, rng, ev);
      && GlobalsOk(g', tb, rng, None) && EventsOnly(g, g')
      && StoredCounts(g'.ev2data, ev) == Some(Counts(x.nAngles, x.attemptRate, x.successProbunits))
      && (forall y :: y != ev ==> StoredCounts(g'.ev2data, y) == StoredCounts(g.ev2data, y))
  {
    StoredOk(g, tb, rng, ev, x);
    ScheduledOk(Stored(g, ev, x), tb, rng, ev);
  }

  /** Updating the counts of a stored event and rescheduling it keeps the
   *  invariant, gives the event the new counts and leaves every other
   *  event's counts. */
  lemma RetouchRescheduleOk(g: Globals, tb: Tables, rng: Rng, ev: Event, x: EventData)
    requires GlobalsOk(g, tb, rng, None) && ev in g.ev2data && DataBounds(x) && x.t == g.ev2data[ev].t
    ensures var g' := Rescheduled(Stored(g, ev, x), tb, rng, ev);
      && GlobalsOk(g', tb, rng, None) && EventsOnly(g, g')
      && StoredCounts(g'.ev2data, ev) == Some(Counts(x.nAngles, x.attemptRate, x.successProbunits))
      && (forall y :: y != ev ==> StoredCounts(g'.ev2data, y) == StoredCounts(g.ev2data, y))
  {
    var g1 := Stored(g, ev, x);
    RetouchedOk(g, tb, rng, ev, x);
    StoredEventsAreScheduled(g1, tb, rng, ev);
    UnscheduledOk(g1, tb, rng, ev);
    var g2 := Unscheduled(g1, ev);
    ScheduledOk(g2, tb, rng, ev);
  }

  /** Removing a stored event keeps the invariant, drops its counts and
   *  leaves every other event's. */
  lemma RemoveOk(g: Globals, tb: Tables, rng: Rng, ev: Event)
    requires GlobalsOk(g, tb, rng, None) && ev in g.ev2data
    ensures var g' := Removed(g, ev);
      && GlobalsOk(g', tb, rng, None) && EventsOnly(g, g')
      && StoredCounts(g'.ev2data, ev) == None
      && (forall y :: y != ev ==> StoredCounts(g'.ev2data, y) == StoredCounts(g.ev2data, y))
  {
    RemovedOk(g, tb, rng, ev);
  }

  /** One step keeps the invariant, changes only the event bookkeeping, gives
   *  the treated event the counts `AngleEffect` prescribes and leaves every
   *  other event's counts as they were. */
  lemma AngleStepOk(g: Globals, tb: Tables, rng: Rng, adding: bool, ev: Event, dar: Ext, dsl: Ext)
    requires GlobalsOk(g, tb, rng, None) && Zero.Le(dar) && dsl.Fin?
    ensures var r := AngleStep(g, tb, rng, adding, ev, dar, dsl);
      r.Some? ==>
        && GlobalsOk(r.value, tb, rng, None) && EventsOnly(g, r.value)
        && (adding || (ev in g.ev2data && g.ev2data[ev].nAngles > 0))
        && StoredCounts(r.value.ev2data, ev) == AngleEffect(adding, ev.ec == EC_EST, StoredCounts(g.ev2data, ev), dar, dsl)
        && (forall y :: y != ev ==> StoredCounts(r.value.ev2data, y) == StoredCounts(g.ev2data, y))
  {
    var c := StoredCounts(g.ev2data, ev);
    if adding || (c.Some? && c.value.nAngles > 0) {
      AngleEffectBounds(adding, ev.ec == EC_EST, c, dar, dsl);
      var n := AngleEffect(adding, ev.ec == EC_EST, c, dar, dsl);
      if n.None? {
        RemoveOk(g, tb, rng, ev);
      } else if Zero.Lt(n.value.attemptRate) {
        TouchedOk(g, tb, rng, ev, n.value);
      }
    }
  }

  // ---------------------------------------------------------------------
  // The operation

  /** One affected event: the body of the loop over `ets2relations`, which
   *  leaves the state `AngleStep` describes. */
  method AngleOnEvent(w: World, adding: bool, ev: Event, dar: Ext, dsl: Ext) returns (ok: bool)
    requires w.Valid() && Zero.Le(dar) && dsl.Fin?
    modifies w
    ensures ok == AngleStep(old(w.g), w.tb, w.rng, adding, ev, dar, dsl).Some?
    ensures ok ==> w.Valid() && w.g == AngleStep(old(w.g), w.tb, w.rng, adding, ev, dar, dsl).value
  {
    var c := StoredCounts(w.g.ev2data, ev);
    if !adding && !(c.Some? && c.value.nAngles > 0) {
      return false;
    }
    AngleEffectBounds(adding, ev.ec == EC_EST, c, dar, dsl);
    var n := AngleEffect(adding, ev.ec == EC_EST, c, dar, dsl);
    if n.None? {
      RemoveEvent(w, ev);
      return true;
    }
    if !Zero.Lt(n.value.attemptRate) {
      return false;
    }
    if ev in w.g.ev2data {
      var x := DataOf(n.value, w.g.ev2data[ev].t);
      RetouchedOk(w.g, w.tb, w.rng, ev, x);
      w.g := Stored(w.g, ev, x);
      RescheduleEvent(w, ev);
    } else {
      var x := DataOf(n.value, NegInf);
      StoredOk(w.g, w.tb, w.rng, ev, x);
      w.g := Stored(w.g, ev, x);
      ScheduleEvent(w, ev);
    }
    ok := true;
  }

  /** The change in the global angle count: one up for an added angle and
   *  one down for a deleted one, counted only when the three entities are
   *  pairwise distinct. */
  function AngleCountDelta(ecAngle: EventClass, e1: Entity, e2: Entity, e3: Entity): (d: int)
    ensures d != 0 <==> e1 != e2 && e2 != e3 && e3 != e1
    ensures d != 0 ==> (d == 1 <==> ecAngle == EC_EST) && (d == -1 <==> ecAngle != EC_EST)
  {
    if e1 != e2 && e2 != e3 && e3 != e1 then (if ecAngle == EC_EST then 1 else -1) else 0
  }

  /** The treatment of one relation `rat13` of (et1, et3): the event the
   *  angle affects and, if the angle influences its type, `AngleStep` with
   *  the influences of the angle type `at` on that event type. */
  function RatStep(g: Globals, tb: Tables, rng: Rng, adding: bool, e1: Entity, et1: EntityType, at: AngleType,
                   e3: Entity, et3: EntityType, rat13: Rat): (r: Option<Globals>)
    requires g.currentT.Fin?
  {
    var ev := AngleTarget(g, e1, rat13, e3);
    var evt := EventType(ev.ec, et1, rat13, et3);
    if Influences(tb, evt, at) then
      var i := InfluenceType(evt, at);
      AngleStep(g, tb, rng, adding, ev, AttemptRateOf(tb, i), DeltaProbunitOf(tb, i))
    else Some(g)
  }

  /** The loop over the relations `rats`, in order, stopping at the first
   *  step that fails. */
  function AngleLoop(g: Globals, tb: Tables, rng: Rng, adding: bool, e1: Entity, et1: EntityType, at: AngleType,
                     e3: Entity, et3: EntityType, rats: seq<Rat>): (r: Option<Globals>)
    requires g.currentT.Fin?
    decreases |rats|
  {
    if rats == [] then Some(g)
    else
      RatStepKeepsTime(g, tb, rng, adding, e1, et1, at, e3, et3, rats[0]);
      match RatStep(g, tb, rng, adding, e1, et1, at, e3, et3, rats[0])
      case None => None
      case Some(g') => AngleLoop(g', tb, rng, adding, e1, et1, at, e3, et3, rats[1..])
  }

  /** The loop from relation k on is step k followed by the loop from k + 1 on. */
  lemma AngleLoopFirst(g: Globals, tb: Tables, rng: Rng, adding: bool, e1: Entity, et1: EntityType, at: AngleType,
                       e3: Entity, et3: EntityType, rats: seq<Rat>, k: nat)
    requires g.currentT.Fin? && k < |rats|
    ensures var r := RatStep(g, tb, rng, adding, e1, et1, at, e3, et3, rats[k]);
      && (r.None? ==> AngleLoop(g, tb, rng, adding, e1, et1, at, e3, et3, rats[k..]).None?)
      && (r.Some? ==> r.value.currentT.Fin? && AngleLoop(g, tb, rng, adding, e1, et1, at, e3, et3, rats[k..])
                                          == AngleLoop(r.value, tb, rng, adding, e1, et1, at, e3, et3, rats[k + 1..]))
  {
    assert rats[k..][0] == rats[k] && rats[k..][1..] == rats[k + 1..];
    RatStepKeepsTime(g, tb, rng, adding, e1, et1, at, e3, et3, rats[k]);
  }

  /** A step leaves the current time alone. */
  lemma RatStepKeepsTime(g: Globals, tb: Tables, rng: Rng, adding: bool, e1: Entity, et1: EntityType, at: AngleType,
                         e3: Entity, et3: EntityType, rat13: Rat)
    requires g.currentT.Fin?
    ensures var r := RatStep(g, tb, rng, adding, e1, et1, at, e3, et3, rat13);
      r.Some? ==> r.value.currentT == g.currentT
  {
    var ev := AngleTarget(g, e1, rat13, e3);
    var evt := EventType(ev.ec, et1, rat13, et3);
    if Influences(tb, evt, at) {
      var i := InfluenceType(evt, at);
      AngleStepKeepsTime(g, tb, rng, adding, ev, AttemptRateOf(tb, i), DeltaProbunitOf(tb, i));
    }
  }

  lemma AngleStepKeepsTime(g: Globals, tb: Tables, rng: Rng, adding: bool, ev: Event, dar: Ext, dsl: Ext)
    requires g.currentT.Fin?
    ensures var r := AngleStep(g, tb, rng, adding, ev, dar, dsl); r.Some? ==> r.value.currentT == g.currentT
  {
  }

  /** The state `add_or_delete_angle` leaves, None where it stops. */
  function AngleUpdated(g: Globals, tb: Tables, rng: Rng, ecAngle: EventClass, e1: Entity, et1: EntityType, rat12: Rat,
                        e2: Entity, et2: EntityType, rat23: Rat, e3: Entity, et3: EntityType): (r: Option<Globals>)
    requires g.currentT.Fin?
  {
    AngleLoop(g.(nAngles := g.nAngles + AngleCountDelta(ecAngle, e1, e2, e3)), tb, rng, ecAngle == EC_EST,
              e1, et1, AngleType(rat12, et2, rat23), e3, et3, Relations(tb, et1, et3))
  }

  /** One relation: the invariant holds afterwards and the counts are those
   *  `Expected` gives for that relation alone. */
  lemma RatStepOk(g: Globals, tb: Tables, rng: Rng, adding: bool, e1: Entity, et1: EntityType, at: AngleType,
                  e3: Entity, et3: EntityType, rat13: Rat)
    requires GlobalsOk(g, tb, rng, None)
    ensures var r := RatStep(g, tb, rng, adding, e1, et1, at, e3, et3, rat13);
      r.Some? ==>
        && GlobalsOk(r.value, tb, rng, None) && EventsOnly(g, r.value)
        && forall x :: StoredCounts(r.value.ev2data, x) == Expected(g, tb, adding, e1, et1, at, e3, et3, [rat13], x)
  {
    var ev := AngleTarget(g, e1, rat13, e3);
    var evt := EventType(ev.ec, et1, rat13, et3);
    if Influences(tb, evt, at) {
      var i := InfluenceType(evt, at);
      TableValues(tb, i);
      AngleStepOk(g, tb, rng, adding, ev, AttemptRateOf(tb, i), DeltaProbunitOf(tb, i));
    }
  }

  /** Treating the first relation and then the rest gives, for the rest, the
   *  counts `Expected` gives for all of them, as the relations are
   *  distinct and only the event bookkeeping changed. */
  lemma ExpectedCons(g: Globals, g': Globals, tb: Tables, adding: bool, e1: Entity, et1: EntityType, at: AngleType,
                     e3: Entity, et3: EntityType, rats: seq<Rat>)
    requires rats != [] && Distinct(rats) && EventsOnly(g, g')
    requires forall x :: StoredCounts(g'.ev2data, x) == Expected(g, tb, adding, e1, et1, at, e3, et3, [rats[0]], x)
    ensures forall x :: Expected(g', tb, adding, e1, et1, at, e3, et3, rats[1..], x)
                        == Expected(g, tb, adding, e1, et1, at, e3, et3, rats, x)
  {
    assert rats[0] !in rats[1..] by {
      forall j | 0 <= j < |rats| - 1 ensures rats[1..][j] != rats[0] { assert rats[1..][j] == rats[j + 1]; }
    }
    forall x ensures Expected(g', tb, adding, e1, et1, at, e3, et3, rats[1..], x)
                     == Expected(g, tb, adding, e1, et1, at, e3, et3, rats, x)
    {
      assert x.rat13 in rats <==> x.rat13 == rats[0] || x.rat13 in rats[1..];
      assert AngleTarget(g', e1, x.rat13, e3) == AngleTarget(g, e1, x.rat13, e3);
    }
  }

  /** The loop keeps the invariant and leaves every event with the counts
   *  `Expected` gives: the angle's effect on each affected event it
   *  influences, once per relation, and no change elsewhere. */
  lemma {:induction false} AngleLoopOk(g: Globals, tb: Tables, rng: Rng, adding: bool, e1: Entity, et1: EntityType,
                                       at: AngleType, e3: Entity, et3: EntityType, rats: seq<Rat>)
    requires GlobalsOk(g, tb, rng, None) && Distinct(rats)
    ensures var r := AngleLoop(g, tb, rng, adding, e1, et1, at, e3, et3, rats);
      r.Some? ==>
        && GlobalsOk(r.value, tb, rng, None) && EventsOnly(g, r.value)
        && forall x :: StoredCounts(r.value.ev2data, x) == Expected(g, tb, adding, e1, et1, at, e3, et3, rats, x)
    decreases |rats|
  {
    if rats == [] {
      forall x ensures StoredCounts(g.ev2data, x) == Expected(g, tb, adding, e1, et1, at, e3, et3, rats, x) {
      }
    } else {
      var r1 := RatStep(g, tb, rng, adding, e1, et1, at, e3, et3, rats[0]);
      RatStepOk(g, tb, rng, adding, e1, et1, at, e3, et3, rats[0]);
      if r1.Some? {
        assert Distinct(rats[1..]) by {
          forall i, j | 0 <= i < j < |rats| - 1 ensures rats[1..][i] != rats[1..][j] {
            assert rats[1..][i] == rats[i + 1] && rats[1..][j] == rats[j + 1];
          }
        }
        AngleLoopOk(r1.value, tb, rng, adding, e1, et1, at, e3, et3, rats[1..]);
        ExpectedCons(g, r1.value, tb, adding, e1, et1, at, e3, et3, rats);
      }
    }
  }

  /** What `add_or_delete_angle` promises: the invariant holds afterwards,
   *  only the angle count and the event bookkeeping change, the angle count
   *  moves by `AngleCountDelta`, and every event between e1 and e3 for a
   *  relation of (et1, et3) that the angle influences has the counts
   *  `AngleEffect` gives while every other event keeps its counts. */
  lemma AngleUpdatedOk(g: Globals, tb: Tables, rng: Rng, ecAngle: EventClass, e1: Entity, et1: EntityType, rat12: Rat,
                       e2: Entity, et2: EntityType, rat23: Rat, e3: Entity, et3: EntityType)
    requires GlobalsOk(g, tb, rng, None)
    ensures var r := AngleUpdated(g, tb, rng, ecAngle, e1, et1, rat12, e2, et2, rat23, e3, et3);
      r.Some? ==>
        && GlobalsOk(r.value, tb, rng, None)
        && EventsOnly(g.(nAngles := g.nAngles + AngleCountDelta(ecAngle, e1, e2, e3)), r.value)
        && forall x :: StoredCounts(r.value.ev2data, x)
                       == Expected(g, tb, ecAngle == EC_EST, e1, et1, AngleType(rat12, et2, rat23), e3, et3,
                                   Relations(tb, et1, et3), x)
  {
    var g1 := g.(nAngles := g.nAngles + AngleCountDelta(ecAngle, e1, e2, e3));
    var at := AngleType(rat12, et2, rat23);
    var rats := Relations(tb, et1, et3);
    var r := AngleLoop(g1, tb, rng, ecAngle == EC_EST, e1, et1, at, e3, et3, rats);
    assert r == AngleUpdated(g, tb, rng, ecAngle, e1, et1, rat12, e2, et2, rat23, e3, et3);
    if r.Some? {
      CountersFree(g, g1, tb, rng, None);
      AngleLoopOk(g1, tb, rng, ecAngle == EC_EST, e1, et1, at, e3, et3, rats);
      ExpectedIgnoresRest(g, g1, tb, ecAngle == EC_EST, e1, et1, at, e3, et3, rats);
    }
  }

  /** `Expected` reads only the stored events and the out-legs. */
  lemma ExpectedIgnoresRest(g: Globals, g': Globals, tb: Tables, adding: bool, e1: Entity, et1: EntityType,
                            at: AngleType, e3: Entity, et3: EntityType, rats: seq<Rat>)
    requires g'.ev2data == g.ev2data && g'.e2outs == g.e2outs
    ensures forall x :: Expected(g', tb, adding, e1, et1, at, e3, et3, rats, x)
                        == Expected(g, tb, adding, e1, et1, at, e3, et3, rats, x)
  {
    forall x ensures Expected(g', tb, adding, e1, et1, at, e3, et3, rats, x)
                     == Expected(g, tb, adding, e1, et1, at, e3, et3, rats, x)
    {
      assert AngleTarget(g', e1, x.rat13, e3) == AngleTarget(g, e1, x.rat13, e3);
    }
  }

  /** `add_or_delete_angle`: the angle count first, then the loop over the
   *  relations of (et1, et3). */
  method AddOrDeleteAngle(w: World, ecAngle: EventClass, e1: Entity, et1: EntityType, rat12: Rat,
                          e2: Entity, et2: EntityType, rat23: Rat, e3: Entity, et3: EntityType)
    returns (ok: bool)
    requires w.Valid()
    modifies w
    ensures ok == AngleUpdated(old(w.g), w.tb, w.rng, ecAngle, e1, et1, rat12, e2, et2, rat23, e3, et3).Some?
    ensures ok ==> w.Valid() && w.g == AngleUpdated(old(w.g), w.tb, w.rng, ecAngle, e1, et1, rat12, e2, et2, rat23, e3, et3).value
  {
    w.g := w.g.(nAngles := w.g.nAngles + AngleCountDelta(ecAngle, e1, e2, e3));
    ok := RelationsLoop(w, ecAngle == EC_EST, e1, et1, AngleType(rat12, et2, rat23), e3, et3,
                        Relations(w.tb, et1, et3));
  }

  /** The loop over `ets2relations[{et1, et3}]`. */
  method RelationsLoop(w: World, adding: bool, e1: Entity, et1: EntityType, at: AngleType,
                       e3: Entity, et3: EntityType, rats: seq<Rat>) returns (ok: bool)
    requires w.Valid()
    modifies w
    ensures ok == AngleLoop(old(w.g), w.tb, w.rng, adding, e1, et1, at, e3, et3, rats).Some?
    ensures ok ==> w.Valid() && w.g == AngleLoop(old(w.g), w.tb, w.rng, adding, e1, et1, at, e3, et3, rats).value
  {
    var k := 0;
    while k < |rats|
      invariant 0 <= k <= |rats| && w.Valid()
      invariant AngleLoop(old(w.g), w.tb, w.rng, adding, e1, et1, at, e3, et3, rats)
                == AngleLoop(w.g, w.tb, w.rng, adding, e1, et1, at, e3, et3, rats[k..])
    {
      AngleLoopFirst(w.g, w.tb, w.rng, adding, e1, et1, at, e3, et3, rats, k);
      ok := RelationStep(w, adding, e1, et1, at, e3, et3, rats[k]);
      if !ok {
        return;
      }
      k := k + 1;
    }
    ok := true;
  }

  /** The body of the loop over `ets2relations[{et1, et3}]` for `rat13`. */
  method RelationStep(w: World, adding: bool, e1: Entity, et1: EntityType, at: AngleType,
                      e3: Entity, et3: EntityType, rat13: Rat) returns (ok: bool)
    requires w.Valid()
    modifies w
    ensures ok == RatStep(old(w.g), w.tb, w.rng, adding, e1, et1, at, e3, et3, rat13).Some?
    ensures ok ==> w.Valid() && w.g == RatStep(old(w.g), w.tb, w.rng, adding, e1, et1, at, e3, et3, rat13).value
  {
    var ev := AngleTarget(w.g, e1, rat13, e3);
    var evt := EventType(ev.ec, et1, rat13, et3);
    if Influences(w.tb, evt, at) {
      var i := InfluenceType(evt, at);
      TableValues(w.tb, i);
      ok := AngleOnEvent(w, adding, ev, AttemptRateOf(w.tb, i), DeltaProbunitOf(w.tb, i));
    } else {
      ok := true;
    }
  }
}
