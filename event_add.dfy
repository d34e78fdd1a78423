/** `add_event` and `add_reverse_event` of src/event.cpp: a new event's
 *  attempt rate and success probunits are summed from the base probunit of
 *  its type, the influences of the legs at its ends (termination events
 *  only) and those of the angles it closes; it is stored and scheduled on
 *  its own only if it is a termination event or some angle influences it. */
module EventAdd {
  import opened Wrappers
  import opened ExtReal
  import opened DataModel
  import opened State
  import opened Events
  import opened Angles
  import opened AngleUpdate
  import opened Bits

  // ---------------------------------------------------------------------
  // The running totals

  /** The totals `add_event` keeps: attempt rate, success probunits and the
   *  number of influencing angles. */
  datatype Sums = Sums(ar: Ext, spu: Ext, na: nat)

  /** The bounds the totals keep: a non-negative rate and probunits above
   *  minus infinity. */
  predicate SumsBounded(s: Sums) {
    Zero.Le(s.ar) && s.spu != NegInf
  }

  /** `ar += _inflt2attempt_rate[INFLT(i)]; spu += _inflt2delta_probunit[INFLT(i)]`. */
  function WithInfluence(tb: Tables, s: Sums, i: InfluenceType): Sums {
    Sums(s.ar.Plus(AttemptRateOf(tb, i)), s.spu.Plus(DeltaProbunitOf(tb, i)), s.na)
  }

  lemma WithInfluenceBounded(tb: Tables, s: Sums, i: InfluenceType)
    requires TablesOk(tb) && SumsBounded(s)
    ensures SumsBounded(WithInfluence(tb, s, i)) && WithInfluence(tb, s, i).na == s.na
  {
    TableValues(tb, i);
    PlusBounds(s.ar, AttemptRateOf(tb, i));
    PlusBounds(s.spu, DeltaProbunitOf(tb, i));
  }

  /** The angle types of a leg at e1 (to e2, no second leg), of a leg at e3
   *  (from e2, no first leg) and of an angle. */
  function OutLegAngle(e2et: map<Entity, EntityType>, l: OutLeg): AngleType {
    AngleType(l.ratOut, EtOf(e2et, l.eOther), NO_RAT)
  }

  function InLegAngle(e2et: map<Entity, EntityType>, l: InLeg): AngleType {
    AngleType(NO_RAT, EtOf(e2et, l.eOther), l.ratIn)
  }

  function AngleTypeOf(e2et: map<Entity, EntityType>, a: Angle): AngleType {
    AngleType(a.rat12, EtOf(e2et, a.e2), a.rat23)
  }

  /** The angle type that src/event.cpp:110 and src/event.cpp:318 build from
   *  an out-leg as written: the binding `[e2, rat12]` takes the fields of
   *  `outleg` in declaration order (`rat_out`, `e_other`), so the
   *  relationship type is read as the other entity and the other entity's
   *  id as a relationship type. */
  function OutLegAngleAsWritten(e2et: map<Entity, EntityType>, l: OutLeg): AngleType {
    AngleType(ToSizeT(l.eOther), EtOf(e2et, l.ratOut as int), NO_RAT)
  }

  /** The reading as written agrees with the intended one only on a leg whose
   *  relationship type equals the other entity's id. */
  lemma OutLegAngleAsWrittenMisreads(e2et: map<Entity, EntityType>, l: OutLeg)
    requires 0 <= l.eOther < Pow2(E_BITS)
    ensures OutLegAngleAsWritten(e2et, l) == OutLegAngle(e2et, l) ==> l.eOther == l.ratOut as int
  {
    SizeTOfSmall(l.eOther);
  }

  /** A leg of type 2 to entity 5 (of type 3, where entity 2 has type 1) is
   *  read as a leg of type 5 to an entity of type 1. */
  lemma OutLegAngleAsWrittenExample()
    ensures var e2et, l := map[2 := 1, 5 := 3], OutLeg(2, 5);
      OutLegAngle(e2et, l) == AngleType(2, 3, NO_RAT) && OutLegAngleAsWritten(e2et, l) == AngleType(5, 1, NO_RAT)
  {
    Pow2Values();
    SizeTOfSmall(5);
  }

  /** The intended reading names the leg's own relationship type and the
   *  type of the entity it leads to, and with ids that fit their fields its
   *  `INFLT` index lies inside the tables and decodes back to exactly that
   *  influence. */
  lemma OutLegInfluenceInRange(e2et: map<Entity, EntityType>, evt: EventType, l: OutLeg)
    requires evt.et1 < Pow2(ET_BITS) && evt.et3 < Pow2(ET_BITS) && evt.rat13 < Pow2(RAT_BITS)
    requires l.ratOut < Pow2(RAT_BITS) && EtOf(e2et, l.eOther) < Pow2(ET_BITS)
    ensures var i := InfluenceType(evt, OutLegAngle(e2et, l));
      && Inflt(i) < MaxNInflt()
      && InfltDecodeWith(ET_BITS, RAT_BITS, Inflt(i)) == Some(InfluenceType(evt, AngleType(l.ratOut, EtOf(e2et, l.eOther), NO_RAT)))
  {
    Pow2Values();
    InfltRoundTrip(ET_BITS, RAT_BITS, InfluenceType(evt, OutLegAngle(e2et, l)));
  }

  /** The totals after the loop over the out-legs of e1. */
  function OutLegSums(tb: Tables, e2et: map<Entity, EntityType>, evt: EventType, s: Sums, outs: seq<OutLeg>): Sums
    decreases |outs|
  {
    if outs == [] then s
    else
      var m := |outs| - 1;
      WithInfluence(tb, OutLegSums(tb, e2et, evt, s, outs[..m]), InfluenceType(evt, OutLegAngle(e2et, outs[m])))
  }

  /** The totals after the loop over the in-legs of e3. */
  function InLegSums(tb: Tables, e2et: map<Entity, EntityType>, evt: EventType, s: Sums, ins: seq<InLeg>): Sums
    decreases |ins|
  {
    if ins == [] then s
    else
      var m := |ins| - 1;
      WithInfluence(tb, InLegSums(tb, e2et, evt, s, ins[..m]), InfluenceType(evt, InLegAngle(e2et, ins[m])))
  }

  /** Whether an angle of type `at` influences events of type `evt`: a
   *  non-zero change of attempt rate or of success probunits. */
  predicate Influential(tb: Tables, evt: EventType, at: AngleType) {
    AttemptRateOf(tb, InfluenceType(evt, at)) != Zero || DeltaProbunitOf(tb, InfluenceType(evt, at)) != Zero
  }

  /** The totals after the loop over the angles: each influencing angle adds
   *  its influences and one to the count. */
  function AngleSums(tb: Tables, e2et: map<Entity, EntityType>, evt: EventType, s: Sums, angles: seq<Angle>): Sums
    decreases |angles|
  {
    if angles == [] then s
    else
      var m := |angles| - 1;
      var p := AngleSums(tb, e2et, evt, s, angles[..m]);
      var at := AngleTypeOf(e2et, angles[m]);
      if Influential(tb, evt, at) then
        Sums(p.ar.Plus(AttemptRateOf(tb, InfluenceType(evt, at))),
             p.spu.Plus(DeltaProbunitOf(tb, InfluenceType(evt, at))), p.na + 1)
      else p
  }

  /** The number of angles in `angles` that count for events of type `evt`:
   *  every angle when `all` holds, the influencing ones otherwise. */
  function CountAngles(tb: Tables, e2et: map<Entity, EntityType>, evt: EventType, angles: seq<Angle>, all: bool): nat
    decreases |angles|
  {
    if angles == [] then 0
    else
      var m := |angles| - 1;
      CountAngles(tb, e2et, evt, angles[..m], all) + (if all || Influential(tb, evt, AngleTypeOf(e2et, angles[m])) then 1 else 0)
  }

  // ---------------------------------------------------------------------
  // Properties of the totals

  lemma {:induction false} OutLegSumsBounded(tb: Tables, e2et: map<Entity, EntityType>, evt: EventType, s: Sums,
                                             outs: seq<OutLeg>)
    requires TablesOk(tb) && SumsBounded(s)
    ensures SumsBounded(OutLegSums(tb, e2et, evt, s, outs)) && OutLegSums(tb, e2et, evt, s, outs).na == s.na
    decreases |outs|
  {
    if outs != [] {
      var m := |outs| - 1;
      OutLegSumsBounded(tb, e2et, evt, s, outs[..m]);
      WithInfluenceBounded(tb, OutLegSums(tb, e2et, evt, s, outs[..m]), InfluenceType(evt, OutLegAngle(e2et, outs[m])));
    }
  }

  lemma {:induction false} InLegSumsBounded(tb: Tables, e2et: map<Entity, EntityType>, evt: EventType, s: Sums,
                                            ins: seq<InLeg>)
    requires TablesOk(tb) && SumsBounded(s)
    ensures SumsBounded(InLegSums(tb, e2et, evt, s, ins)) && InLegSums(tb, e2et, evt, s, ins).na == s.na
    decreases |ins|
  {
    if ins != [] {
      var m := |ins| - 1;
      InLegSumsBounded(tb, e2et, evt, s, ins[..m]);
      WithInfluenceBounded(tb, InLegSums(tb, e2et, evt, s, ins[..m]), InfluenceType(evt, InLegAngle(e2et, ins[m])));
    }
  }

  /** The angle loop keeps the bounds and counts exactly the influencing
   *  angles. */
  lemma {:induction false} AngleSumsCounts(tb: Tables, e2et: map<Entity, EntityType>, evt: EventType, s: Sums,
                                           angles: seq<Angle>)
    requires TablesOk(tb) && SumsBounded(s)
    ensures SumsBounded(AngleSums(tb, e2et, evt, s, angles))
    ensures AngleSums(tb, e2et, evt, s, angles).na == s.na + CountAngles(tb, e2et, evt, angles, false)
    decreases |angles|
  {
    if angles != [] {
      var m := |angles| - 1;
      var p := AngleSums(tb, e2et, evt, s, angles[..m]);
      AngleSumsCounts(tb, e2et, evt, s, angles[..m]);
      var at := AngleTypeOf(e2et, angles[m]);
      var i := InfluenceType(evt, at);
      var c := CountAngles(tb, e2et, evt, angles[..m], false);
      if Influential(tb, evt, at) {
        TableValues(tb, i);
        PlusBounds(p.ar, AttemptRateOf(tb, i));
        PlusBounds(p.spu, DeltaProbunitOf(tb, i));
        assert CountAngles(tb, e2et, evt, angles, false) == c + 1;
      } else {
        assert CountAngles(tb, e2et, evt, angles, false) == c;
      }
    }
  }

  /** At most every angle counts, and some angle counts exactly when the
   *  count is positive. */
  lemma {:induction false} CountAnglesPositive(tb: Tables, e2et: map<Entity, EntityType>, evt: EventType,
                                               angles: seq<Angle>, all: bool)
    ensures CountAngles(tb, e2et, evt, angles, all) <= |angles|
    ensures CountAngles(tb, e2et, evt, angles, all) > 0 <==>
      exists k :: 0 <= k < |angles| && (all || Influential(tb, evt, AngleTypeOf(e2et, angles[k])))
    decreases |angles|
  {
    if angles != [] {
      var m := |angles| - 1;
      CountAnglesPositive(tb, e2et, evt, angles[..m], all);
      if CountAngles(tb, e2et, evt, angles[..m], all) > 0 {
        var k :| 0 <= k < m && (all || Influential(tb, evt, AngleTypeOf(e2et, angles[..m][k])));
        assert angles[..m][k] == angles[k];
      } else {
        forall j | 0 <= j < m
          ensures !(all || Influential(tb, evt, AngleTypeOf(e2et, angles[j])))
        {
          assert angles[..m][j] == angles[j];
        }
      }
    }
  }

  // ---------------------------------------------------------------------
  // add_event

  /** `evt`: the event's class and relationship, and its ends' types. */
  function TypeOf(g: Globals, ev: Event): (evt: EventType)
    ensures evt.ec == ev.ec && evt.rat13 == ev.rat13
    ensures evt.et1 == EtOf(g.e2et, ev.e1) && evt.et3 == EtOf(g.e2et, ev.e3)
  {
    EventType(ev.ec, EtOf(g.e2et, ev.e1), ev.rat13, EtOf(g.e2et, ev.e3))
  }

  /** The totals before the spontaneous part: the base probunit, then the
   *  legs at both ends for a termination event, then the angles. */
  function Totals(g: Globals, tb: Tables, ev: Event): Sums
    requires TypeOf(g, ev) in tb.evt2baseProbunit
  {
    var evt := TypeOf(g, ev);
    var outs1, ins3 := OutsOf(g.e2outs, ev.e1), InsOf(g.e2ins, ev.e3);
    var s0 := Sums(Zero, tb.evt2baseProbunit[evt], 0);
    var s1 := if ev.ec == EC_TERM then InLegSums(tb, g.e2et, evt, OutLegSums(tb, g.e2et, evt, s0, outs1), ins3) else s0;
    AngleSums(tb, g.e2et, evt, s1, AnglesOf(outs1, ins3))
  }

  /** The data stored for a new event: the totals plus the spontaneous
   *  influences (those of NO_ANGLE), unscheduled. */
  function NewData(tb: Tables, evt: EventType, s: Sums): EventData {
    var i := InfluenceType(evt, NO_ANGLE);
    EventData(s.na, s.ar.Plus(AttemptRateOf(tb, i)), s.spu.Plus(DeltaProbunitOf(tb, i)), NegInf)
  }

  /** The state `add_event(ev)` leaves, None where it stops: the assertion on
   *  the identity relationship and on self-links, `leg_intersection` on an
   *  empty out-leg set or an out-leg whose type lies outside 1..nRats, the
   *  assertion that the event is not yet stored, and the positive rate that
   *  `_schedule_event` asserts. */
  function EventAdded(g: Globals, tb: Tables, rng: Rng, ev: Event): (r: Option<Globals>)
    requires g.currentT.Fin?
  {
    if ev.rat13 == RT_ID || ev.e1 == ev.e3 then None
    else if TypeOf(g, ev) !in tb.evt2baseProbunit then Some(g)
    else
      var outs1 := OutsOf(g.e2outs, ev.e1);
      if outs1 == [] || !OutRatsIn(outs1, tb.nRats) then None
      else
        var s := Totals(g, tb, ev);
        if ev.ec != EC_TERM && s.na == 0 then Some(g)
        else
          var x := NewData(tb, TypeOf(g, ev), s);
          if ev in g.ev2data || !Zero.Lt(x.attemptRate) then None
          else Some(Scheduled(Stored(g, ev, x), tb, rng, ev))
  }

  /** Whether `add_event(ev)` stores the event on its own: its type can
   *  happen at all, and it is a termination event or some angle between its
   *  ends influences it. */
  predicate StoresIndividually(g: Globals, tb: Tables, ev: Event) {
    var angles := AnglesOf(OutsOf(g.e2outs, ev.e1), InsOf(g.e2ins, ev.e3));
    && TypeOf(g, ev) in tb.evt2baseProbunit
    && (ev.ec == EC_TERM || exists k :: 0 <= k < |angles| && Influential(tb, TypeOf(g, ev), AngleTypeOf(g.e2et, angles[k])))
  }

  /** The totals keep their bounds and count the influencing angles between
   *  the ends. */
  lemma TotalsBounded(g: Globals, tb: Tables, ev: Event)
    requires TablesOk(tb) && TypeOf(g, ev) in tb.evt2baseProbunit
    ensures SumsBounded(Totals(g, tb, ev))
    ensures Totals(g, tb, ev).na
            == CountAngles(tb, g.e2et, TypeOf(g, ev), AnglesOf(OutsOf(g.e2outs, ev.e1), InsOf(g.e2ins, ev.e3)), false)
    ensures DataBounds(NewData(tb, TypeOf(g, ev), Totals(g, tb, ev)))
  {
    var evt := TypeOf(g, ev);
    var outs1, ins3 := OutsOf(g.e2outs, ev.e1), InsOf(g.e2ins, ev.e3);
    var s0 := Sums(Zero, tb.evt2baseProbunit[evt], 0);
    OutLegSumsBounded(tb, g.e2et, evt, s0, outs1);
    InLegSumsBounded(tb, g.e2et, evt, OutLegSums(tb, g.e2et, evt, s0, outs1), ins3);
    var s1 := if ev.ec == EC_TERM then InLegSums(tb, g.e2et, evt, OutLegSums(tb, g.e2et, evt, s0, outs1), ins3) else s0;
    AngleSumsCounts(tb, g.e2et, evt, s1, AnglesOf(outs1, ins3));
    var s := Totals(g, tb, ev);
    WithInfluenceBounded(tb, s, InfluenceType(evt, NO_ANGLE));
  }

  /** `add_event` either changes nothing or stores the new event with the
   *  data `NewData` gives and schedules it. */
  lemma EventAddedShape(g: Globals, tb: Tables, rng: Rng, ev: Event)
    requires g.currentT.Fin?
    ensures var r := EventAdded(g, tb, rng, ev);
      r.Some? ==>
        || r.value == g
        || (&& TypeOf(g, ev) in tb.evt2baseProbunit && ev !in g.ev2data
            && r.value == Scheduled(Stored(g, ev, NewData(tb, TypeOf(g, ev), Totals(g, tb, ev))), tb, rng, ev))
  {
  }

  /** `add_event` keeps the invariant, changes only the event bookkeeping
   *  and leaves every other event's counts. */
  lemma EventAddedOk(g: Globals, tb: Tables, rng: Rng, ev: Event)
    requires GlobalsOk(g, tb, rng, None)
    ensures var r := EventAdded(g, tb, rng, ev);
      r.Some? ==> GlobalsOk(r.value, tb, rng, None) && EventsOnly(g, r.value)
                  && forall y :: y != ev ==> StoredCounts(r.value.ev2data, y) == StoredCounts(g.ev2data, y)
  {
    var r := EventAdded(g, tb, rng, ev);
    EventAddedShape(g, tb, rng, ev);
    if r.Some? && r.value != g {
      TotalsBounded(g, tb, ev);
      StoreScheduleOk(g, tb, rng, ev, NewData(tb, TypeOf(g, ev), Totals(g, tb, ev)));
    }
  }

  /** What `add_event` stores when the event is to be stored on its own: the
   *  event, which was not stored before, with the number of influencing
   *  angles between its ends, a positive attempt rate and a time. */
  lemma EventAddedStores(g: Globals, tb: Tables, rng: Rng, ev: Event)
    requires GlobalsOk(g, tb, rng, None)
    ensures var r := EventAdded(g, tb, rng, ev);
      r.Some? && StoresIndividually(g, tb, ev) ==>
        && ev !in g.ev2data && ev in r.value.ev2data
        && r.value.ev2data[ev].nAngles
           == CountAngles(tb, g.e2et, TypeOf(g, ev), AnglesOf(OutsOf(g.e2outs, ev.e1), InsOf(g.e2ins, ev.e3)), false)
        && Zero.Lt(r.value.ev2data[ev].attemptRate) && r.value.ev2data[ev].t != NegInf
  {
    var r := EventAdded(g, tb, rng, ev);
    if r.Some? && StoresIndividually(g, tb, ev) {
      var angles := AnglesOf(OutsOf(g.e2outs, ev.e1), InsOf(g.e2ins, ev.e3));
      TotalsBounded(g, tb, ev);
      CountAnglesPositive(tb, g.e2et, TypeOf(g, ev), angles, false);
      var x := NewData(tb, TypeOf(g, ev), Totals(g, tb, ev));
      assert r == Some(Scheduled(Stored(g, ev, x), tb, rng, ev));
      StoreScheduleOk(g, tb, rng, ev, x);
    }
  }

  /** Otherwise `add_event` changes nothing; the identity relationship and
   *  self-links stop it. */
  lemma EventAddedSkips(g: Globals, tb: Tables, rng: Rng, ev: Event)
    requires GlobalsOk(g, tb, rng, None)
    ensures ev.rat13 == RT_ID || ev.e1 == ev.e3 ==> EventAdded(g, tb, rng, ev).None?
    ensures var r := EventAdded(g, tb, rng, ev);
      r.Some? && !StoresIndividually(g, tb, ev) ==> r.value == g
  {
    var r := EventAdded(g, tb, rng, ev);
    if r.Some? && !StoresIndividually(g, tb, ev) && TypeOf(g, ev) in tb.evt2baseProbunit {
      var angles := AnglesOf(OutsOf(g.e2outs, ev.e1), InsOf(g.e2ins, ev.e3));
      TotalsBounded(g, tb, ev);
      CountAnglesPositive(tb, g.e2et, TypeOf(g, ev), angles, false);
    }
  }

  // ---------------------------------------------------------------------
  // The loops of add_event

  method SumOutLegs(tb: Tables, e2et: map<Entity, EntityType>, evt: EventType, s0: Sums, outs: seq<OutLeg>)
    returns (s: Sums)
    ensures s == OutLegSums(tb, e2et, evt, s0, outs)
  {
    s := s0;
    for k := 0 to |outs|
      invariant s == OutLegSums(tb, e2et, evt, s0, outs[..k])
    {
      assert outs[..k + 1][..k] == outs[..k];
      s := WithInfluence(tb, s, InfluenceType(evt, AngleType(outs[k].ratOut, EtOf(e2et, outs[k].eOther), NO_RAT)));
    }
    assert outs[..|outs|] == outs;
  }

  method SumInLegs(tb: Tables, e2et: map<Entity, EntityType>, evt: EventType, s0: Sums, ins: seq<InLeg>)
    returns (s: Sums)
    ensures s == InLegSums(tb, e2et, evt, s0, ins)
  {
    s := s0;
    for k := 0 to |ins|
      invariant s == InLegSums(tb, e2et, evt, s0, ins[..k])
    {
      assert ins[..k + 1][..k] == ins[..k];
      s := WithInfluence(tb, s, InfluenceType(evt, AngleType(NO_RAT, EtOf(e2et, ins[k].eOther), ins[k].ratIn)));
    }
    assert ins[..|ins|] == ins;
  }

  method SumAngles(tb: Tables, e2et: map<Entity, EntityType>, evt: EventType, s0: Sums, angles: seq<Angle>)
    returns (s: Sums)
    ensures s == AngleSums(tb, e2et, evt, s0, angles)
  {
    s := s0;
    for k := 0 to |angles|
      invariant s == AngleSums(tb, e2et, evt, s0, angles[..k])
    {
      assert angles[..k + 1][..k] == angles[..k];
      var i := InfluenceType(evt, AngleType(angles[k].rat12, EtOf(e2et, angles[k].e2), angles[k].rat23));
      var dar, dsl := AttemptRateOf(tb, i), DeltaProbunitOf(tb, i);
      if dar != Zero || dsl != Zero {
        s := Sums(s.ar.Plus(dar), s.spu.Plus(dsl), s.na + 1);
      }
    }
    assert angles[..|angles|] == angles;
  }

  /** `add_event`. */
  method AddEvent(w: World, ev: Event) returns (ok: bool)
    requires w.Valid()
    modifies w
    ensures ok == EventAdded(old(w.g), w.tb, w.rng, ev).Some?
    ensures ok ==> w.Valid() && w.g == EventAdded(old(w.g), w.tb, w.rng, ev).value
  {
    if ev.rat13 == RT_ID || ev.e1 == ev.e3 {
      return false;
    }
    var evt := TypeOf(w.g, ev);
    if evt !in w.tb.evt2baseProbunit {
      return true;
    }
    var outs1, ins3 := OutsOf(w.g.e2outs, ev.e1), InsOf(w.g.e2ins, ev.e3);
    var s := Sums(Zero, w.tb.evt2baseProbunit[evt], 0);
    if ev.ec == EC_TERM {
      s := SumOutLegs(w.tb, w.g.e2et, evt, s, outs1);
      s := SumInLegs(w.tb, w.g.e2et, evt, s, ins3);
    }
    if outs1 == [] || !OutRatsIn(outs1, w.tb.nRats) {
      return false;
    }
    var angles := LegIntersection(outs1, ins3, w.tb.nRats);
    s := SumAngles(w.tb, w.g.e2et, evt, s, angles);
    assert s == Totals(w.g, w.tb, ev);
    if ev.ec == EC_TERM || s.na > 0 {
      var i := InfluenceType(evt, NO_ANGLE);
      var x := EventData(s.na, s.ar.Plus(AttemptRateOf(w.tb, i)), s.spu.Plus(DeltaProbunitOf(w.tb, i)), NegInf);
      if ev in w.g.ev2data || !Zero.Lt(x.attemptRate) {
        return false;
      }
      TotalsBounded(w.g, w.tb, ev);
      StoredOk(w.g, w.tb, w.rng, ev, x);
      w.g := w.g.(ev2data := w.g.ev2data[ev := x]);
      ScheduleEvent(w, ev);
    }
    ok := true;
  }

  // ---------------------------------------------------------------------
  // add_reverse_event

  /** The event that undoes `ev`: establishment for a termination, and
   *  termination for anything else, between the same ends. */
  function ReverseOf(ev: Event): (r: Event)
    ensures r.e1 == ev.e1 && r.rat13 == ev.rat13 && r.e3 == ev.e3
    ensures ev.ec == EC_TERM ==> r.ec == EC_EST
    ensures ev.ec != EC_TERM ==> r.ec == EC_TERM
  {
    Event(if ev.ec == EC_TERM then EC_EST else EC_TERM, ev.e1, ev.rat13, ev.e3)
  }

  /** Reversing a link event twice gives it back. */
  lemma ReverseTwice(ev: Event)
    requires ev.ec != EC_ACT
    ensures ReverseOf(ReverseOf(ev)) == ev
  {
  }

  /** `add_reverse_event`. */
  method AddReverseEvent(w: World, ev: Event) returns (ok: bool)
    requires w.Valid()
    modifies w
    ensures ok == EventAdded(old(w.g), w.tb, w.rng, ReverseOf(ev)).Some?
    ensures ok ==> w.Valid() && w.g == EventAdded(old(w.g), w.tb, w.rng, ReverseOf(ev)).value
  {
    ok := AddEvent(w, ReverseOf(ev));
  }
}
