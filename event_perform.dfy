/** `update_adjacent_events` and `perform_event` of src/event.cpp: an
 *  event adds or deletes its link, adds its reverse event, and updates every
 *  event whose angle count the link changes; a relationship with an inverse
 *  does the same for the inverse link as the companion event. */
module EventPerform {
  import opened Wrappers
  import opened ExtReal
  import opened DataModel
  import opened State
  import opened Events
  import opened Links
  import opened AngleUpdate
  import opened EventAdd

  // ---------------------------------------------------------------------
  // The angle loop leaves the time alone

  lemma {:induction false} AngleLoopKeepsTime(g: Globals, tb: Tables, rng: Rng, adding: bool, e1: Entity,
                                              et1: EntityType, at: AngleType, e3: Entity, et3: EntityType,
                                              rats: seq<Rat>)
    requires g.currentT.Fin?
    ensures var r := AngleLoop(g, tb, rng, adding, e1, et1, at, e3, et3, rats);
      r.Some? ==> r.value.currentT == g.currentT
    decreases |rats|
  {
    if rats != [] {
      RatStepKeepsTime(g, tb, rng, adding, e1, et1, at, e3, et3, rats[0]);
      var r1 := RatStep(g, tb, rng, adding, e1, et1, at, e3, et3, rats[0]);
      if r1.Some? {
        AngleLoopKeepsTime(r1.value, tb, rng, adding, e1, et1, at, e3, et3, rats[1..]);
      }
    }
  }

  lemma AngleUpdatedKeepsTime(g: Globals, tb: Tables, rng: Rng, ecAngle: EventClass, e1: Entity, et1: EntityType,
                              rat12: Rat, e2: Entity, et2: EntityType, rat23: Rat, e3: Entity, et3: EntityType)
    requires g.currentT.Fin?
    ensures var r := AngleUpdated(g, tb, rng, ecAngle, e1, et1, rat12, e2, et2, rat23, e3, et3);
      r.Some? ==> r.value.currentT == g.currentT
  {
    AngleLoopKeepsTime(g.(nAngles := g.nAngles + AngleCountDelta(ecAngle, e1, e2, e3)), tb, rng, ecAngle == EC_EST,
                       e1, et1, AngleType(rat12, et2, rat23), e3, et3, Relations(tb, et1, et3));
  }

  // ---------------------------------------------------------------------
  // update_adjacent_events

  /** The angle e1 -rat12-> e2 -l-> e3 for the out-leg `l` of e2, where the
   *  event's link is the first leg; angles back to e1 are skipped. */
  function FirstLegStep(g: Globals, tb: Tables, rng: Rng, ec: EventClass, e1: Entity, et1: EntityType, rat12: Rat,
                        e2: Entity, et2: EntityType, l: OutLeg): (r: Option<Globals>)
    requires g.currentT.Fin?
    ensures r.Some? ==> r.value.currentT == g.currentT
  {
    var e3 := l.eOther;
    if e1 != e3 then
      AngleUpdatedKeepsTime(g, tb, rng, ec, e1, et1, rat12, e2, et2, l.ratOut, e3, EtOf(g.e2et, e3));
      AngleUpdated(g, tb, rng, ec, e1, et1, rat12, e2, et2, l.ratOut, e3, EtOf(g.e2et, e3))
    else Some(g)
  }

  /** The angle e1 -l-> e2 -rat23-> e3 for the in-leg `l` of e2, where the
   *  event's link is the second leg; angles back to e3 are skipped. */
  function SecondLegStep(g: Globals, tb: Tables, rng: Rng, ec: EventClass, e2: Entity, et2: EntityType, rat23: Rat,
                         e3: Entity, et3: EntityType, l: InLeg): (r: Option<Globals>)
    requires g.currentT.Fin?
    ensures r.Some? ==> r.value.currentT == g.currentT
  {
    var e1 := l.eOther;
    if e1 != e3 then
      AngleUpdatedKeepsTime(g, tb, rng, ec, e1, EtOf(g.e2et, e1), l.ratIn, e2, et2, rat23, e3, et3);
      AngleUpdated(g, tb, rng, ec, e1, EtOf(g.e2et, e1), l.ratIn, e2, et2, rat23, e3, et3)
    else Some(g)
  }

  function FirstLegLoop(g: Globals, tb: Tables, rng: Rng, ec: EventClass, e1: Entity, et1: EntityType, rat12: Rat,
                        e2: Entity, et2: EntityType, legs: seq<OutLeg>): (r: Option<Globals>)
    requires g.currentT.Fin?
    ensures r.Some? ==> r.value.currentT == g.currentT
    decreases |legs|
  {
    if legs == [] then Some(g)
    else
      match FirstLegStep(g, tb, rng, ec, e1, et1, rat12, e2, et2, legs[0])
      case None => None
      case Some(g') => FirstLegLoop(g', tb, rng, ec, e1, et1, rat12, e2, et2, legs[1..])
  }

  function SecondLegLoop(g: Globals, tb: Tables, rng: Rng, ec: EventClass, e2: Entity, et2: EntityType, rat23: Rat,
                         e3: Entity, et3: EntityType, legs: seq<InLeg>): (r: Option<Globals>)
    requires g.currentT.Fin?
    ensures r.Some? ==> r.value.currentT == g.currentT
    decreases |legs|
  {
    if legs == [] then Some(g)
    else
      match SecondLegStep(g, tb, rng, ec, e2, et2, rat23, e3, et3, legs[0])
      case None => None
      case Some(g') => SecondLegLoop(g', tb, rng, ec, e2, et2, rat23, e3, et3, legs[1..])
  }

  /** The state `update_adjacent_events(ev)` leaves, None where an angle
   *  update stops: first the angles with the link ea -rab-> eb as first leg
   *  (one per out-leg of eb), then those with it as second leg (one per
   *  in-leg of ea). */
  function AdjacentUpdated(g: Globals, tb: Tables, rng: Rng, ev: Event): (r: Option<Globals>)
    requires g.currentT.Fin?
    ensures r.Some? ==> r.value.currentT == g.currentT
  {
    var ea, eb := ev.e1, ev.e3;
    match FirstLegLoop(g, tb, rng, ev.ec, ea, EtOf(g.e2et, ea), ev.rat13, eb, EtOf(g.e2et, eb), OutsOf(g.e2outs, eb))
    case None => None
    case Some(g1) =>
      SecondLegLoop(g1, tb, rng, ev.ec, ea, EtOf(g1.e2et, ea), ev.rat13, eb, EtOf(g1.e2et, eb), InsOf(g1.e2ins, ea))
  }

  /** The change of the angle count over the first-leg angles, and over the
   *  second-leg angles. */
  function FirstLegDelta(ec: EventClass, e1: Entity, e2: Entity, legs: seq<OutLeg>): int
    decreases |legs|
  {
    if legs == [] then 0
    else (if e1 != legs[0].eOther then AngleCountDelta(ec, e1, e2, legs[0].eOther) else 0)
         + FirstLegDelta(ec, e1, e2, legs[1..])
  }

  function SecondLegDelta(ec: EventClass, e2: Entity, e3: Entity, legs: seq<InLeg>): int
    decreases |legs|
  {
    if legs == [] then 0
    else (if legs[0].eOther != e3 then AngleCountDelta(ec, legs[0].eOther, e2, e3) else 0)
         + SecondLegDelta(ec, e2, e3, legs[1..])
  }

  /** Only the angle count and the event bookkeeping differ. */
  predicate AnglesAndEventsOnly(g: Globals, g': Globals) {
    EventsOnly(g.(nAngles := g'.nAngles), g')
  }

  lemma AnglesAndEventsOnlyTrans(g1: Globals, g2: Globals, g3: Globals)
    requires AnglesAndEventsOnly(g1, g2) && AnglesAndEventsOnly(g2, g3)
    ensures AnglesAndEventsOnly(g1, g3)
  {
  }

  /** One angle keeps the invariant, changes only the angle count and the
   *  event bookkeeping, and moves the angle count by `AngleCountDelta`. */
  lemma FirstLegStepOk(g: Globals, tb: Tables, rng: Rng, ec: EventClass, e1: Entity, et1: EntityType, rat12: Rat,
                       e2: Entity, et2: EntityType, l: OutLeg)
    requires GlobalsOk(g, tb, rng, None)
    ensures var r := FirstLegStep(g, tb, rng, ec, e1, et1, rat12, e2, et2, l);
      r.Some? ==> && GlobalsOk(r.value, tb, rng, None) && AnglesAndEventsOnly(g, r.value)
                  && r.value.nAngles == g.nAngles + (if e1 != l.eOther then AngleCountDelta(ec, e1, e2, l.eOther) else 0)
  {
    if e1 != l.eOther {
      AngleUpdatedOk(g, tb, rng, ec, e1, et1, rat12, e2, et2, l.ratOut, l.eOther, EtOf(g.e2et, l.eOther));
    }
  }

  lemma SecondLegStepOk(g: Globals, tb: Tables, rng: Rng, ec: EventClass, e2: Entity, et2: EntityType, rat23: Rat,
                        e3: Entity, et3: EntityType, l: InLeg)
    requires GlobalsOk(g, tb, rng, None)
    ensures var r := SecondLegStep(g, tb, rng, ec, e2, et2, rat23, e3, et3, l);
      r.Some? ==> && GlobalsOk(r.value, tb, rng, None) && AnglesAndEventsOnly(g, r.value)
                  && r.value.nAngles == g.nAngles + (if l.eOther != e3 then AngleCountDelta(ec, l.eOther, e2, e3) else 0)
  {
    if l.eOther != e3 {
      AngleUpdatedOk(g, tb, rng, ec, l.eOther, EtOf(g.e2et, l.eOther), l.ratIn, e2, et2, rat23, e3, et3);
    }
  }

  lemma {:induction false} FirstLegLoopOk(g: Globals, tb: Tables, rng: Rng, ec: EventClass, e1: Entity,
                                          et1: EntityType, rat12: Rat, e2: Entity, et2: EntityType, legs: seq<OutLeg>)
    requires GlobalsOk(g, tb, rng, None)
    ensures var r := FirstLegLoop(g, tb, rng, ec, e1, et1, rat12, e2, et2, legs);
      r.Some? ==> && GlobalsOk(r.value, tb, rng, None) && AnglesAndEventsOnly(g, r.value)
                  && r.value.nAngles == g.nAngles + FirstLegDelta(ec, e1, e2, legs)
    decreases |legs|
  {
    if legs != [] {
      var e3 := legs[0].eOther;
      var r1 := FirstLegStep(g, tb, rng, ec, e1, et1, rat12, e2, et2, legs[0]);
      if r1.Some? {
        var g1 := r1.value;
        FirstLegStepOk(g, tb, rng, ec, e1, et1, rat12, e2, et2, legs[0]);
        FirstLegLoopOk(g1, tb, rng, ec, e1, et1, rat12, e2, et2, legs[1..]);
        var r := FirstLegLoop(g, tb, rng, ec, e1, et1, rat12, e2, et2, legs);
        assert r == FirstLegLoop(g1, tb, rng, ec, e1, et1, rat12, e2, et2, legs[1..]);
        if r.Some? {
          AnglesAndEventsOnlyTrans(g, g1, r.value);
        }
      }
    }
  }

  lemma {:induction false} SecondLegLoopOk(g: Globals, tb: Tables, rng: Rng, ec: EventClass, e2: Entity,
                                           et2: EntityType, rat23: Rat, e3: Entity, et3: EntityType, legs: seq<InLeg>)
    requires GlobalsOk(g, tb, rng, None)
    ensures var r := SecondLegLoop(g, tb, rng, ec, e2, et2, rat23, e3, et3, legs);
      r.Some? ==> && GlobalsOk(r.value, tb, rng, None) && AnglesAndEventsOnly(g, r.value)
                  && r.value.nAngles == g.nAngles + SecondLegDelta(ec, e2, e3, legs)
    decreases |legs|
  {
    if legs != [] {
      var e1 := legs[0].eOther;
      var r1 := SecondLegStep(g, tb, rng, ec, e2, et2, rat23, e3, et3, legs[0]);
      if r1.Some? {
        var g1 := r1.value;
        SecondLegStepOk(g, tb, rng, ec, e2, et2, rat23, e3, et3, legs[0]);
        SecondLegLoopOk(g1, tb, rng, ec, e2, et2, rat23, e3, et3, legs[1..]);
        var r := SecondLegLoop(g, tb, rng, ec, e2, et2, rat23, e3, et3, legs);
        assert r == SecondLegLoop(g1, tb, rng, ec, e2, et2, rat23, e3, et3, legs[1..]);
        if r.Some? {
          AnglesAndEventsOnlyTrans(g, g1, r.value);
        }
      }
    }
  }

  /** `update_adjacent_events` keeps the invariant, changes only the angle
   *  count and the event bookkeeping, and moves the angle count by one per
   *  angle through the event's link whose three entities are distinct. */
  lemma AdjacentUpdatedOk(g: Globals, tb: Tables, rng: Rng, ev: Event)
    requires GlobalsOk(g, tb, rng, None)
    ensures var r := AdjacentUpdated(g, tb, rng, ev);
      r.Some? ==>
        && GlobalsOk(r.value, tb, rng, None) && AnglesAndEventsOnly(g, r.value)
        && r.value.nAngles == g.nAngles + FirstLegDelta(ev.ec, ev.e1, ev.e3, OutsOf(g.e2outs, ev.e3))
                                        + SecondLegDelta(ev.ec, ev.e1, ev.e3, InsOf(g.e2ins, ev.e1))
  {
    var ea, eb := ev.e1, ev.e3;
    var r1 := FirstLegLoop(g, tb, rng, ev.ec, ea, EtOf(g.e2et, ea), ev.rat13, eb, EtOf(g.e2et, eb), OutsOf(g.e2outs, eb));
    FirstLegLoopOk(g, tb, rng, ev.ec, ea, EtOf(g.e2et, ea), ev.rat13, eb, EtOf(g.e2et, eb), OutsOf(g.e2outs, eb));
    if r1.Some? {
      var g1 := r1.value;
      SecondLegLoopOk(g1, tb, rng, ev.ec, ea, EtOf(g1.e2et, ea), ev.rat13, eb, EtOf(g1.e2et, eb), InsOf(g1.e2ins, ea));
    }
  }

  /** The loop over the out-legs of e2 (the first `which`). */
  method FirstLegs(w: World, ec: EventClass, e1: Entity, et1: EntityType, rat12: Rat, e2: Entity, et2: EntityType,
                   legs: seq<OutLeg>) returns (ok: bool)
    requires w.Valid()
    modifies w
    ensures ok == FirstLegLoop(old(w.g), w.tb, w.rng, ec, e1, et1, rat12, e2, et2, legs).Some?
    ensures ok ==> w.Valid() && w.g == FirstLegLoop(old(w.g), w.tb, w.rng, ec, e1, et1, rat12, e2, et2, legs).value
  {
    var k := 0;
    while k < |legs|
      invariant 0 <= k <= |legs| && w.Valid()
      invariant FirstLegLoop(old(w.g), w.tb, w.rng, ec, e1, et1, rat12, e2, et2, legs)
                == FirstLegLoop(w.g, w.tb, w.rng, ec, e1, et1, rat12, e2, et2, legs[k..])
    {
      assert legs[k..][0] == legs[k] && legs[k..][1..] == legs[k + 1..];
      var e3 := legs[k].eOther;
      if e1 != e3 {
        ok := AddOrDeleteAngle(w, ec, e1, et1, rat12, e2, et2, legs[k].ratOut, e3, EtOf(w.g.e2et, e3));
        if !ok {
          return;
        }
      }
      k := k + 1;
    }
    ok := true;
  }

  /** The loop over the in-legs of e2 (the second `which`). */
  method SecondLegs(w: World, ec: EventClass, e2: Entity, et2: EntityType, rat23: Rat, e3: Entity, et3: EntityType,
                    legs: seq<InLeg>) returns (ok: bool)
    requires w.Valid()
    modifies w
    ensures ok == SecondLegLoop(old(w.g), w.tb, w.rng, ec, e2, et2, rat23, e3, et3, legs).Some?
    ensures ok ==> w.Valid() && w.g == SecondLegLoop(old(w.g), w.tb, w.rng, ec, e2, et2, rat23, e3, et3, legs).value
  {
    var k := 0;
    while k < |legs|
      invariant 0 <= k <= |legs| && w.Valid()
      invariant SecondLegLoop(old(w.g), w.tb, w.rng, ec, e2, et2, rat23, e3, et3, legs)
                == SecondLegLoop(w.g, w.tb, w.rng, ec, e2, et2, rat23, e3, et3, legs[k..])
    {
      assert legs[k..][0] == legs[k] && legs[k..][1..] == legs[k + 1..];
      var e1 := legs[k].eOther;
      if e1 != e3 {
        ok := AddOrDeleteAngle(w, ec, e1, EtOf(w.g.e2et, e1), legs[k].ratIn, e2, et2, rat23, e3, et3);
        if !ok {
          return;
        }
      }
      k := k + 1;
    }
    ok := true;
  }

  /** `update_adjacent_events`; its loop over `which` is written out as the
   *  two loops. */
  method UpdateAdjacentEvents(w: World, ev: Event) returns (ok: bool)
    requires w.Valid()
    modifies w
    ensures ok == AdjacentUpdated(old(w.g), w.tb, w.rng, ev).Some?
    ensures ok ==> w.Valid() && w.g == AdjacentUpdated(old(w.g), w.tb, w.rng, ev).value
  {
    var ea, eb := ev.e1, ev.e3;
    ok := FirstLegs(w, ev.ec, ea, EtOf(w.g.e2et, ea), ev.rat13, eb, EtOf(w.g.e2et, eb), OutsOf(w.g.e2outs, eb));
    if ok {
      ok := SecondLegs(w, ev.ec, ea, EtOf(w.g.e2et, ea), ev.rat13, eb, EtOf(w.g.e2et, eb), InsOf(w.g.e2ins, ea));
    }
  }

  // ---------------------------------------------------------------------
  // perform_event

  /** The state `add_link(l)` (for an establishment) or `del_link(l)` (for
   *  anything else) leaves, None where their assertions fail: an existing
   *  link added, a self-link other than the identity added, or a missing
   *  link deleted. Links to ids not in use also stop the model. */
  function LinkChanged(g: Globals, ec: EventClass, l: Link): (r: Option<Globals>)
    requires LegsSorted(g.e2outs, g.e2ins)
  {
    if ec == EC_EST then
      if LinkExists(g, l) || (l.e1 == l.e3 && l.rat13 != RT_ID) || l.e1 !in g.es || l.e3 !in g.es then None
      else Some(WithLink(g, l))
    else if !LinkExists(g, l) then None
    else Some(WithoutLink(g, l))
  }

  /** Everything but the links, the angle count and the event bookkeeping
   *  is kept: the entities, the clock, the current event and the number of
   *  events performed. */
  predicate ClockAndEntitiesKept(g: Globals, g': Globals) {
    && g'.es == g.es && g'.maxE == g.maxE && g'.e2et == g.e2et && g'.et2es == g.et2es && g'.e2label == g.e2label
    && g'.currentT == g.currentT && g'.currentEv == g.currentEv && g'.nEvents == g.nEvents
  }

  /** After an establishment the link is present, after anything else it
   *  is absent, and every other link is as it was. */
  ghost predicate LinkSet(g: Globals, g': Globals, ec: EventClass, l: Link) {
    forall m :: LinkExists(g', m) <==> (if m == l then ec == EC_EST else LinkExists(g, m))
  }

  lemma LinkChangedOk(g: Globals, tb: Tables, rng: Rng, ec: EventClass, l: Link)
    requires GlobalsOk(g, tb, rng, None)
    ensures var r := LinkChanged(g, ec, l);
      r.Some? ==> && GlobalsOk(r.value, tb, rng, None) && ClockAndEntitiesKept(g, r.value)
                  && r.value.ev2data == g.ev2data && r.value.nAngles == g.nAngles
                  && LinkSet(g, r.value, ec, l) && r.value.nLinks == g.nLinks + (if ec == EC_EST then 1 else -1)
  {
    var r := LinkChanged(g, ec, l);
    if r.Some? {
      if ec == EC_EST {
        WithLinkOk(g, tb, rng, l);
      } else {
        WithoutLinkOk(g, tb, rng, l);
      }
    }
  }

  /** What `perform_event` does for the event and then again for its
   *  companion: add or delete the link, add the reverse event and update
   *  the adjacent events. */
  function LinkPerformed(g: Globals, tb: Tables, rng: Rng, ev: Event): (r: Option<Globals>)
    requires GlobalsOk(g, tb, rng, None)
  {
    var l := Link(ev.e1, ev.rat13, ev.e3);
    LinkChangedOk(g, tb, rng, ev.ec, l);
    match LinkChanged(g, ev.ec, l)
    case None => None
    case Some(g1) =>
      EventAddedOk(g1, tb, rng, ReverseOf(ev));
      match EventAdded(g1, tb, rng, ReverseOf(ev))
      case None => None
      case Some(g2) => AdjacentUpdated(g2, tb, rng, ev)
  }

  lemma EventsOnlyLinks(g: Globals, g': Globals)
    requires EventsOnly(g.(nAngles := g'.nAngles), g')
    ensures forall m :: LinkExists(g', m) <==> LinkExists(g, m)
    ensures ClockAndEntitiesKept(g, g') && g'.nLinks == g.nLinks
  {
  }

  /** The link step keeps the invariant, adds or deletes exactly the
   *  event's link and changes the link count accordingly. */
  lemma LinkPerformedOk(g: Globals, tb: Tables, rng: Rng, ev: Event)
    requires GlobalsOk(g, tb, rng, None)
    ensures var r := LinkPerformed(g, tb, rng, ev);
      r.Some? ==> && GlobalsOk(r.value, tb, rng, None) && ClockAndEntitiesKept(g, r.value)
                  && LinkSet(g, r.value, ev.ec, Link(ev.e1, ev.rat13, ev.e3))
                  && r.value.nLinks == g.nLinks + (if ev.ec == EC_EST then 1 else -1)
  {
    var l := Link(ev.e1, ev.rat13, ev.e3);
    var r := LinkPerformed(g, tb, rng, ev);
    LinkChangedOk(g, tb, rng, ev.ec, l);
    var r1 := LinkChanged(g, ev.ec, l);
    if r.Some? {
      var g1 := r1.value;
      EventAddedOk(g1, tb, rng, ReverseOf(ev));
      var g2 := EventAdded(g1, tb, rng, ReverseOf(ev)).value;
      AdjacentUpdatedOk(g2, tb, rng, ev);
      assert r == AdjacentUpdated(g2, tb, rng, ev);
      EventsOnlyLinks(g1, g2);
      EventsOnlyLinks(g2, r.value);
    }
  }

  /** The companion of `ev` that `perform_event` also performs: the event
   *  of the same class from e3 to e1 with the inverse relationship r31,
   *  when there is one and `withCompanion` holds. */
  function Companion(tb: Tables, ev: Event, withCompanion: bool): (c: Option<Event>)
    ensures c.Some? ==> c.value.ec == ev.ec
  {
    var r31 := InverseRat(tb, ev.rat13);
    if withCompanion && r31 != NO_RAT then Some(Event(ev.ec, ev.e3, r31, ev.e1)) else None
  }

  /** The state `perform_event(ev)` leaves, None where one of its steps
   *  stops: the steps on the event's link, followed by the companion
   *  event's. With `withCompanion` false only the steps on the event's own
   *  link are taken, as for the companion itself. */
  function Performed(g: Globals, tb: Tables, rng: Rng, ev: Event, withCompanion: bool): Option<Globals>
    requires GlobalsOk(g, tb, rng, None)
    decreases if withCompanion then 1 else 0, 1
  {
    LinkStep(g, tb, rng, ev, Companion(tb, ev, withCompanion))
  }

  /** The steps on the link of `ev`; then, for a companion event `next`,
   *  its unscheduling if it is stored and its steps on its own link. */
  function LinkStep(g: Globals, tb: Tables, rng: Rng, ev: Event, next: Option<Event>): Option<Globals>
    requires GlobalsOk(g, tb, rng, None)
    decreases if next.Some? then 1 else 0, 0
  {
    LinkPerformedOk(g, tb, rng, ev);
    match LinkPerformed(g, tb, rng, ev)
    case None => None
    case Some(g3) =>
      match next
      case None => Some(g3)
      case Some(c) =>
        ConditionallyRemovedOk(g3, tb, rng, c);
        Performed(ConditionallyRemoved(g3, c), tb, rng, c, false)
  }

  /** The companion is removed before its steps if it is stored (as
   *  `conditionally_remove_event` does). */
  function ConditionallyRemoved(g: Globals, c: Event): Globals {
    if c in g.ev2data then Removed(g, c) else g
  }

  lemma ConditionallyRemovedOk(g: Globals, tb: Tables, rng: Rng, c: Event)
    requires GlobalsOk(g, tb, rng, None)
    ensures GlobalsOk(ConditionallyRemoved(g, c), tb, rng, None) && c !in ConditionallyRemoved(g, c).ev2data
    ensures forall m :: LinkExists(ConditionallyRemoved(g, c), m) <==> LinkExists(g, m)
    ensures ClockAndEntitiesKept(g, ConditionallyRemoved(g, c)) && ConditionallyRemoved(g, c).nLinks == g.nLinks
  {
    if c in g.ev2data {
      RemovedOk(g, tb, rng, c);
      EventsOnlyLinks(g, Removed(g, c));
    }
  }

  /** The companion's steps after the event's own: the invariant is kept,
   *  the companion's link is set, every other link is as it was. */
  lemma {:induction false} CompanionStepOk(g: Globals, tb: Tables, rng: Rng, c: Event)
    requires GlobalsOk(g, tb, rng, None)
    ensures GlobalsOk(ConditionallyRemoved(g, c), tb, rng, None)
    ensures var r := Performed(ConditionallyRemoved(g, c), tb, rng, c, false);
      r.Some? ==>
        && GlobalsOk(r.value, tb, rng, None) && ClockAndEntitiesKept(g, r.value)
        && (forall m :: LinkExists(r.value, m) <==> if m == LinkOf(c) then c.ec == EC_EST else LinkExists(g, m))
        && r.value.nLinks == g.nLinks + LinkDelta(c.ec)
    decreases 0, 2
  {
    ConditionallyRemovedOk(g, tb, rng, c);
    PerformedOk(ConditionallyRemoved(g, c), tb, rng, c, false);
  }

  /** The link an event is about. */
  function LinkOf(ev: Event): Link {
    Link(ev.e1, ev.rat13, ev.e3)
  }

  /** The change a link step makes to the link count. */
  function LinkDelta(ec: EventClass): int {
    if ec == EC_EST then 1 else -1
  }

  /** The link steps keep the invariant, set the event's link and then the
   *  companion's, keep every other link and move the count by one per step. */
  lemma {:induction false} LinkStepOk(g: Globals, tb: Tables, rng: Rng, ev: Event, next: Option<Event>)
    requires GlobalsOk(g, tb, rng, None)
    ensures var r := LinkStep(g, tb, rng, ev, next);
      r.Some? ==>
        && GlobalsOk(r.value, tb, rng, None) && ClockAndEntitiesKept(g, r.value)
        && (forall m :: LinkExists(r.value, m) <==>
              if next.Some? && m == LinkOf(next.value) then next.value.ec == EC_EST
              else if m == LinkOf(ev) then ev.ec == EC_EST
              else LinkExists(g, m))
        && r.value.nLinks == g.nLinks + LinkDelta(ev.ec) + (if next.Some? then LinkDelta(next.value.ec) else 0)
    decreases if next.Some? then 1 else 0, 0
  {
    var r := LinkStep(g, tb, rng, ev, next);
    LinkPerformedOk(g, tb, rng, ev);
    if r.Some? {
      var g3 := LinkPerformed(g, tb, rng, ev).value;
      if next.Some? {
        var c := next.value;
        CompanionStepOk(g3, tb, rng, c);
        assert r == Performed(ConditionallyRemoved(g3, c), tb, rng, c, false);
        LinkSetThen(g, g3, r.value, ev.ec, LinkOf(ev), c.ec, LinkOf(c));
      } else {
        assert r == Some(g3);
      }
    }
  }

  /** What `perform_event` promises: the invariant holds afterwards; an
   *  establishment makes its link present, anything else makes it absent,
   *  and likewise for the inverse link when the relationship has an inverse;
   *  every other link is as it was, the link count moves by one per link
   *  changed, and the clock, the entities and the event count are kept. */
  lemma {:induction false} PerformedOk(g: Globals, tb: Tables, rng: Rng, ev: Event, withCompanion: bool)
    requires GlobalsOk(g, tb, rng, None)
    ensures var r := Performed(g, tb, rng, ev, withCompanion);
      var r31 := InverseRat(tb, ev.rat13);
      var both := withCompanion && r31 != NO_RAT;
      var l, inv := LinkOf(ev), Link(ev.e3, r31, ev.e1);
      r.Some? ==>
        && GlobalsOk(r.value, tb, rng, None) && ClockAndEntitiesKept(g, r.value)
        && (forall m :: LinkExists(r.value, m) <==>
              if m == l || (both && m == inv) then ev.ec == EC_EST else LinkExists(g, m))
        && r.value.nLinks == g.nLinks + LinkDelta(ev.ec) * (if both then 2 else 1)
    decreases if withCompanion then 1 else 0, 1
  {
    LinkStepOk(g, tb, rng, ev, Companion(tb, ev, withCompanion));
  }

  /** Two link steps in a row, with only event bookkeeping between them. */
  lemma LinkSetThen(g: Globals, g3: Globals, g5: Globals, ec: EventClass, l: Link, ec': EventClass, l': Link)
    requires LinkSet(g, g3, ec, l)
    requires forall m :: LinkExists(g5, m) <==> if m == l' then ec' == EC_EST else LinkExists(g3, m)
    ensures forall m :: LinkExists(g5, m) <==> if m == l' then ec' == EC_EST else if m == l then ec == EC_EST
                                                else LinkExists(g, m)
  {
  }

  /** `add_link(l)` for an establishment, `del_link(l)` otherwise. */
  method ChangeLink(w: World, ec: EventClass, l: Link) returns (ok: bool)
    requires w.Valid()
    modifies w
    ensures ok == LinkChanged(old(w.g), ec, l).Some?
    ensures ok ==> w.Valid() && w.g == LinkChanged(old(w.g), ec, l).value
  {
    if ec == EC_EST {
      if LinkExists(w.g, l) || (l.e1 == l.e3 && l.rat13 != RT_ID) || l.e1 !in w.g.es || l.e3 !in w.g.es {
        return false;
      }
      AddLink(w, l);
    } else {
      if !LinkExists(w.g, l) {
        return false;
      }
      DelLink(w, l);
    }
    ok := true;
  }

  /** The part of `perform_event` done for the event and for its companion. */
  method PerformOnLink(w: World, ev: Event) returns (ok: bool)
    requires w.Valid()
    modifies w
    ensures ok == LinkPerformed(old(w.g), w.tb, w.rng, ev).Some?
    ensures ok ==> w.Valid() && w.g == LinkPerformed(old(w.g), w.tb, w.rng, ev).value
  {
    ok := ChangeLink(w, ev.ec, Link(ev.e1, ev.rat13, ev.e3));
    if ok {
      ok := AddReverseEvent(w, ev);
      if ok {
        ok := UpdateAdjacentEvents(w, ev);
      }
    }
  }

  /** `perform_event`. */
  method PerformEvent(w: World, ev: Event) returns (ok: bool)
    requires w.Valid()
    modifies w
    ensures ok == Performed(old(w.g), w.tb, w.rng, ev, true).Some?
    ensures ok ==> w.Valid() && w.g == Performed(old(w.g), w.tb, w.rng, ev, true).value
  {
    ghost var g0 := w.g;
    var r31 := InverseRat(w.tb, ev.rat13);
    var c := Event(ev.ec, ev.e3, r31, ev.e1);
    ok := PerformOnLink(w, ev);
    if !ok || r31 == NO_RAT {
      assert Performed(g0, w.tb, w.rng, ev, true) == LinkStep(g0, w.tb, w.rng, ev, Companion(w.tb, ev, true));
      return;
    }
    ghost var g3 := w.g;
    ConditionallyRemoveEvent(w, c);
    ghost var g4 := w.g;
    assert g4 == ConditionallyRemoved(g3, c);
    ok := PerformOnLink(w, c);
    assert Performed(g4, w.tb, w.rng, c, false) == LinkPerformed(g4, w.tb, w.rng, c);
    assert Performed(g0, w.tb, w.rng, ev, true) == Performed(g4, w.tb, w.rng, c, false);
  }

  /** Establishing a link at once, as `init_links` does for a preregistered
   *  link and `do_random_link` for a drawn one: the establishment event is
   *  removed if it is stored, then performed. */
  function Established(g: Globals, tb: Tables, rng: Rng, l: Link): Option<Globals>
    requires GlobalsOk(g, tb, rng, None)
  {
    var ev := Event(EC_EST, l.e1, l.rat13, l.e3);
    ConditionallyRemovedOk(g, tb, rng, ev);
    Performed(ConditionallyRemoved(g, ev), tb, rng, ev, true)
  }

  /** Establishing succeeds only for an absent link; afterwards the link is
   *  present, and every link but it and its inverse is as it was. */
  lemma EstablishedOk(g: Globals, tb: Tables, rng: Rng, l: Link)
    requires GlobalsOk(g, tb, rng, None)
    ensures var r := Established(g, tb, rng, l);
      r.Some? ==>
        && !LinkExists(g, l)
        && GlobalsOk(r.value, tb, rng, None) && ClockAndEntitiesKept(g, r.value)
        && LinkExists(r.value, l)
        && (forall m :: m != l && m != Link(l.e3, InverseRat(tb, l.rat13), l.e1) ==>
              (LinkExists(r.value, m) <==> LinkExists(g, m)))
  {
    var ev := Event(EC_EST, l.e1, l.rat13, l.e3);
    ConditionallyRemovedOk(g, tb, rng, ev);
    var g1 := ConditionallyRemoved(g, ev);
    PerformedOk(g1, tb, rng, ev, true);
    LinkStepNeedsAbsent(g1, tb, rng, ev, Companion(tb, ev, true));
  }

  /** An establishment only adds links: every link present before is still
   *  present, and so is the inverse link when the type has an inverse. */
  lemma EstablishedOnlyAdds(g: Globals, tb: Tables, rng: Rng, l: Link)
    requires GlobalsOk(g, tb, rng, None)
    ensures var r := Established(g, tb, rng, l);
      r.Some? ==>
        && (forall m :: LinkExists(g, m) ==> LinkExists(r.value, m))
        && (InverseRat(tb, l.rat13) != NO_RAT ==> LinkExists(r.value, Link(l.e3, InverseRat(tb, l.rat13), l.e1)))
  {
    var ev := Event(EC_EST, l.e1, l.rat13, l.e3);
    ConditionallyRemovedOk(g, tb, rng, ev);
    PerformedOk(ConditionallyRemoved(g, ev), tb, rng, ev, true);
  }

  /** An establishment step needs its link to be absent. */
  lemma LinkStepNeedsAbsent(g: Globals, tb: Tables, rng: Rng, ev: Event, next: Option<Event>)
    requires GlobalsOk(g, tb, rng, None) && ev.ec == EC_EST
    ensures LinkStep(g, tb, rng, ev, next).Some? ==> !LinkExists(g, LinkOf(ev))
  {
    LinkPerformedOk(g, tb, rng, ev);
  }

  /** `conditionally_remove_event(ev); perform_event(ev)` for the
   *  establishment of `l`. */
  method Establish(w: World, l: Link) returns (ok: bool)
    requires w.Valid()
    modifies w
    ensures ok == Established(old(w.g), w.tb, w.rng, l).Some?
    ensures ok ==> w.Valid() && w.g == Established(old(w.g), w.tb, w.rng, l).value
  {
    var ev := Event(EC_EST, l.e1, l.rat13, l.e3);
    ghost var g0 := w.g;
    ConditionallyRemoveEvent(w, ev);
    assert w.g == ConditionallyRemoved(g0, ev);
    ok := PerformEvent(w, ev);
  }
}
