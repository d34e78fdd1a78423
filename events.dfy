/** The event bookkeeping of src/event.cpp: drawing an event's next time,
 *  scheduling, rescheduling and removing it, so that `t2be` stays the
 *  inverse of the time field of `ev2data`. */
module Events {
  import opened Wrappers
  import opened ExtReal
  import opened DataModel
  import opened State

  // ---------------------------------------------------------------------
  // event_is_scheduled

  /** `event_is_scheduled`: a future instance is scheduled exactly when the
   *  stored time lies above minus infinity. */
  function EventIsScheduled(g: Globals, ev: Event): (b: bool)
    requires ev in g.ev2data
    ensures b <==> g.ev2data[ev].t != NegInf
  {
    NegInf.Lt(g.ev2data[ev].t)
  }

  /** Between operations every stored event is scheduled. */
  lemma StoredEventsAreScheduled(g: Globals, tb: Tables, rng: Rng, ev: Event)
    requires GlobalsOk(g, tb, rng, None) && ev in g.ev2data
    ensures EventIsScheduled(g, ev)
    ensures g.collided || g.t2be[g.ev2data[ev].t] == ev
  {
  }

  // ---------------------------------------------------------------------
  // _schedule_event: the drawn time

  /** The time `_schedule_event` draws for event `ev` with data `d` at
   *  current time `now`, with the next unused draws at position `k`, and the
   *  number of draws it consumes. A specific event with a finite attempt
   *  rate waits an exponential time scaled by its effective rate; one with
   *  an infinite rate happens "right away", formally at a random time in the
   *  last unit of time, unless its probunits are minus infinity, when it
   *  never happens; a summary event waits an exponential time scaled by its
   *  attempt rate alone. */
  function DrawnTime(ev: Event, d: EventData, now: Ext, tb: Tables, rng: Rng, k: nat): (r: (Ext, nat))
    requires now.Fin?
    ensures r.1 == (if ev.e1 >= 0 && d.attemptRate == PosInf && d.successProbunits == NegInf then 0 else 1)
    ensures RngOk(rng) ==> r.0 != NegInf
    ensures RngOk(rng) && (ev.e1 < 0 || d.attemptRate != PosInf) ==> now.Le(r.0)
    ensures RngOk(rng) && ev.e1 >= 0 && d.attemptRate == PosInf && d.successProbunits != NegInf ==>
      now.MinusReal(1.0).Lt(r.0) && r.0.Le(now)
    ensures ev.e1 >= 0 && d.attemptRate == PosInf && d.successProbunits == NegInf ==> r.0 == PosInf
  {
    if ev.e1 >= 0 then
      if d.attemptRate != PosInf then
        (now.Plus(DivBy(rng.exponential(k), tb.effectiveRate(d.attemptRate, d.successProbunits))), 1)
      else if d.successProbunits != NegInf then
        (now.MinusReal(rng.uniform(k)), 1)
      else
        (PosInf, 0)
    else
      (now.Plus(DivBy(rng.exponential(k), d.attemptRate)), 1)
  }

  // ---------------------------------------------------------------------
  // The states the operations leave

  /** Only the event bookkeeping differs between the two states. */
  predicate EventsOnly(g: Globals, g': Globals) {
    && g'.e2outs == g.e2outs && g'.e2ins == g.e2ins && g'.nLinks == g.nLinks && g'.es == g.es
    && g'.maxE == g.maxE && g'.e2et == g.e2et && g'.et2es == g.et2es && g'.e2label == g.e2label
    && g'.currentT == g.currentT && g'.currentEv == g.currentEv && g'.nAngles == g.nAngles
    && g'.nEvents == g.nEvents
  }

  lemma EventsOnlyTrans(g1: Globals, g2: Globals, g3: Globals)
    requires EventsOnly(g1, g2) && EventsOnly(g2, g3)
    ensures EventsOnly(g1, g3)
  {
  }

  /** The state after `_schedule_event(ev)`: `t2be[t] = ev` and `evd.t = t`
   *  for the drawn time t. A time that was already a key is overwritten,
   *  which `collided` records. */
  function Scheduled(g: Globals, tb: Tables, rng: Rng, ev: Event): (g': Globals)
    requires ev in g.ev2data && g.currentT.Fin?
    ensures EventsOnly(g, g')
    ensures ev in g'.ev2data && g'.ev2data == g.ev2data[ev := g.ev2data[ev].(t := g'.ev2data[ev].t)]
    ensures g'.ev2data[ev].t in g'.t2be && g'.t2be[g'.ev2data[ev].t] == ev
  {
    var r := DrawnTime(ev, g.ev2data[ev], g.currentT, tb, rng, g.nDraws);
    g.(t2be := g.t2be[r.0 := ev], ev2data := g.ev2data[ev := g.ev2data[ev].(t := r.0)],
       nDraws := g.nDraws + r.1, collided := g.collided || r.0 in g.t2be)
  }

  /** The state after `t2be.erase(evd.t)`, with the event marked unscheduled
   *  until `_schedule_event` writes its new time. */
  function Unscheduled(g: Globals, ev: Event): (g': Globals)
    requires ev in g.ev2data
    ensures EventsOnly(g, g')
    ensures g'.ev2data == g.ev2data[ev := g.ev2data[ev].(t := NegInf)]
  {
    g.(t2be := g.t2be - {g.ev2data[ev].t}, ev2data := g.ev2data[ev := g.ev2data[ev].(t := NegInf)])
  }

  /** The state after `reschedule_event(ev)`. */
  function Rescheduled(g: Globals, tb: Tables, rng: Rng, ev: Event): (g': Globals)
    requires ev in g.ev2data && g.currentT.Fin?
    ensures EventsOnly(g, g')
    ensures ev in g'.ev2data && g'.ev2data == g.ev2data[ev := g.ev2data[ev].(t := g'.ev2data[ev].t)]
  {
    Scheduled(Unscheduled(g, ev), tb, rng, ev)
  }

  /** The state after `remove_event(ev)`: its key and its entry are gone. */
  function Removed(g: Globals, ev: Event): (g': Globals)
    requires ev in g.ev2data
    ensures EventsOnly(g, g')
    ensures g'.ev2data == g.ev2data - {ev} && g'.t2be == g.t2be - {g.ev2data[ev].t}
  {
    g.(t2be := g.t2be - {g.ev2data[ev].t}, ev2data := g.ev2data - {ev})
  }

  /** The state after `ev2data[ev] = x` for an event that is not stored. */
  function Stored(g: Globals, ev: Event, x: EventData): (g': Globals)
    ensures EventsOnly(g, g')
    ensures g'.ev2data == g.ev2data[ev := x] && g'.t2be == g.t2be
  {
    g.(ev2data := g.ev2data[ev := x])
  }

  // ---------------------------------------------------------------------
  // The invariant across the operations

  /** Scheduling the pending event keeps the invariant: nothing is pending
   *  afterwards. */
  lemma ScheduledOk(g: Globals, tb: Tables, rng: Rng, ev: Event)
    requires GlobalsOk(g, tb, rng, Some(ev))
    ensures GlobalsOk(Scheduled(g, tb, rng, ev), tb, rng, None)
  {
    var r := DrawnTime(ev, g.ev2data[ev], g.currentT, tb, rng, g.nDraws);
    var g' := Scheduled(g, tb, rng, ev);
    assert g'.ev2data == g.ev2data[ev := g.ev2data[ev].(t := r.0)] && g'.t2be == g.t2be[r.0 := ev];
    assert g'.collided == (g.collided || r.0 in g.t2be);
    InverseSchedule(g.ev2data, g.t2be, ev, r.0);
  }

  /** Erasing a stored event's key leaves it the pending event. */
  lemma UnscheduledOk(g: Globals, tb: Tables, rng: Rng, ev: Event)
    requires GlobalsOk(g, tb, rng, None) && ev in g.ev2data
    ensures GlobalsOk(Unscheduled(g, ev), tb, rng, Some(ev))
  {
    InverseUnschedule(g.ev2data, g.t2be, ev);
  }

  /** Removing a stored event keeps the invariant. */
  lemma RemovedOk(g: Globals, tb: Tables, rng: Rng, ev: Event)
    requires GlobalsOk(g, tb, rng, None) && ev in g.ev2data
    ensures GlobalsOk(Removed(g, ev), tb, rng, None)
  {
    InverseRemove(g.ev2data, g.t2be, ev);
  }

  /** Storing a new event with t = -inf makes it the pending event. */
  lemma StoredOk(g: Globals, tb: Tables, rng: Rng, ev: Event, x: EventData)
    requires GlobalsOk(g, tb, rng, None) && ev !in g.ev2data && DataBounds(x) && x.t == NegInf
    ensures GlobalsOk(Stored(g, ev, x), tb, rng, Some(ev))
  {
    InverseStore(g.ev2data, g.t2be, ev, x);
  }

  /** Changing the counts of a stored event, within bounds and without
   *  touching its time, keeps the invariant. */
  lemma RetouchedOk(g: Globals, tb: Tables, rng: Rng, ev: Event, x: EventData)
    requires GlobalsOk(g, tb, rng, None) && ev in g.ev2data && DataBounds(x) && x.t == g.ev2data[ev].t
    ensures GlobalsOk(Stored(g, ev, x), tb, rng, None)
  {
    InverseRetouch(g.ev2data, g.t2be, ev, x);
  }

  /** Scheduling a stored event and removing it again leaves `ev2data` and,
   *  when its drawn time was free, `t2be` as they were before it was
   *  stored. */
  lemma StoreScheduleRemove(g: Globals, tb: Tables, rng: Rng, ev: Event, x: EventData)
    requires GlobalsOk(g, tb, rng, None) && ev !in g.ev2data && DataBounds(x) && x.t == NegInf
    ensures var g1 := Scheduled(Stored(g, ev, x), tb, rng, ev);
      && Removed(g1, ev).ev2data == g.ev2data
      && (g1.ev2data[ev].t !in g.t2be ==> Removed(g1, ev).t2be == g.t2be)
  {
    var g0 := Stored(g, ev, x);
    var g1 := Scheduled(g0, tb, rng, ev);
    var t := g1.ev2data[ev].t;
    assert g1.t2be == g.t2be[t := ev];
    EntryGone(g.ev2data, ev, x, t);
    KeyGone(g.t2be, t, ev);
  }

  lemma EntryGone(d: map<Event, EventData>, ev: Event, x: EventData, t: Ext)
    requires ev !in d
    ensures d[ev := x][ev := x.(t := t)] - {ev} == d
  {
  }

  lemma KeyGone(m: map<Ext, Event>, t: Ext, ev: Event)
    ensures t !in m ==> m[t := ev] - {t} == m
  {
  }

  // ---------------------------------------------------------------------
  // The operations

  /** `schedule_event`: the event must be stored and unscheduled, and
   *  `_schedule_event` requires a positive attempt rate. */
  method ScheduleEvent(w: World, ev: Event)
    requires w.Sound(Some(ev)) && Zero.Lt(w.g.ev2data[ev].attemptRate)
    modifies w
    ensures w.Valid() && w.g == Scheduled(old(w.g), w.tb, w.rng, ev)
  {
    ScheduledOk(w.g, w.tb, w.rng, ev);
    var r := DrawnTime(ev, w.g.ev2data[ev], w.g.currentT, w.tb, w.rng, w.g.nDraws);
    w.g := w.g.(t2be := w.g.t2be[r.0 := ev], ev2data := w.g.ev2data[ev := w.g.ev2data[ev].(t := r.0)],
                nDraws := w.g.nDraws + r.1, collided := w.g.collided || r.0 in w.g.t2be);
  }

  /** `reschedule_event`: the event must be stored and scheduled (which every
   *  stored event is), its old key is erased and a new time drawn. */
  method RescheduleEvent(w: World, ev: Event)
    requires w.Valid() && ev in w.g.ev2data && Zero.Lt(w.g.ev2data[ev].attemptRate)
    modifies w
    ensures w.Valid() && w.g == Rescheduled(old(w.g), w.tb, w.rng, ev)
  {
    StoredEventsAreScheduled(w.g, w.tb, w.rng, ev);
    UnscheduledOk(w.g, w.tb, w.rng, ev);
    w.g := Unscheduled(w.g, ev);
    ScheduleEvent(w, ev);
  }

  /** `remove_event`: the event must be stored and scheduled; its key and its
   *  entry are erased. */
  method RemoveEvent(w: World, ev: Event)
    requires w.Valid() && ev in w.g.ev2data
    modifies w
    ensures w.Valid() && w.g == Removed(old(w.g), ev)
  {
    StoredEventsAreScheduled(w.g, w.tb, w.rng, ev);
    RemovedOk(w.g, w.tb, w.rng, ev);
    w.g := w.g.(t2be := w.g.t2be - {w.g.ev2data[ev].t}, ev2data := w.g.ev2data - {ev});
  }

  /** `conditionally_remove_event`: removes the event if it is stored, and
   *  does nothing otherwise. */
  method ConditionallyRemoveEvent(w: World, ev: Event)
    requires w.Valid()
    modifies w
    ensures w.Valid()
    ensures ev in old(w.g.ev2data) ==> w.g == Removed(old(w.g), ev)
    ensures ev !in old(w.g.ev2data) ==> w.g == old(w.g)
    ensures ev !in w.g.ev2data
  {
    if ev in w.g.ev2data {
      RemoveEvent(w, ev);
    }
  }
}
