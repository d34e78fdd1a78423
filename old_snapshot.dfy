/** The older snapshot of TriCl kept at the top level of the repository
 *  (event.cpp and data_model.h beside src/): one `leg` struct for out- and
 *  in-legs, narrower hash widths, a one-to-one `leg_intersection`, and the
 *  event bookkeeping of `schedule_event`, `remove_event` and
 *  `pop_next_event`. */
module OldSnapshot {
  import opened Wrappers
  import opened ExtReal
  import opened Bits
  import opened DataModel

  // ---------------------------------------------------------------------
  // Constants and widths (data_model.h)

  const OLD_E_BITS: nat := 12
  const OLD_RAT_BITS: nat := 2
  const OLD_ET_BITS: nat := 2

  /** `INFLT` with the widths of the snapshot stays below its
   *  `MAX_N_INFLT` of 2^14 and can be read back, so it indexes the
   *  `_inflt2*` tables without collisions. */
  lemma OldInfltRoundTrip(i: InfluenceType)
    requires InfltInRange(OLD_ET_BITS, OLD_RAT_BITS, i)
    ensures MaxNInfltWith(OLD_ET_BITS, OLD_RAT_BITS) == 16384
    ensures InfltWith(OLD_ET_BITS, OLD_RAT_BITS, i) < 16384
    ensures InfltDecodeWith(OLD_ET_BITS, OLD_RAT_BITS, InfltWith(OLD_ET_BITS, OLD_RAT_BITS, i)) == Some(i)
  {
    Pow2Add(10, 4);
    Pow2Values();
    InfltRoundTrip(OLD_ET_BITS, OLD_RAT_BITS, i);
  }

  lemma OldInfltInjective(i: InfluenceType, j: InfluenceType)
    requires InfltInRange(OLD_ET_BITS, OLD_RAT_BITS, i) && InfltInRange(OLD_ET_BITS, OLD_RAT_BITS, j)
    ensures InfltWith(OLD_ET_BITS, OLD_RAT_BITS, i) == InfltWith(OLD_ET_BITS, OLD_RAT_BITS, j) <==> i == j
  {
    InfltInjective(OLD_ET_BITS, OLD_RAT_BITS, i, j);
  }

  // ---------------------------------------------------------------------
  // Legs

  /** `leg`: the entity at the other end and the relationship type, used
   *  for out-legs and in-legs alike. */
  datatype Leg = Leg(e: Entity, r: Rat)

  /** `leg <`: by entity, then by relationship type. */
  predicate LegLess(a: Leg, b: Leg) {
    a.e < b.e || (a.e == b.e && a.r < b.r)
  }

  lemma LegLessIsStrictTotalOrder(a: Leg, b: Leg, c: Leg)
    ensures !LegLess(a, a)
    ensures LegLess(a, b) && LegLess(b, c) ==> LegLess(a, c)
    ensures LegLess(a, b) || a == b || LegLess(b, a)
    ensures !(LegLess(a, b) && LegLess(b, a))
    ensures LegLess(a, b) ==> a.e <= b.e
  {
  }

  /** A `leg_set` in iteration order: strictly increasing. */
  predicate LegsSorted(s: seq<Leg>) {
    forall i, j :: 0 <= i < j < |s| ==> LegLess(s[i], s[j])
  }

  // ---------------------------------------------------------------------
  // leg_intersection: specification

  /** What `leg_intersection` computes: a merge that pairs the first
   *  out-leg with the first in-leg when their entities agree and then
   *  drops both, and otherwise drops the leg with the smaller entity. */
  function Merged(outs: seq<Leg>, ins: seq<Leg>): seq<Angle>
    decreases |outs| + |ins|
  {
    if outs == [] || ins == [] then []
    else if outs[0].e < ins[0].e then Merged(outs[1..], ins)
    else if ins[0].e < outs[0].e then Merged(outs, ins[1..])
    else [Angle(outs[0].r, outs[0].e, ins[0].r)] + Merged(outs[1..], ins[1..])
  }

  /** Each leg is used at most once, so there are no more angles than legs
   *  on either side. */
  lemma {:induction false} MergedLength(outs: seq<Leg>, ins: seq<Leg>)
    ensures |Merged(outs, ins)| <= |outs| && |Merged(outs, ins)| <= |ins|
    decreases |outs| + |ins|
  {
    if outs == [] || ins == [] {
    } else if outs[0].e < ins[0].e {
      MergedLength(outs[1..], ins);
    } else if ins[0].e < outs[0].e {
      MergedLength(outs, ins[1..]);
    } else {
      MergedLength(outs[1..], ins[1..]);
    }
  }

  /** Every angle pairs an out-leg and an in-leg that meet at its middle
   *  entity and carries their two types. */
  lemma {:induction false} MergedFrom(outs: seq<Leg>, ins: seq<Leg>, k: nat)
    requires k < |Merged(outs, ins)|
    ensures exists i, j :: (0 <= i < |outs| && 0 <= j < |ins| && outs[i].e == ins[j].e
      && Merged(outs, ins)[k] == Angle(outs[i].r, outs[i].e, ins[j].r))
    decreases |outs| + |ins|
  {
    var m := Merged(outs, ins);
    if outs[0].e < ins[0].e {
      MergedFrom(outs[1..], ins, k);
      var i, j :| 0 <= i < |outs| - 1 && 0 <= j < |ins| && outs[1..][i].e == ins[j].e
        && m[k] == Angle(outs[1..][i].r, outs[1..][i].e, ins[j].r);
      assert outs[i + 1] == outs[1..][i];
    } else if ins[0].e < outs[0].e {
      MergedFrom(outs, ins[1..], k);
      var i, j :| 0 <= i < |outs| && 0 <= j < |ins| - 1 && outs[i].e == ins[1..][j].e
        && m[k] == Angle(outs[i].r, outs[i].e, ins[1..][j].r);
      assert ins[j + 1] == ins[1..][j];
    } else if k == 0 {
      assert m[0] == Angle(outs[0].r, outs[0].e, ins[0].r);
    } else {
      MergedFrom(outs[1..], ins[1..], k - 1);
      var i, j :| 0 <= i < |outs| - 1 && 0 <= j < |ins| - 1 && outs[1..][i].e == ins[1..][j].e
        && m[k] == Angle(outs[1..][i].r, outs[1..][i].e, ins[1..][j].r);
      assert outs[i + 1] == outs[1..][i] && ins[j + 1] == ins[1..][j];
    }
  }

  /** Every angle has its middle entity above any bound of the out-legs'
   *  entities. */
  lemma MergedAbove(outs: seq<Leg>, ins: seq<Leg>, x: Entity, k: nat)
    requires forall i :: 0 <= i < |outs| ==> x <= outs[i].e
    requires k < |Merged(outs, ins)|
    ensures x <= Merged(outs, ins)[k].e2
  {
    MergedFrom(outs, ins, k);
  }

  /** For sorted leg sets the angles come out in non-decreasing order of
   *  their middle entity. */
  lemma {:induction false} MergedSorted(outs: seq<Leg>, ins: seq<Leg>)
    requires LegsSorted(outs) && LegsSorted(ins)
    ensures forall k, l :: 0 <= k < l < |Merged(outs, ins)| ==> Merged(outs, ins)[k].e2 <= Merged(outs, ins)[l].e2
    decreases |outs| + |ins|
  {
    var m := Merged(outs, ins);
    if outs == [] || ins == [] {
    } else if outs[0].e < ins[0].e {
      MergedSorted(outs[1..], ins);
    } else if ins[0].e < outs[0].e {
      MergedSorted(outs, ins[1..]);
    } else {
      var rest := Merged(outs[1..], ins[1..]);
      MergedSorted(outs[1..], ins[1..]);
      assert m == [m[0]] + rest;
      forall l | 0 < l < |m|
        ensures m[0].e2 <= m[l].e2
      {
        assert forall i :: 0 <= i < |outs[1..]| ==> outs[0].e <= outs[1..][i].e by {
          forall i | 0 <= i < |outs[1..]|
            ensures outs[0].e <= outs[1..][i].e
          {
            assert LegLess(outs[0], outs[i + 1]);
          }
        }
        MergedAbove(outs[1..], ins[1..], outs[0].e, l - 1);
        assert m[l] == rest[l - 1];
      }
    }
  }

  /** An entity at the end of an out-leg and of an in-leg of sorted leg
   *  sets yields at least one angle through it. */
  lemma {:induction false} MergedCovers(outs: seq<Leg>, ins: seq<Leg>, i: nat, j: nat)
    requires LegsSorted(outs) && LegsSorted(ins)
    requires i < |outs| && j < |ins| && outs[i].e == ins[j].e
    ensures exists k :: 0 <= k < |Merged(outs, ins)| && Merged(outs, ins)[k].e2 == outs[i].e
    decreases |outs| + |ins|
  {
    var m := Merged(outs, ins);
    assert outs[0].e <= outs[i].e by {
      if i > 0 {
        assert LegLess(outs[0], outs[i]);
      }
    }
    assert ins[0].e <= ins[j].e by {
      if j > 0 {
        assert LegLess(ins[0], ins[j]);
      }
    }
    if outs[0].e < ins[0].e {
      MergedCovers(outs[1..], ins, i - 1, j);
    } else if ins[0].e < outs[0].e {
      MergedCovers(outs, ins[1..], i, j - 1);
    } else if outs[i].e == outs[0].e {
      assert m[0].e2 == outs[i].e;
    } else {
      MergedCovers(outs[1..], ins[1..], i - 1, j - 1);
      var k :| 0 <= k < |Merged(outs[1..], ins[1..])| && Merged(outs[1..], ins[1..])[k].e2 == outs[i].e;
      assert m[k + 1] == Merged(outs[1..], ins[1..])[k];
    }
  }

  /** Because both cursors advance on a match, an entity reached by two
   *  out-legs and one in-leg yields one angle, though both out-legs form
   *  a path through it. */
  lemma MergedDropsAngle()
    ensures var outs, ins := [Leg(5, 2), Leg(5, 3)], [Leg(5, 2)];
      && LegsSorted(outs) && LegsSorted(ins)
      && Merged(outs, ins) == [Angle(2, 5, 2)]
      && Angle(3, 5, 2) !in Merged(outs, ins)
  {
    var outs, ins := [Leg(5, 2), Leg(5, 3)], [Leg(5, 2)];
    assert outs[1..] == [Leg(5, 3)] && ins[1..] == [];
  }

  // ---------------------------------------------------------------------
  // leg_intersection: the merge loop

  /** `leg_intersection`: two cursors walk the sorted leg sets, writing an
   *  angle into a vector of `|outs| + |ins|` slots on every match; the
   *  vector is then cut to the number written. */
  method LegIntersection(outs: seq<Leg>, ins: seq<Leg>) returns (r: seq<Angle>)
    ensures r == Merged(outs, ins)
  {
    var result := new Angle[|outs| + |ins|](_ => Angle(NO_RAT, 0, NO_RAT));
    var i, j, k := 0, 0, 0;
    while i < |outs| && j < |ins|
      invariant 0 <= k <= i <= |outs| && k <= j <= |ins|
      invariant result[..k] + Merged(outs[i..], ins[j..]) == Merged(outs, ins)
      decreases |outs| - i + |ins| - j
    {
      assert outs[i..][0] == outs[i] && outs[i..][1..] == outs[i + 1..];
      assert ins[j..][0] == ins[j] && ins[j..][1..] == ins[j + 1..];
      if outs[i].e < ins[j].e {
        i := i + 1;
      } else if ins[j].e < outs[i].e {
        j := j + 1;
      } else {
        var a := Angle(outs[i].r, outs[i].e, ins[j].r);
        assert Merged(outs[i..], ins[j..]) == [a] + Merged(outs[i + 1..], ins[j + 1..]);
        result[k] := a;
        assert result[..k + 1] == result[..k] + [a];
        i, j, k := i + 1, j + 1, k + 1;
      }
    }
    assert Merged(outs[i..], ins[j..]) == [];
    r := result[..k];
  }

  // ---------------------------------------------------------------------
  // Event bookkeeping: the invariant

  /** Every scheduled time names a stored event whose data holds that
   *  time, and minus infinity (the unscheduled mark) is never a key. A
   *  stored time that is no longer a key is an event whose time was taken
   *  by a later one. */
  ghost predicate LedgerOk(t2be: map<Ext, Event>, ev2data: map<Event, EventData>) {
    NegInf !in t2be && forall t :: t in t2be ==> t2be[t] in ev2data && ev2data[t2be[t]].t == t
  }

  /** Under the invariant a stored event has at most one key, its stored
   *  time. */
  lemma LedgerKeyUnique(t2be: map<Ext, Event>, ev2data: map<Event, EventData>, t: Ext, u: Ext)
    requires LedgerOk(t2be, ev2data) && t in t2be && u in t2be && t2be[t] == t2be[u]
    ensures t == u
  {
  }

  /** `remove_event` as written: `ev2data.erase(ev)` frees the entry that
   *  `evd_` points to, and `t2be.erase(evd_->t)` then erases whatever time
   *  `stale` the freed memory holds. */
  function RemovedAsWritten(t2be: map<Ext, Event>, ev2data: map<Event, EventData>, ev: Event, stale: Ext):
    (r: (map<Ext, Event>, map<Event, EventData>))
    ensures r.1 == ev2data - {ev}
  {
    (t2be - {stale}, ev2data - {ev})
  }

  /** Unless the freed memory still holds the event's time, the as-written
   *  removal leaves the event's key behind, naming an event no longer
   *  stored: the invariant breaks. */
  lemma RemovedAsWrittenBreaksLedger(t2be: map<Ext, Event>, ev2data: map<Event, EventData>, ev: Event, stale: Ext)
    requires LedgerOk(t2be, ev2data) && ev in ev2data && ev2data[ev].t in t2be && t2be[ev2data[ev].t] == ev
    ensures var r := RemovedAsWritten(t2be, ev2data, ev, stale);
      LedgerOk(r.0, r.1) <==> stale == ev2data[ev].t
  {
    var r := RemovedAsWritten(t2be, ev2data, ev, stale);
    var t := ev2data[ev].t;
    if stale != t {
      assert t in r.0 && r.0[t] == ev && ev !in r.1;
    } else {
      forall u | u in r.0
        ensures r.0[u] in r.1 && r.1[r.0[u]].t == u
      {
      }
    }
  }

  /** One summary attempt of `pop_next_event` as drawn: the two entities
   *  drawn for the types (`random_entity`), whether the link between them
   *  exists already, whether the success draw passed, and the next time
   *  drawn for the summary event. */
  datatype SummaryDraw = SummaryDraw(e1: Entity, e3: Entity, linkExists: bool, success: bool, next: Ext)

  /** Draws of actual entities and of a proper next time. */
  predicate DrawsOk(draws: seq<SummaryDraw>) {
    forall k :: 0 <= k < |draws| ==> draws[k].e1 >= 0 && draws[k].e3 >= 0 && draws[k].next != NegInf
  }

  /** The earliest key of a non-empty schedule (`t2be.begin()`). */
  method EarliestTime(t2be: map<Ext, Event>) returns (t: Ext)
    requires t2be != map[]
    ensures t in t2be && forall u :: u in t2be ==> t.Le(u)
  {
    var rest := t2be.Keys;
    t :| t in rest;
    rest := rest - {t};
    while rest != {}
      invariant rest <= t2be.Keys && t in t2be
      invariant forall u :: u in t2be && u !in rest ==> t.Le(u)
      decreases |rest|
    {
      var u :| u in rest;
      if u.Lt(t) {
        forall v | v in t2be && v !in rest
          ensures u.Le(v)
        {
          LtIsStrictTotalOrder(u, t, v);
        }
        t := u;
      }
      rest := rest - {u};
    }
  }

  // ---------------------------------------------------------------------
  // Event bookkeeping: the globals and the operations

  /** The globals the bookkeeping works on: the schedule `t2be` from times
   *  to events, the event data `ev2data`, the clock, the time limit and
   *  the event to perform next. */
  class Ledger {
    var t2be: map<Ext, Event>
    var ev2data: map<Event, EventData>
    var currentT: Ext
    var maxT: Ext
    var currentEv: Event

    ghost predicate Valid()
      reads this
    {
      LedgerOk(t2be, ev2data)
    }

    constructor (currentT: Ext, maxT: Ext, currentEv: Event)
      ensures Valid() && t2be == map[] && ev2data == map[]
      ensures this.currentT == currentT && this.maxT == maxT && this.currentEv == currentEv
    {
      t2be := map[];
      ev2data := map[];
      this.currentT := currentT;
      this.maxT := maxT;
      this.currentEv := currentEv;
    }

    /** `event_is_scheduled`: the stored time lies above minus infinity. */
    function EventIsScheduled(ev: Event): (b: bool)
      reads this
      requires ev in ev2data
      ensures b <==> ev2data[ev].t != NegInf
    {
      NegInf.Lt(ev2data[ev].t)
    }

    /** `ev2data[ev] = {...}` in `add_event`: the new entry takes the
     *  default time minus infinity, so it is not scheduled. The invariant
     *  holds afterwards exactly when no key names the event. */
    method StoreEvent(ev: Event, nAngles: int, attemptRate: Ext, successProbunits: Ext)
      requires Valid()
      modifies this
      ensures ev2data == old(ev2data)[ev := EventData(nAngles, attemptRate, successProbunits, NegInf)]
      ensures t2be == old(t2be) && currentT == old(currentT) && maxT == old(maxT) && currentEv == old(currentEv)
      ensures !EventIsScheduled(ev)
      ensures Valid() <==> ev !in t2be.Values
    {
      ev2data := ev2data[ev := EventData(nAngles, attemptRate, successProbunits, NegInf)];
      if ev in t2be.Values {
        var t :| t in t2be && t2be[t] == ev;
        assert ev2data[t2be[t]].t != t;
      }
    }

    /** `schedule_event`: the event must be unscheduled; `_schedule_event`
     *  draws its time `t`, then sets `t2be[t] = ev` and `evd.t = t`. A time
     *  already in use is overwritten. */
    method ScheduleEvent(ev: Event, t: Ext)
      requires Valid() && ev in ev2data && !EventIsScheduled(ev) && t != NegInf
      modifies this
      ensures Valid() && ev in ev2data && EventIsScheduled(ev)
      ensures t2be == old(t2be)[t := ev] && ev2data == old(ev2data)[ev := old(ev2data)[ev].(t := t)]
      ensures currentT == old(currentT) && maxT == old(maxT) && currentEv == old(currentEv)
    {
      t2be := t2be[t := ev];
      ev2data := ev2data[ev := ev2data[ev].(t := t)];
    }

    /** `reschedule_event`: the event must be scheduled; its key is erased
     *  and a new time `t` drawn. */
    method RescheduleEvent(ev: Event, t: Ext)
      requires Valid() && ev in ev2data && EventIsScheduled(ev) && t != NegInf
      modifies this
      ensures Valid() && ev in ev2data && EventIsScheduled(ev)
      ensures t2be == (old(t2be) - {old(ev2data[ev].t)})[t := ev]
      ensures ev2data == old(ev2data)[ev := old(ev2data)[ev].(t := t)]
      ensures currentT == old(currentT) && maxT == old(maxT) && currentEv == old(currentEv)
    {
      t2be := t2be - {ev2data[ev].t};
      ev2data := ev2data[ev := ev2data[ev].(t := NegInf)];
      ScheduleEvent(ev, t);
    }

    /** `remove_event`, reading the time before the entry is erased: both
     *  the event's key and its entry are gone. */
    method RemoveEvent(ev: Event)
      requires Valid() && ev in ev2data && EventIsScheduled(ev)
      modifies this
      ensures Valid()
      ensures t2be == old(t2be) - {old(ev2data[ev].t)} && ev2data == old(ev2data) - {ev}
      ensures currentT == old(currentT) && maxT == old(maxT) && currentEv == old(currentEv)
    {
      var t := ev2data[ev].t;
      forall u | u in t2be && t2be[u] == ev
        ensures u == t
      {
      }
      t2be := t2be - {t};
      ev2data := ev2data - {ev};
    }

    /** `pop_next_event`: while nothing is found and the clock is below
     *  the limit, take the earliest scheduled time; with nothing scheduled,
     *  or nothing before the limit, the clock jumps to the limit and
     *  nothing is found. Otherwise the clock advances to that time (an
     *  instant event formally scheduled in the past leaves it), and a
     *  specific event there becomes the current event and is removed. A
     *  summary event tries the drawn pair of entities, which is found when
     *  they differ, are not linked, have no event of their own stored and
     *  the success draw passes; either way the summary event is
     *  rescheduled. `exhausted` says the draws ran out. */
    method PopNextEvent(draws: seq<SummaryDraw>) returns (found: bool, used: nat, exhausted: bool)
      requires Valid() && DrawsOk(draws)
      modifies this
      ensures Valid() && maxT == old(maxT) && used <= |draws|
      ensures old(currentT).Le(currentT)
      ensures !found && !exhausted ==> currentT == (if old(currentT).Lt(maxT) then maxT else old(currentT))
      ensures found ==> !exhausted && currentT.Lt(maxT) && currentEv.e1 >= 0 && currentEv !in ev2data
    {
      found, used, exhausted := false, 0, false;
      while !found && currentT.Lt(maxT)
        invariant Valid() && maxT == old(maxT) && used <= |draws| && !exhausted
        invariant old(currentT).Le(currentT)
        invariant old(currentT).Lt(maxT) ==> currentT.Lt(maxT)
        invariant !old(currentT).Lt(maxT) ==> currentT == old(currentT)
        invariant found ==> currentT.Lt(maxT) && currentEv.e1 >= 0 && currentEv !in ev2data
        decreases |draws| - used, if found then 0 else 1
      {
        LtIsStrictTotalOrder(old(currentT), currentT, maxT);
        if t2be == map[] {
          currentT := maxT;
          return;
        }
        var t := EarliestTime(t2be);
        if maxT.Le(t) {
          currentT := maxT;
          return;
        }
        var ev := t2be[t];
        if currentT.Lt(t) {
          LtIsStrictTotalOrder(old(currentT), currentT, t);
          currentT := t;
        }
        if ev.e1 < 0 {
          if used == |draws| {
            exhausted := true;
            return;
          }
          var d := draws[used];
          used := used + 1;
          if d.e1 != d.e3 && !d.linkExists {
            var actual := Event(EC_EST, d.e1, ev.rat13, d.e3);
            if actual !in ev2data && d.success {
              currentEv := actual;
              found := true;
            }
          }
          RescheduleEvent(ev, d.next);
        } else {
          currentEv := ev;
          RemoveEvent(ev);
          found := true;
        }
      }
    }
  }
}
