/** The three-tier event schedule of src/schedule.h (class `schedule_t`).
 *
 *  Events due at or before the current time sit in a short list (NOW),
 *  events due up to the time limit in a hash table with a lower bound on
 *  their times (LATER), events moved out of LATER in a time-ordered tree
 *  (SOONER), and events beyond the time limit in no container (NEVER).
 *  `ev2data` holds every event's data together with its tier tag. */
module Schedule {
  import opened ExtReal
  import opened DataModel

  datatype ScheduleClass = SC_NOW | SC_SOONER | SC_LATER | SC_NEVER

  /** `event_data` with the tier tag `sc` that `schedule_t` keeps in it. */
  datatype Entry = Entry(evd: EventData, sc: ScheduleClass)

  /** The tier `insert` and `update` choose for time `t`. */
  function TierFor(t: Ext, currentT: Ext, maxT: Ext): ScheduleClass {
    if maxT.Lt(t) then SC_NEVER else if currentT.Lt(t) then SC_LATER else SC_NOW
  }

  /** Beyond the limit is NEVER; after the current time and within the
   *  limit is LATER; at or before both is NOW. */
  lemma TierForCases(t: Ext, currentT: Ext, maxT: Ext)
    ensures TierFor(t, currentT, maxT) == SC_NEVER <==> maxT.Lt(t)
    ensures TierFor(t, currentT, maxT) == SC_LATER <==> currentT.Lt(t) && t.Le(maxT)
    ensures TierFor(t, currentT, maxT) == SC_NOW <==> t.Le(currentT) && t.Le(maxT)
    ensures TierFor(t, currentT, maxT) != SC_SOONER
  {
    LtIsStrictTotalOrder(t, currentT, maxT);
    LtIsStrictTotalOrder(t, maxT, currentT);
  }

  /** `r` is the smallest time in `m`, or +inf when no time is smaller. */
  ghost predicate IsMinOf(r: Ext, m: map<Event, Ext>) {
    (forall ev :: ev in m ==> r.Le(m[ev]))
    && (r == PosInf || exists ev :: ev in m && m[ev] == r)
  }

  /** The recomputation loop of `_update_min_t_later`: start from +inf and
   *  keep every strictly smaller time. */
  method MinOfTimes(m: map<Event, Ext>) returns (r: Ext)
    ensures IsMinOf(r, m)
    ensures m == map[] ==> r == PosInf
  {
    r := PosInf;
    var rest := m.Keys;
    while rest != {}
      invariant rest <= m.Keys
      invariant forall ev :: ev in m && ev !in rest ==> r.Le(m[ev])
      invariant r == PosInf || exists ev :: ev in m && m[ev] == r
      decreases |rest|
    {
      var ev :| ev in rest;
      if m[ev].Lt(r) {
        forall e | e in m && e !in rest
          ensures m[ev].Le(m[e])
        {
          LtIsStrictTotalOrder(m[ev], r, m[e]);
        }
        r := m[ev];
      }
      rest := rest - {ev};
    }
  }

  /** `k` is the first position of a minimal time in a NOW list: the first
   *  one found by a scan that keeps strictly smaller times. */
  ghost predicate IsFirstMin(s: seq<(Event, Ext)>, k: int) {
    0 <= k < |s|
    && (forall j :: 0 <= j < |s| ==> s[k].1.Le(s[j].1))
    && (forall j :: 0 <= j < k ==> s[k].1.Lt(s[j].1))
  }

  /** The linear search of `pop_min_t` over the NOW list. The search starts
   *  from +inf, so some entry must have a time below +inf. */
  method FirstMinimal(s: seq<(Event, Ext)>) returns (k: nat)
    requires exists i :: 0 <= i < |s| && s[i].1 != PosInf
    ensures IsFirstMin(s, k)
  {
    var minT := PosInf;
    var found := false;
    k := 0;
    var i := 0;
    while i < |s|
      invariant 0 <= i <= |s|
      invariant found ==> k < i && minT == s[k].1
      invariant !found ==> minT == PosInf && forall j :: 0 <= j < i ==> s[j].1 == PosInf
      invariant forall j :: 0 <= j < i ==> minT.Le(s[j].1)
      invariant found ==> forall j :: 0 <= j < k ==> minT.Lt(s[j].1)
    {
      if s[i].1.Lt(minT) {
        forall j | 0 <= j < i
          ensures s[i].1.Lt(s[j].1)
        {
          LtIsStrictTotalOrder(s[i].1, minT, s[j].1);
        }
        k, minT, found := i, s[i].1, true;
      }
      i := i + 1;
    }
    assert found;
  }

  /** Removing position `k` of a list. */
  function RemoveAt<T>(s: seq<T>, k: nat): (r: seq<T>)
    requires k < |s|
    ensures |r| == |s| - 1
    ensures forall j :: 0 <= j < k ==> r[j] == s[j]
    ensures forall j :: k <= j < |r| ==> r[j] == s[j + 1]
  {
    s[..k] + s[k + 1..]
  }

  /** The event data that `ev2data` holds, without the tier tags. */
  ghost function DataOf(d: map<Event, Entry>): map<Event, EventData> {
    map ev | ev in d :: d[ev].evd
  }

  lemma DataOfRemove(d: map<Event, Entry>, ev: Event)
    ensures DataOf(d - {ev}) == DataOf(d) - {ev}
  {
  }

  lemma DataOfStore(d: map<Event, Entry>, ev: Event, x: Entry)
    ensures DataOf(d[ev := x]) == DataOf(d)[ev := x.evd]
  {
  }

  /** The NOW list holds each NOW-tagged event exactly once, with its
   *  stored time, and `n_ev_now` is its length. */
  ghost predicate NowOk(now: seq<(Event, Ext)>, n: int, d: map<Event, Entry>) {
    n == |now|
    && (forall i, j :: 0 <= i < j < |now| ==> now[i].0 != now[j].0)
    && (forall i :: 0 <= i < |now| ==>
          now[i].0 in d && d[now[i].0].sc == SC_NOW && d[now[i].0].evd.t == now[i].1)
    && (forall ev :: ev in d && d[ev].sc == SC_NOW ==>
          exists i :: 0 <= i < |now| && now[i].0 == ev)
  }

  /** `ev2t_later` maps exactly the LATER-tagged events to their times,
   *  and `min_t_later` is a lower bound of those times. */
  ghost predicate LaterOk(later: map<Event, Ext>, minT: Ext, d: map<Event, Entry>) {
    (forall ev :: ev in later <==> ev in d && d[ev].sc == SC_LATER)
    && (forall ev :: ev in later ==> later[ev] == d[ev].evd.t)
    && (forall ev :: ev in later ==> minT.Le(later[ev]))
  }

  /** `t2ev_sooner` maps the time of each SOONER-tagged event to it. */
  ghost predicate SoonerOk(sooner: map<Ext, Event>, d: map<Event, Entry>) {
    (forall t :: t in sooner ==>
       sooner[t] in d && d[sooner[t]].sc == SC_SOONER && d[sooner[t]].evd.t == t)
    && (forall ev :: ev in d && d[ev].sc == SC_SOONER ==>
          d[ev].evd.t in sooner && sooner[d[ev].evd.t] == ev)
  }

  /** Two versions of `ev2data` that agree on the events tagged `sc`. */
  ghost predicate SameTier(d1: map<Event, Entry>, d2: map<Event, Entry>, sc: ScheduleClass) {
    (forall ev :: ev in d1 && d1[ev].sc == sc ==> ev in d2 && d2[ev] == d1[ev])
    && (forall ev :: ev in d2 && d2[ev].sc == sc ==> ev in d1 && d1[ev] == d2[ev])
  }

  lemma NowKeep(now: seq<(Event, Ext)>, n: int, d1: map<Event, Entry>, d2: map<Event, Entry>)
    requires NowOk(now, n, d1) && SameTier(d1, d2, SC_NOW)
    ensures NowOk(now, n, d2)
  {
  }

  lemma LaterKeep(later: map<Event, Ext>, m: Ext, d1: map<Event, Entry>, d2: map<Event, Entry>)
    requires LaterOk(later, m, d1) && SameTier(d1, d2, SC_LATER)
    ensures LaterOk(later, m, d2)
  {
  }

  lemma SoonerKeep(sooner: map<Ext, Event>, d1: map<Event, Entry>, d2: map<Event, Entry>)
    requires SoonerOk(sooner, d1) && SameTier(d1, d2, SC_SOONER)
    ensures SoonerOk(sooner, d2)
  {
  }

  /** Storing `x` for `ev` changes no tier other than those `ev` leaves and enters. */
  lemma StoreSameTier(d: map<Event, Entry>, ev: Event, x: Entry, sc: ScheduleClass)
    requires x.sc != sc && (ev in d ==> d[ev].sc != sc)
    ensures SameTier(d, d[ev := x], sc)
  {
  }

  lemma RemoveSameTier(d: map<Event, Entry>, ev: Event, sc: ScheduleClass)
    requires ev in d && d[ev].sc != sc
    ensures SameTier(d, d - {ev}, sc)
  {
  }

  /** Taking the entry at position `k` out of the NOW list and out of
   *  `ev2data` keeps all three tiers consistent. */
  lemma NowPop(now: seq<(Event, Ext)>, n: int, later: map<Event, Ext>, m: Ext,
               sooner: map<Ext, Event>, d: map<Event, Entry>, k: nat)
    requires NowOk(now, n, d) && LaterOk(later, m, d) && SoonerOk(sooner, d) && k < |now|
    ensures now[k].0 in d && DataOf(d - {now[k].0}) == DataOf(d) - {now[k].0}
    ensures NowOk(RemoveAt(now, k), n - 1, d - {now[k].0})
    ensures LaterOk(later, m, d - {now[k].0}) && SoonerOk(sooner, d - {now[k].0})
  {
    var ev := now[k].0;
    DataOfRemove(d, ev);
    NowRemove(now, d, d - {ev}, k, ev);
    RemoveSameTier(d, ev, SC_LATER);
    RemoveSameTier(d, ev, SC_SOONER);
    LaterKeep(later, m, d, d - {ev});
    SoonerKeep(sooner, d, d - {ev});
  }

  /** Removing position `k` (event `ev`, no longer NOW-tagged) from the NOW list. */
  lemma NowRemove(now: seq<(Event, Ext)>, d1: map<Event, Entry>, d2: map<Event, Entry>, k: nat, ev: Event)
    requires NowOk(now, |now|, d1) && k < |now| && now[k].0 == ev
    requires ev !in d2 || d2[ev].sc != SC_NOW
    requires forall e :: e != ev ==> (e in d2 <==> e in d1)
    requires forall e :: e != ev && e in d1 ==> d2[e] == d1[e]
    ensures NowOk(RemoveAt(now, k), |now| - 1, d2)
  {
    var r := RemoveAt(now, k);
    forall e | e in d2 && d2[e].sc == SC_NOW
      ensures exists i :: 0 <= i < |r| && r[i].0 == e
    {
      var j :| 0 <= j < |now| && now[j].0 == e;
      if j < k {
        assert r[j].0 == e;
      } else {
        assert r[j - 1].0 == e;
      }
    }
    forall i | 0 <= i < |r|
      ensures r[i].0 != ev && r[i].0 in d2
    {
      if i < k {
        assert r[i] == now[i];
      } else {
        assert r[i] == now[i + 1];
      }
    }
  }

  /** Appending `(ev, t)` for an event newly tagged NOW. */
  lemma NowAppend(now: seq<(Event, Ext)>, d1: map<Event, Entry>, d2: map<Event, Entry>, ev: Event, t: Ext)
    requires NowOk(now, |now|, d1)
    requires ev in d2 && d2[ev].sc == SC_NOW && d2[ev].evd.t == t
    requires ev in d1 ==> d1[ev].sc != SC_NOW
    requires forall e :: e != ev ==> (e in d2 <==> e in d1)
    requires forall e :: e != ev && e in d1 ==> d2[e] == d1[e]
    ensures NowOk(now + [(ev, t)], |now| + 1, d2)
  {
    var r := now + [(ev, t)];
    forall i | 0 <= i < |now|
      ensures now[i].0 != ev
    {
    }
    forall e | e in d2 && d2[e].sc == SC_NOW
      ensures exists i :: 0 <= i < |r| && r[i].0 == e
    {
      if e == ev {
        assert r[|now|].0 == e;
      } else {
        var j :| 0 <= j < |now| && now[j].0 == e;
        assert r[j].0 == e;
      }
    }
  }

  /** Overwriting the time of `ev`, staying NOW at position `k`. */
  lemma NowReplace(now: seq<(Event, Ext)>, d1: map<Event, Entry>, d2: map<Event, Entry>, k: nat, ev: Event, t: Ext)
    requires NowOk(now, |now|, d1) && k < |now| && now[k].0 == ev
    requires ev in d2 && d2[ev].sc == SC_NOW && d2[ev].evd.t == t
    requires forall e :: e != ev ==> (e in d2 <==> e in d1)
    requires forall e :: e != ev && e in d1 ==> d2[e] == d1[e]
    ensures NowOk(now[k := (ev, t)], |now|, d2)
  {
    var r := now[k := (ev, t)];
    forall e | e in d2 && d2[e].sc == SC_NOW
      ensures exists i :: 0 <= i < |r| && r[i].0 == e
    {
      if e == ev {
        assert r[k].0 == e;
      } else {
        var j :| 0 <= j < |now| && now[j].0 == e;
        assert r[j].0 == e;
      }
    }
  }

  /** Storing time `t` for `ev`, newly or again tagged LATER, and lowering the bound. */
  lemma LaterAdd(later: map<Event, Ext>, m: Ext, d1: map<Event, Entry>, d2: map<Event, Entry>, ev: Event, t: Ext)
    requires LaterOk(later - {ev}, m, d1 - {ev})
    requires ev in d2 && d2[ev].sc == SC_LATER && d2[ev].evd.t == t
    requires forall e :: e != ev ==> (e in d2 <==> e in d1)
    requires forall e :: e != ev && e in d1 ==> d2[e] == d1[e]
    ensures LaterOk(later[ev := t], if t.Lt(m) then t else m, d2)
  {
    var m' := if t.Lt(m) then t else m;
    var l2 := later[ev := t];
    forall e
      ensures e in l2 <==> e in d2 && d2[e].sc == SC_LATER
    {
      if e != ev {
        assert e in l2 <==> e in later - {ev};
        assert e in d2 <==> e in d1 - {ev};
      }
    }
    forall e | e in l2
      ensures l2[e] == d2[e].evd.t
    {
      if e != ev {
        assert e in later - {ev};
      }
    }
    forall e | e in l2
      ensures m'.Le(l2[e])
    {
      if e == ev {
        LtIsStrictTotalOrder(t, m, t);
      } else {
        assert e in later - {ev} && l2[e] == later[e];
        LtIsStrictTotalOrder(t, m, later[e]);
      }
    }
  }

  /** Removing `ev` from LATER keeps the (now possibly loose) lower bound. */
  lemma LaterRemove(later: map<Event, Ext>, m: Ext, d1: map<Event, Entry>, d2: map<Event, Entry>, ev: Event)
    requires LaterOk(later, m, d1)
    requires ev !in d2 || d2[ev].sc != SC_LATER
    requires forall e :: e != ev ==> (e in d2 <==> e in d1)
    requires forall e :: e != ev && e in d1 ==> d2[e] == d1[e]
    ensures LaterOk(later - {ev}, m, d2)
    ensures LaterOk(later - {ev}, m, d1 - {ev})
  {
  }

  /** An exact recomputation of the bound keeps `LaterOk`. */
  lemma LaterNewBound(later: map<Event, Ext>, m: Ext, m': Ext, d: map<Event, Entry>)
    requires LaterOk(later, m, d) && IsMinOf(m', later)
    ensures LaterOk(later, m', d)
  {
  }

  /** Removing the SOONER entry of `ev`. */
  lemma SoonerRemove(sooner: map<Ext, Event>, d1: map<Event, Entry>, d2: map<Event, Entry>, ev: Event)
    requires SoonerOk(sooner, d1) && ev in d1 && d1[ev].sc == SC_SOONER
    requires ev !in d2 || d2[ev].sc != SC_SOONER
    requires forall e :: e != ev ==> (e in d2 <==> e in d1)
    requires forall e :: e != ev && e in d1 ==> d2[e] == d1[e]
    ensures SoonerOk(sooner - {d1[ev].evd.t}, d2)
  {
  }

  /** LATER times are pairwise distinct and none is a SOONER key, so moving
   *  LATER into SOONER (a `std::map` keyed by time) overwrites nothing. */
  ghost predicate LaterTimesFresh(later: map<Event, Ext>, sooner: map<Ext, Event>) {
    (forall ev :: ev in later ==> later[ev] !in sooner)
    && (forall e1, e2 :: e1 in later && e2 in later && e1 != e2 ==> later[e1] != later[e2])
  }

  /** `ev2data` after every LATER event has been retagged SOONER. */
  ghost function Retagged(d: map<Event, Entry>, later: map<Event, Ext>): map<Event, Entry> {
    map ev | ev in d :: if ev in later then Entry(d[ev].evd, SC_SOONER) else d[ev]
  }

  lemma RetaggedKeepsData(d: map<Event, Entry>, later: map<Event, Ext>)
    ensures DataOf(Retagged(d, later)) == DataOf(d)
  {
  }

  class ScheduleT {
    var evTNow: seq<(Event, Ext)>
    var nEvNow: int
    var t2evSooner: map<Ext, Event>
    var ev2tLater: map<Event, Ext>
    var minTLater: Ext
    var ev2data: map<Event, Entry>

    /** Every stored event is in exactly the container its tag names. */
    ghost predicate Valid()
      reads this
    {
      NowOk(evTNow, nEvNow, ev2data) && LaterOk(ev2tLater, minTLater, ev2data)
      && SoonerOk(t2evSooner, ev2data)
    }

    /** The stored data of every event, without tier tags. */
    ghost function Contents(): map<Event, EventData>
      reads this
    {
      DataOf(ev2data)
    }

    constructor ()
      ensures Valid()
      ensures ev2data == map[] && evTNow == [] && t2evSooner == map[] && ev2tLater == map[]
      ensures minTLater == PosInf && Contents() == map[]
    {
      evTNow, nEvNow := [], 0;
      t2evSooner, ev2tLater := map[], map[];
      minTLater := PosInf;
      ev2data := map[];
    }

    /** `_find_now`: the position of `ev` in the NOW list, or its length. */
    method FindNow(ev: Event) returns (i: nat)
      ensures i <= |evTNow|
      ensures i < |evTNow| ==> evTNow[i].0 == ev
      ensures forall j :: 0 <= j < i ==> evTNow[j].0 != ev
    {
      i := 0;
      while i < |evTNow|
        invariant i <= |evTNow|
        invariant forall j :: 0 <= j < i ==> evTNow[j].0 != ev
      {
        if evTNow[i].0 == ev {
          return;
        }
        i := i + 1;
      }
    }

    /** `at`: the stored data of `ev`. */
    function At(ev: Event): (d: EventData)
      reads this
      requires Valid() && ev in ev2data
      ensures d == Contents()[ev]
    {
      ev2data[ev].evd
    }

    /** `_update_min_t_later`: recomputes `min_t_later` exactly, but only
     *  when the removed time was the current bound. */
    method UpdateMinTLater(removedT: Ext)
      modifies this`minTLater
      ensures removedT == old(minTLater) ==> IsMinOf(minTLater, ev2tLater)
      ensures removedT != old(minTLater) ==> minTLater == old(minTLater)
    {
      if removedT == minTLater {
        minTLater := MinOfTimes(ev2tLater);
      }
    }

    /** `pop`: removes `ev` from `ev2data` and from the container its tag
     *  names, and returns its entry. */
    method Pop(ev: Event) returns (e: Entry)
      requires Valid() && ev in ev2data
      modifies this
      ensures Valid()
      ensures e == old(ev2data)[ev]
      ensures ev2data == old(ev2data) - {ev}
      ensures Contents() == old(Contents()) - {ev}
      ensures e.sc == SC_LATER ==>
        ev2tLater == old(ev2tLater) - {ev}
        && (e.evd.t == old(minTLater) ==> IsMinOf(minTLater, ev2tLater))
        && (e.evd.t != old(minTLater) ==> minTLater == old(minTLater))
      ensures e.sc != SC_LATER ==> ev2tLater == old(ev2tLater) && minTLater == old(minTLater)
      ensures e.sc == SC_SOONER ==> t2evSooner == old(t2evSooner) - {e.evd.t}
      ensures e.sc != SC_SOONER ==> t2evSooner == old(t2evSooner)
      ensures e.sc == SC_NOW ==>
        exists k :: 0 <= k < |old(evTNow)| && old(evTNow)[k].0 == ev && evTNow == RemoveAt(old(evTNow), k)
      ensures e.sc != SC_NOW ==> evTNow == old(evTNow)
    {
      var d0 := ev2data;
      e := ev2data[ev];
      ev2data := ev2data - {ev};
      DataOfRemove(d0, ev);
      match e.sc
      case SC_LATER =>
        LaterRemove(ev2tLater, minTLater, d0, ev2data, ev);
        ev2tLater := ev2tLater - {ev};
        var m := minTLater;
        UpdateMinTLater(e.evd.t);
        if e.evd.t == m {
          LaterNewBound(ev2tLater, m, minTLater, ev2data);
        }
        RemoveSameTier(d0, ev, SC_NOW);
        RemoveSameTier(d0, ev, SC_SOONER);
        NowKeep(evTNow, nEvNow, d0, ev2data);
        SoonerKeep(t2evSooner, d0, ev2data);
      case SC_SOONER =>
        SoonerRemove(t2evSooner, d0, ev2data, ev);
        t2evSooner := t2evSooner - {e.evd.t};
        RemoveSameTier(d0, ev, SC_NOW);
        RemoveSameTier(d0, ev, SC_LATER);
        NowKeep(evTNow, nEvNow, d0, ev2data);
        LaterKeep(ev2tLater, minTLater, d0, ev2data);
      case SC_NOW =>
        var i := FindNow(ev);
        assert i < |evTNow|;
        NowRemove(evTNow, d0, ev2data, i, ev);
        evTNow := RemoveAt(evTNow, i);
        nEvNow := nEvNow - 1;
        RemoveSameTier(d0, ev, SC_LATER);
        RemoveSameTier(d0, ev, SC_SOONER);
        LaterKeep(ev2tLater, minTLater, d0, ev2data);
        SoonerKeep(t2evSooner, d0, ev2data);
      case SC_NEVER =>
        RemoveSameTier(d0, ev, SC_NOW);
        RemoveSameTier(d0, ev, SC_LATER);
        RemoveSameTier(d0, ev, SC_SOONER);
        NowKeep(evTNow, nEvNow, d0, ev2data);
        LaterKeep(ev2tLater, minTLater, d0, ev2data);
        SoonerKeep(t2evSooner, d0, ev2data);
    }

    /** `erase`: `pop` without returning the data. */
    method Erase(ev: Event)
      requires Valid() && ev in ev2data
      modifies this
      ensures Valid()
      ensures ev2data == old(ev2data) - {ev}
      ensures Contents() == old(Contents()) - {ev}
      ensures old(ev2data)[ev].sc == SC_LATER ==>
        ev2tLater == old(ev2tLater) - {ev}
        && (old(ev2data)[ev].evd.t == old(minTLater) ==> IsMinOf(minTLater, ev2tLater))
        && (old(ev2data)[ev].evd.t != old(minTLater) ==> minTLater == old(minTLater))
      ensures old(ev2data)[ev].sc != SC_LATER ==> ev2tLater == old(ev2tLater) && minTLater == old(minTLater)
      ensures old(ev2data)[ev].sc == SC_SOONER ==> t2evSooner == old(t2evSooner) - {old(ev2data)[ev].evd.t}
      ensures old(ev2data)[ev].sc != SC_SOONER ==> t2evSooner == old(t2evSooner)
      ensures old(ev2data)[ev].sc == SC_NOW ==>
        exists k :: 0 <= k < |old(evTNow)| && old(evTNow)[k].0 == ev && evTNow == RemoveAt(old(evTNow), k)
      ensures old(ev2data)[ev].sc != SC_NOW ==> evTNow == old(evTNow)
    {
      var _ := Pop(ev);
    }

    /** `insert`: stores `evd` for an absent event in the tier its time
     *  selects. */
    method Insert(ev: Event, evd: EventData, currentT: Ext, maxT: Ext)
      requires Valid() && ev !in ev2data
      modifies this
      ensures Valid()
      ensures ev2data == old(ev2data)[ev := Entry(evd, TierFor(evd.t, currentT, maxT))]
      ensures Contents() == old(Contents())[ev := evd]
      ensures t2evSooner == old(t2evSooner)
      ensures TierFor(evd.t, currentT, maxT) == SC_LATER ==>
        ev2tLater == old(ev2tLater)[ev := evd.t]
        && minTLater == (if evd.t.Lt(old(minTLater)) then evd.t else old(minTLater))
      ensures TierFor(evd.t, currentT, maxT) != SC_LATER ==>
        ev2tLater == old(ev2tLater) && minTLater == old(minTLater)
      ensures TierFor(evd.t, currentT, maxT) == SC_NOW ==> evTNow == old(evTNow) + [(ev, evd.t)]
      ensures TierFor(evd.t, currentT, maxT) != SC_NOW ==> evTNow == old(evTNow)
    {
      var t := evd.t;
      var sc := TierFor(t, currentT, maxT);
      var d0 := ev2data;
      var x := Entry(evd, sc);
      ev2data := ev2data[ev := x];
      DataOfStore(d0, ev, x);
      SoonerKeep(t2evSooner, d0, ev2data) by {
        StoreSameTier(d0, ev, x, SC_SOONER);
      }
      if sc == SC_NEVER {
        StoreSameTier(d0, ev, x, SC_NOW);
        StoreSameTier(d0, ev, x, SC_LATER);
        NowKeep(evTNow, nEvNow, d0, ev2data);
        LaterKeep(ev2tLater, minTLater, d0, ev2data);
      } else if sc == SC_LATER {
        assert ev2tLater - {ev} == ev2tLater && d0 - {ev} == d0;
        LaterAdd(ev2tLater, minTLater, d0, ev2data, ev, t);
        ev2tLater := ev2tLater[ev := t];
        if t.Lt(minTLater) {
          minTLater := t;
        }
        StoreSameTier(d0, ev, x, SC_NOW);
        NowKeep(evTNow, nEvNow, d0, ev2data);
      } else {
        NowAppend(evTNow, d0, ev2data, ev, t);
        evTNow := evTNow + [(ev, t)];
        nEvNow := nEvNow + 1;
        StoreSameTier(d0, ev, x, SC_LATER);
        LaterKeep(ev2tLater, minTLater, d0, ev2data);
      }
    }

    /** The NOW-list part of `update`. */
    ghost predicate NowUpdated(oldNow: seq<(Event, Ext)>, ev: Event, oldSc: ScheduleClass,
                               newSc: ScheduleClass, newT: Ext)
      reads this
    {
      if oldSc == SC_NOW && newSc == SC_NOW then
        exists k :: 0 <= k < |oldNow| && oldNow[k].0 == ev && evTNow == oldNow[k := (ev, newT)]
      else if oldSc == SC_NOW then
        exists k :: 0 <= k < |oldNow| && oldNow[k].0 == ev && evTNow == RemoveAt(oldNow, k)
      else if newSc == SC_NOW then
        evTNow == oldNow + [(ev, newT)]
      else
        evTNow == oldNow
    }


    /** The NOW-list part of `update`: erase, append, or overwrite the time
     *  in place when the event stays NOW. */
    method UpdateNow(ev: Event, d0: map<Event, Entry>, x: Entry)
      requires NowOk(evTNow, nEvNow, d0) && ev in d0 && ev2data == d0[ev := x]
      modifies this`evTNow, this`nEvNow
      ensures NowOk(evTNow, nEvNow, ev2data)
      ensures NowUpdated(old(evTNow), ev, d0[ev].sc, x.sc, x.evd.t)
    {
      var newT := x.evd.t;
      if d0[ev].sc == SC_NOW {
        var i := FindNow(ev);
        assert i < |evTNow|;
        if x.sc == SC_NOW {
          NowReplace(evTNow, d0, ev2data, i, ev, newT);
          evTNow := evTNow[i := (ev, newT)];
        } else {
          NowRemove(evTNow, d0, ev2data, i, ev);
          evTNow := RemoveAt(evTNow, i);
          nEvNow := nEvNow - 1;
        }
      } else if x.sc == SC_NOW {
        NowAppend(evTNow, d0, ev2data, ev, newT);
        evTNow := evTNow + [(ev, newT)];
        nEvNow := nEvNow + 1;
      } else {
        StoreSameTier(d0, ev, x, SC_NOW);
        NowKeep(evTNow, nEvNow, d0, ev2data);
      }
    }

    /** The SOONER part of `update`: a SOONER event leaves the tree. */
    method UpdateSooner(ev: Event, d0: map<Event, Entry>, x: Entry)
      requires SoonerOk(t2evSooner, d0) && ev in d0 && ev2data == d0[ev := x] && x.sc != SC_SOONER
      modifies this`t2evSooner
      ensures SoonerOk(t2evSooner, ev2data)
      ensures d0[ev].sc == SC_SOONER ==> t2evSooner == old(t2evSooner) - {d0[ev].evd.t}
      ensures d0[ev].sc != SC_SOONER ==> t2evSooner == old(t2evSooner)
    {
      if d0[ev].sc == SC_SOONER {
        SoonerRemove(t2evSooner, d0, ev2data, ev);
        t2evSooner := t2evSooner - {d0[ev].evd.t};
      } else {
        StoreSameTier(d0, ev, x, SC_SOONER);
        SoonerKeep(t2evSooner, d0, ev2data);
      }
    }

    /** The LATER part of `update`: store the new time and lower the bound,
     *  or erase the event and recompute the bound if it was the bound. */
    method UpdateLater(ev: Event, d0: map<Event, Entry>, x: Entry)
      requires LaterOk(ev2tLater, minTLater, d0) && ev in d0 && ev2data == d0[ev := x] && x.sc != SC_SOONER
      modifies this`ev2tLater, this`minTLater
      ensures LaterOk(ev2tLater, minTLater, ev2data)
      ensures x.sc == SC_LATER ==>
        ev2tLater == old(ev2tLater)[ev := x.evd.t]
        && minTLater == (if x.evd.t.Lt(old(minTLater)) then x.evd.t else old(minTLater))
      ensures x.sc != SC_LATER ==> ev2tLater == old(ev2tLater) - {ev}
      ensures x.sc != SC_LATER && d0[ev].sc == SC_LATER && d0[ev].evd.t == old(minTLater) ==>
        IsMinOf(minTLater, ev2tLater)
      ensures !(x.sc != SC_LATER && d0[ev].sc == SC_LATER && d0[ev].evd.t == old(minTLater)) ==>
        x.sc == SC_LATER || minTLater == old(minTLater)
    {
      var newT := x.evd.t;
      if x.sc == SC_LATER {
        LaterRemove(ev2tLater, minTLater, d0, d0 - {ev}, ev);
        LaterAdd(ev2tLater, minTLater, d0, ev2data, ev, newT);
        ev2tLater := ev2tLater[ev := newT];
        if newT.Lt(minTLater) {
          minTLater := newT;
        }
      } else if d0[ev].sc == SC_LATER {
        LaterRemove(ev2tLater, minTLater, d0, ev2data, ev);
        ev2tLater := ev2tLater - {ev};
        var m := minTLater;
        UpdateMinTLater(d0[ev].evd.t);
        if d0[ev].evd.t == m {
          LaterNewBound(ev2tLater, m, minTLater, ev2data);
        }
      } else {
        StoreSameTier(d0, ev, x, SC_LATER);
        LaterKeep(ev2tLater, minTLater, d0, ev2data);
        assert ev2tLater == ev2tLater - {ev};
      }
    }

    /** `update`: like `erase` followed by `insert`, except that an event
     *  staying in NOW keeps its list position and only its time changes. */
    method Update(ev: Event, newEvd: EventData, currentT: Ext, maxT: Ext)
      requires Valid() && ev in ev2data
      modifies this
      ensures Valid()
      ensures ev2data == old(ev2data)[ev := Entry(newEvd, TierFor(newEvd.t, currentT, maxT))]
      ensures Contents() == old(Contents())[ev := newEvd]
      ensures NowUpdated(old(evTNow), ev, old(ev2data)[ev].sc, TierFor(newEvd.t, currentT, maxT), newEvd.t)
      ensures old(ev2data)[ev].sc == SC_SOONER ==>
        t2evSooner == old(t2evSooner) - {old(ev2data)[ev].evd.t}
      ensures old(ev2data)[ev].sc != SC_SOONER ==> t2evSooner == old(t2evSooner)
      ensures TierFor(newEvd.t, currentT, maxT) == SC_LATER ==> ev2tLater == old(ev2tLater)[ev := newEvd.t]
      ensures TierFor(newEvd.t, currentT, maxT) != SC_LATER ==> ev2tLater == old(ev2tLater) - {ev}
      ensures TierFor(newEvd.t, currentT, maxT) == SC_LATER ==>
        minTLater == (if newEvd.t.Lt(old(minTLater)) then newEvd.t else old(minTLater))
      ensures (TierFor(newEvd.t, currentT, maxT) != SC_LATER && old(ev2data)[ev].sc == SC_LATER
               && old(ev2data)[ev].evd.t == old(minTLater))
        ==> IsMinOf(minTLater, ev2tLater)
      ensures (TierFor(newEvd.t, currentT, maxT) != SC_LATER
               && !(old(ev2data)[ev].sc == SC_LATER && old(ev2data)[ev].evd.t == old(minTLater)))
        ==> minTLater == old(minTLater)
    {
      var newSc := TierFor(newEvd.t, currentT, maxT);
      TierForCases(newEvd.t, currentT, maxT);
      var d0 := ev2data;
      var x := Entry(newEvd, newSc);
      ev2data := ev2data[ev := x];
      DataOfStore(d0, ev, x);
      UpdateNow(ev, d0, x);
      UpdateSooner(ev, d0, x);
      UpdateLater(ev, d0, x);
    }

    /** The NOW branch of `pop_min_t`: the first NOW entry of minimal time. */
    method PopFirstNow() returns (ev: Event, e: Entry)
      requires Valid() && exists i :: 0 <= i < |evTNow| && evTNow[i].1 != PosInf
      modifies this`evTNow, this`nEvNow, this`ev2data
      ensures Valid()
      ensures exists k :: IsFirstMin(old(evTNow), k) && old(evTNow)[k].0 == ev && evTNow == RemoveAt(old(evTNow), k)
      ensures ev in old(ev2data) && e == old(ev2data)[ev] && ev2data == old(ev2data) - {ev}
      ensures Contents() == old(Contents()) - {ev}
    {
      var k := FirstMinimal(evTNow);
      ev := evTNow[k].0;
      e := ev2data[ev];
      NowPop(evTNow, nEvNow, ev2tLater, minTLater, t2evSooner, ev2data, k);
      evTNow, nEvNow, ev2data := RemoveAt(evTNow, k), nEvNow - 1, ev2data - {ev};
    }

    /** The final step of the other branch of `pop_min_t`: the first entry
     *  of the SOONER tree, whose time is the smallest key. */
    method PopFirstSooner() returns (ev: Event, e: Entry)
      requires Valid() && t2evSooner != map[]
      modifies this`t2evSooner, this`ev2data
      ensures Valid()
      ensures ev == old(t2evSooner)[MinKey(old(t2evSooner).Keys)]
      ensures ev in old(ev2data) && e == old(ev2data)[ev] && ev2data == old(ev2data) - {ev}
      ensures e.sc == SC_SOONER && e.evd.t == MinKey(old(t2evSooner).Keys)
      ensures t2evSooner == old(t2evSooner) - {e.evd.t}
      ensures forall t :: t in t2evSooner ==> e.evd.t.Lt(t)
      ensures Contents() == old(Contents()) - {ev}
    {
      MinExists(t2evSooner.Keys);
      var t0 :| t0 in t2evSooner && forall u :: u in t2evSooner ==> t0.Le(u);
      MinKeyUnique(t2evSooner.Keys, t0);
      ev := t2evSooner[t0];
      var d0 := ev2data;
      e := ev2data[ev];
      ev2data := ev2data - {ev};
      DataOfRemove(d0, ev);
      SoonerRemove(t2evSooner, d0, ev2data, ev);
      t2evSooner := t2evSooner - {t0};
      RemoveSameTier(d0, ev, SC_NOW);
      RemoveSameTier(d0, ev, SC_LATER);
      NowKeep(evTNow, nEvNow, d0, ev2data);
      LaterKeep(ev2tLater, minTLater, d0, ev2data);
    }

    /** The bulk move of `pop_min_t`: every LATER entry goes into the SOONER
     *  tree and is retagged SOONER; LATER is cleared and its bound reset. */
    method MoveLaterToSooner()
      requires Valid() && LaterTimesFresh(ev2tLater, t2evSooner)
      modifies this`t2evSooner, this`ev2data, this`ev2tLater, this`minTLater
      ensures Valid()
      ensures ev2data == Retagged(old(ev2data), old(ev2tLater))
      ensures Contents() == old(Contents())
      ensures ev2tLater == map[] && minTLater == PosInf
      ensures Moved(old(t2evSooner), old(ev2tLater), old(ev2tLater).Keys, t2evSooner)
    {
      var later, s0, d0 := ev2tLater, t2evSooner, ev2data;
      assert LaterOk(later, NegInf, d0);
      var sooner, d := MoveAll(s0, later, d0);
      MoveDone(s0, later, d0, sooner, d, evTNow, nEvNow);
      RetaggedKeepsData(d0, later);
      t2evSooner, ev2data := sooner, d;
      ev2tLater, minTLater := map[], PosInf;
    }

    /** Where `pop_min_t` as written is defined: without a NOW event it
     *  reads `t2ev_sooner.begin()`, which needs a non-empty tree. */
    ghost predicate PopMinTAsWrittenDefined()
      reads this
    {
      nEvNow > 0 || t2evSooner != map[]
    }

    /** The intended condition for the bulk move of `pop_min_t`: no NOW
     *  event, and the tree is empty or starts after the LATER bound. */
    ghost predicate MovesFirst()
      reads this
    {
      nEvNow == 0 && (t2evSooner == map[] || minTLater.Lt(MinKey(t2evSooner.Keys)))
    }

    /** `pop_min_t`, with the bulk move also done when the tree is empty:
     *  with NOW events, removes the first NOW entry of minimal time;
     *  otherwise, when the tree is empty or the LATER bound is below its
     *  first time, first moves all of LATER into SOONER, then removes the
     *  earliest SOONER entry. Some event must be in a tier container, and
     *  the NOW scan starts from +inf, so some NOW time must be below +inf. */
    method PopMinT() returns (ev: Event, e: Entry)
      requires Valid()
      requires nEvNow > 0 || t2evSooner != map[] || ev2tLater != map[]
      requires nEvNow > 0 ==> exists i :: 0 <= i < |evTNow| && evTNow[i].1 != PosInf
      requires MovesFirst() ==> LaterTimesFresh(ev2tLater, t2evSooner)
      modifies this
      ensures Valid()
      ensures ev in old(Contents()) && e.evd == old(Contents())[ev]
      ensures Contents() == old(Contents()) - {ev}
      ensures old(nEvNow) > 0 ==>
        (exists k :: IsFirstMin(old(evTNow), k) && old(evTNow)[k].0 == ev && evTNow == RemoveAt(old(evTNow), k))
        && e == old(ev2data)[ev] && ev2data == old(ev2data) - {ev}
        && t2evSooner == old(t2evSooner) && ev2tLater == old(ev2tLater) && minTLater == old(minTLater)
      ensures old(nEvNow) == 0 ==>
        evTNow == old(evTNow) && e.sc == SC_SOONER
        && (forall t :: t in t2evSooner ==> e.evd.t.Lt(t))
        && (forall t :: t in old(t2evSooner) ==> e.evd.t.Le(t))
      ensures old(nEvNow) == 0 && !old(MovesFirst()) ==>
        old(t2evSooner) != map[]
        && ev == old(t2evSooner)[MinKey(old(t2evSooner).Keys)] && e == old(ev2data)[ev]
        && ev2data == old(ev2data) - {ev}
        && t2evSooner == old(t2evSooner) - {MinKey(old(t2evSooner).Keys)}
        && ev2tLater == old(ev2tLater) && minTLater == old(minTLater)
      ensures old(MovesFirst()) ==>
        ev2tLater == map[] && minTLater == PosInf
        && ev2data == Retagged(old(ev2data), old(ev2tLater)) - {ev}
        && (forall w :: w in old(ev2tLater) ==> e.evd.t.Le(old(ev2tLater)[w]))
    {
      if nEvNow > 0 {
        ev, e := PopFirstNow();
        DataOfRemove(old(ev2data), ev);
      } else {
        ghost var s0, later0, d0 := t2evSooner, ev2tLater, ev2data;
        var move := t2evSooner == map[];
        if !move {
          MinExists(t2evSooner.Keys);
          var first :| first in t2evSooner && forall u :: u in t2evSooner ==> first.Le(u);
          MinKeyUnique(t2evSooner.Keys, first);
          move := minTLater.Lt(first);
        }
        if move {
          MoveLaterToSooner();
          ghost var s1 := t2evSooner;
          if s0 == map[] {
            ghost var w :| w in later0;
            assert later0[w] in s1;
          }
          ev, e := PopFirstSooner();
          MovedBound(s0, later0, s1, e.evd.t);
          RetaggedKeepsData(d0, later0);
        } else {
          ev, e := PopFirstSooner();
        }
        DataOfRemove(old(ev2data), ev);
      }
    }
  }

  /** As written, `pop_min_t` reads the first entry of an empty tree in a
   *  state the class reaches: only its own bulk move ever files an event
   *  into SOONER, so a new schedule holding one LATER event has no NOW
   *  event and an empty tree. */
  method EmptyTreeReached(ev: Event, evd: EventData, currentT: Ext, maxT: Ext) returns (s: ScheduleT)
    requires TierFor(evd.t, currentT, maxT) == SC_LATER
    ensures s.Valid() && s.Contents() == map[ev := evd]
    ensures s.nEvNow == 0 && s.t2evSooner == map[] && s.ev2tLater == map[ev := evd.t]
    ensures !s.PopMinTAsWrittenDefined()
  {
    s := new ScheduleT();
    s.Insert(ev, evd, currentT, maxT);
  }

  /** After moving the events `done` of `later` into `sooner`: the old
   *  SOONER entries are kept, each moved event is filed under its time, and
   *  nothing else is there. */
  ghost predicate Moved(s0: map<Ext, Event>, later: map<Event, Ext>, done: set<Event>, sooner: map<Ext, Event>) {
    (forall t :: t in s0 ==> t in sooner && sooner[t] == s0[t])
    && (forall ev :: ev in done ==> ev in later && later[ev] in sooner && sooner[later[ev]] == ev)
    && (forall t :: t in sooner ==> t in s0 || exists ev :: ev in done && later[ev] == t)
  }

  /** The state of `ev2data` and the tree part way through the bulk move. */
  ghost predicate MovePartial(s0: map<Ext, Event>, later: map<Event, Ext>, d0: map<Event, Entry>,
                              done: set<Event>, sooner: map<Ext, Event>, d: map<Event, Entry>) {
    done <= later.Keys && d.Keys == d0.Keys
    && (forall ev :: ev in d0 ==>
          d[ev] == (if ev in done then Entry(d0[ev].evd, SC_SOONER) else d0[ev]))
    && Moved(s0, later, done, sooner)
  }

  /** One more event filed in the tree keeps `Moved`. */
  lemma MovedStep(s0: map<Ext, Event>, later: map<Event, Ext>, done: set<Event>,
                  sooner: map<Ext, Event>, ev: Event)
    requires Moved(s0, later, done, sooner) && LaterTimesFresh(later, s0)
    requires done <= later.Keys && ev in later && ev !in done
    ensures Moved(s0, later, done + {ev}, sooner[later[ev] := ev])
  {
    var t := later[ev];
    forall e | e in done
      ensures later[e] != t
    {
    }
    var s2 := sooner[t := ev];
    forall u | u in s2
      ensures u in s0 || exists e :: e in done + {ev} && later[e] == u
    {
      if u != t && u !in s0 {
        var e :| e in done && later[e] == u;
        assert e in done + {ev};
      }
    }
  }

  lemma MoveStep(s0: map<Ext, Event>, later: map<Event, Ext>, d0: map<Event, Entry>,
                 done: set<Event>, sooner: map<Ext, Event>, d: map<Event, Entry>, ev: Event)
    requires MovePartial(s0, later, d0, done, sooner, d) && LaterTimesFresh(later, s0)
    requires LaterOk(later, NegInf, d0)
    requires ev in later && ev !in done
    ensures MovePartial(s0, later, d0, done + {ev}, sooner[later[ev] := ev],
                        d[ev := Entry(d[ev].evd, SC_SOONER)])
  {
    MovedStep(s0, later, done, sooner, ev);
  }

  /** The loop of the bulk move on values: files every LATER event under
   *  its time in the tree and retags it SOONER. */
  method MoveAll(s0: map<Ext, Event>, later: map<Event, Ext>, d0: map<Event, Entry>)
    returns (sooner: map<Ext, Event>, d: map<Event, Entry>)
    requires LaterTimesFresh(later, s0) && LaterOk(later, NegInf, d0)
    ensures MovePartial(s0, later, d0, later.Keys, sooner, d)
  {
    sooner, d := s0, d0;
    var done: set<Event> := {};
    while done != later.Keys
      invariant done <= later.Keys
      invariant MovePartial(s0, later, d0, done, sooner, d)
      decreases later.Keys - done
    {
      assert later.Keys - done != {};
      var ev :| ev in later.Keys - done;
      MoveStep(s0, later, d0, done, sooner, d, ev);
      sooner := sooner[later[ev] := ev];
      d := d[ev := Entry(d[ev].evd, SC_SOONER)];
      done := done + {ev};
    }
  }

  lemma MoveDone(s0: map<Ext, Event>, later: map<Event, Ext>, d0: map<Event, Entry>,
                 sooner: map<Ext, Event>, d: map<Event, Entry>,
                 now: seq<(Event, Ext)>, n: int)
    requires MovePartial(s0, later, d0, later.Keys, sooner, d)
    requires NowOk(now, n, d0) && LaterOk(later, NegInf, d0) && SoonerOk(s0, d0)
    ensures d == Retagged(d0, later) && Moved(s0, later, later.Keys, sooner)
    ensures NowOk(now, n, d) && LaterOk(map[], PosInf, d) && SoonerOk(sooner, d)
  {
    assert SameTier(d0, d, SC_NOW);
    forall t | t in sooner
      ensures sooner[t] in d && d[sooner[t]].sc == SC_SOONER && d[sooner[t]].evd.t == t
    {
      if t !in s0 {
        var e :| e in later && later[e] == t;
      }
    }
  }

  /** After the move, the first SOONER time is no later than any moved time
   *  or any earlier SOONER time. */
  lemma MovedBound(s0: map<Ext, Event>, later: map<Event, Ext>, s1: map<Ext, Event>, t0: Ext)
    requires Moved(s0, later, later.Keys, s1) && s1 != map[] && t0 == MinKey(s1.Keys)
    ensures forall w :: w in later ==> t0.Le(later[w])
    ensures forall t :: t in s0 ==> t0.Le(t)
  {
  }
}
