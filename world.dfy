/** The global state of the simulator (the variables that the source keeps
 *  in global scope) as one object, the parameter tables it reads, and the
 *  invariant that its operations keep. */
module State {
  import opened Wrappers
  import opened ExtReal
  import opened DataModel

  /** The random number generator as a pair of streams: the k-th uniform draw
   *  in [0, 1) and the k-th exponential draw (rate 1), which is >= 0. Every
   *  draw the simulator makes consumes the next position. */
  datatype Rng = Rng(uniform: nat -> real, exponential: nat -> real)

  ghost predicate RngOk(g: Rng) {
    forall k: nat :: 0.0 <= g.uniform(k) < 1.0 && g.exponential(k) >= 0.0
  }

  /** The parameters that the configuration fixes before the run starts.
   *  `attemptRateAt` and `deltaProbunitAt` are the arrays
   *  `_inflt2attempt_rate` and `_inflt2delta_probunit` indexed by INFLT (an
   *  index without an entry holds the 0.0 that initialisation wrote);
   *  `deltaProbunit` is the sparse map `inflt2delta_probunit`.
   *  `effectiveRate` and `probunitToProbability` are the numeric transforms
   *  of the probability module, taken as given functions. */
  datatype Tables = Tables(
    nRats: nat,
    maxT: Ext,
    maxNEvents: int,
    rat2inv: map<Rat, Rat>,
    ets2relations: map<(EntityType, EntityType), seq<Rat>>,
    evt2baseProbunit: map<EventType, Ext>,
    attemptRateAt: map<nat, Ext>,
    deltaProbunitAt: map<nat, Ext>,
    deltaProbunit: map<InfluenceType, Ext>,
    countAllAngles: bool,
    effectiveRate: (Ext, Ext) -> Ext,
    probunitToProbability: Ext -> real)

  /** `rat2inv[r]`: a missing entry reads as NO_RAT. */
  function InverseRat(tb: Tables, r: Rat): (inv: Rat)
    ensures r in tb.rat2inv ==> inv == tb.rat2inv[r]
    ensures r !in tb.rat2inv ==> inv == NO_RAT
  {
    if r in tb.rat2inv then tb.rat2inv[r] else NO_RAT
  }

  /** `ets2relations[{et1, et3}]`: a missing entry reads as the empty set. */
  function Relations(tb: Tables, et1: EntityType, et3: EntityType): (rs: seq<Rat>)
    ensures (et1, et3) in tb.ets2relations ==> rs == tb.ets2relations[(et1, et3)]
    ensures (et1, et3) !in tb.ets2relations ==> rs == []
  {
    if (et1, et3) in tb.ets2relations then tb.ets2relations[(et1, et3)] else []
  }

  /** `_inflt2attempt_rate[INFLT(i)]`. */
  function AttemptRateOf(tb: Tables, i: InfluenceType): (ar: Ext)
    ensures Inflt(i) !in tb.attemptRateAt ==> ar == Zero
  {
    if Inflt(i) in tb.attemptRateAt then tb.attemptRateAt[Inflt(i)] else Zero
  }

  /** `_inflt2delta_probunit[INFLT(i)]`. */
  function DeltaProbunitOf(tb: Tables, i: InfluenceType): (dsl: Ext)
    ensures Inflt(i) !in tb.deltaProbunitAt ==> dsl == Zero
  {
    if Inflt(i) in tb.deltaProbunitAt then tb.deltaProbunitAt[Inflt(i)] else Zero
  }

  /** What the configuration guarantees about the tables: a finite time
   *  limit, non-negative attempt rates, finite probunit changes and base
   *  probunits above minus infinity, and relation sets without repeats. */
  predicate TablesOk(tb: Tables) {
    && tb.maxT.Fin?
    && (forall k :: k in tb.attemptRateAt ==> Zero.Le(tb.attemptRateAt[k]))
    && (forall k :: k in tb.deltaProbunitAt ==> tb.deltaProbunitAt[k].Fin?)
    && (forall i :: i in tb.deltaProbunit ==> tb.deltaProbunit[i].Fin?)
    && (forall evt :: evt in tb.evt2baseProbunit ==> tb.evt2baseProbunit[evt] != NegInf)
    && (forall p :: p in tb.ets2relations ==> Distinct(tb.ets2relations[p]))
  }

  /** No element occurs twice (a `std::set` read as a sequence). */
  predicate Distinct<T(==)>(s: seq<T>) {
    forall i, j :: 0 <= i < j < |s| ==> s[i] != s[j]
  }

  lemma TableValues(tb: Tables, i: InfluenceType)
    requires TablesOk(tb)
    ensures Zero.Le(AttemptRateOf(tb, i)) && DeltaProbunitOf(tb, i).Fin?
  {
  }

  // ---------------------------------------------------------------------
  // Leg sets

  /** `e2outs[e]` and `e2ins[e]`, reading a missing entity as the empty set. */
  function OutsOf(m: map<Entity, seq<OutLeg>>, e: Entity): seq<OutLeg> {
    if e in m then m[e] else []
  }

  function InsOf(m: map<Entity, seq<InLeg>>, e: Entity): seq<InLeg> {
    if e in m then m[e] else []
  }

  predicate LinkIn(outs: map<Entity, seq<OutLeg>>, l: Link) {
    OutLeg(l.rat13, l.e3) in OutsOf(outs, l.e1)
  }

  predicate LegsSorted(outs: map<Entity, seq<OutLeg>>, ins: map<Entity, seq<InLeg>>) {
    && (forall e :: e in outs ==> OutLegsSorted(outs[e]))
    && (forall e :: e in ins ==> InLegsSorted(ins[e]))
  }

  /** Every out-leg has its in-leg at the other end and vice versa: the leg
   *  (r, e3) is in the out-set of e1 exactly when (e1, r) is in the in-set
   *  of e3. */
  ghost predicate Mirrored(outs: map<Entity, seq<OutLeg>>, ins: map<Entity, seq<InLeg>>) {
    forall e1: Entity, r: Rat, e3: Entity :: MirroredAt(outs, ins, e1, r, e3)
  }

  /** The mirror condition for one link (e1, r, e3). */
  predicate MirroredAt(outs: map<Entity, seq<OutLeg>>, ins: map<Entity, seq<InLeg>>, e1: Entity, r: Rat, e3: Entity) {
    OutLeg(r, e3) in OutsOf(outs, e1) <==> InLeg(e1, r) in InsOf(ins, e3)
  }

  /** Entity ids in use lie in 0..maxE (maxE starts at -1), every leg set belongs to an entity
   *  in use, and the per-type entity lists hold entities in use. */
  predicate EntitiesOk(es: set<Entity>, maxE: int, outs: map<Entity, seq<OutLeg>>,
                       ins: map<Entity, seq<InLeg>>, et2es: map<EntityType, seq<Entity>>) {
    && maxE >= -1
    && (forall e :: e in es ==> 0 <= e <= maxE)
    && (forall e :: e in outs ==> e in es)
    && (forall e :: e in ins ==> e in es)
    && (forall et, k :: et in et2es && 0 <= k < |et2es[et]| ==> et2es[et][k] in es)
  }

  // ---------------------------------------------------------------------
  // Event bookkeeping

  /** The bounds every stored event keeps. */
  predicate DataBounds(d: EventData) {
    d.nAngles >= 0 && Zero.Le(d.attemptRate) && d.successProbunits != NegInf
  }

  /** Every stored event is within bounds and scheduled, except `pending`,
   *  which is stored (between `ev2data[ev] = ...` and `schedule_event`)
   *  with t = -inf. */
  predicate EntriesOk(d: map<Event, EventData>, pending: Option<Event>) {
    && (pending.Some? ==> pending.value in d)
    && (forall ev :: ev in d ==> DataBounds(d[ev]))
    && (forall ev :: ev in d ==> (d[ev].t == NegInf <==> pending == Some(ev)))
  }

  /** Every key of `t2be` is a time above minus infinity, names a stored event,
   *  and is that event's time. */
  predicate KeysNameEvents(d: map<Event, EventData>, t2be: map<Ext, Event>) {
    forall t :: t in t2be ==> t != NegInf && t2be[t] in d && d[t2be[t]].t == t
  }

  /** Every scheduled event is the one its time maps to. */
  predicate EventsHaveKeys(d: map<Event, EventData>, t2be: map<Ext, Event>) {
    forall ev :: ev in d && d[ev].t != NegInf ==> d[ev].t in t2be && t2be[d[ev].t] == ev
  }

  /** `t2be` is the inverse of the time field of `ev2data`. */
  predicate Inverse(d: map<Event, EventData>, t2be: map<Ext, Event>) {
    KeysNameEvents(d, t2be) && EventsHaveKeys(d, t2be)
  }

  /** Storing a fresh unscheduled event keeps the inverse. */
  lemma InverseStore(d: map<Event, EventData>, t2be: map<Ext, Event>, ev: Event, x: EventData)
    requires ev !in d && x.t == NegInf
    ensures KeysNameEvents(d, t2be) ==> KeysNameEvents(d[ev := x], t2be)
    ensures EventsHaveKeys(d, t2be) ==> EventsHaveKeys(d[ev := x], t2be)
  {
  }

  /** Changing the counts of an event, but not its time, keeps the inverse. */
  lemma InverseRetouch(d: map<Event, EventData>, t2be: map<Ext, Event>, ev: Event, x: EventData)
    requires ev in d && x.t == d[ev].t
    ensures KeysNameEvents(d, t2be) ==> KeysNameEvents(d[ev := x], t2be)
    ensures EventsHaveKeys(d, t2be) ==> EventsHaveKeys(d[ev := x], t2be)
  {
  }

  /** Scheduling an unscheduled event at `t`: the keys keep naming their
   *  events even when `t` was taken, and the inverse survives exactly when
   *  `t` was free. */
  lemma InverseSchedule(d: map<Event, EventData>, t2be: map<Ext, Event>, ev: Event, t: Ext)
    requires ev in d && d[ev].t == NegInf && t != NegInf
    ensures KeysNameEvents(d, t2be) ==> KeysNameEvents(d[ev := d[ev].(t := t)], t2be[t := ev])
    ensures Inverse(d, t2be) && t !in t2be ==> Inverse(d[ev := d[ev].(t := t)], t2be[t := ev])
  {
  }

  /** Erasing an event's key and marking it unscheduled. */
  lemma InverseUnschedule(d: map<Event, EventData>, t2be: map<Ext, Event>, ev: Event)
    requires ev in d && d[ev].t != NegInf
    ensures KeysNameEvents(d, t2be) ==> KeysNameEvents(d[ev := d[ev].(t := NegInf)], t2be - {d[ev].t})
    ensures Inverse(d, t2be) ==> Inverse(d[ev := d[ev].(t := NegInf)], t2be - {d[ev].t})
  {
  }

  /** Erasing an event together with its key. */
  lemma InverseRemove(d: map<Event, EventData>, t2be: map<Ext, Event>, ev: Event)
    requires ev in d && d[ev].t != NegInf
    ensures KeysNameEvents(d, t2be) ==> KeysNameEvents(d - {ev}, t2be - {d[ev].t})
    ensures Inverse(d, t2be) ==> Inverse(d - {ev}, t2be - {d[ev].t})
  {
  }

  /** The simulator's global variables (the ones the source keeps in global
   *  scope). `collided` records, for the proofs only, whether some drawn
   *  time ever coincided with a scheduled one (`t2be[t] = ev` then
   *  overwrites the earlier event's key); `nDraws` counts the random draws
   *  made so far. */
  datatype Globals = Globals(
    e2outs: map<Entity, seq<OutLeg>>,
    e2ins: map<Entity, seq<InLeg>>,
    nLinks: int,
    es: set<Entity>,
    maxE: int,
    e2et: map<Entity, EntityType>,
    et2es: map<EntityType, seq<Entity>>,
    e2label: map<Entity, string>,
    ev2data: map<Event, EventData>,
    t2be: map<Ext, Event>,
    currentT: Ext,
    currentEv: Event,
    nAngles: int,
    nEvents: int,
    nDraws: nat,
    collided: bool)

  /** The state before initialisation: no entities, links or events, time 0. */
  const Initial: Globals :=
    Globals(map[], map[], 0, {}, -1, map[], map[], map[], map[], map[], Zero,
            Event(EC_EST, 0, NO_RAT, 0), 0, 0, 0, false)

  /** The invariant on the global variables, with `pending` the one event
   *  (if any) that is stored but not yet scheduled. */
  ghost predicate GlobalsOk(g: Globals, tb: Tables, rng: Rng, pending: Option<Event>) {
    && LegsSorted(g.e2outs, g.e2ins) && Mirrored(g.e2outs, g.e2ins)
    && EntitiesOk(g.es, g.maxE, g.e2outs, g.e2ins, g.et2es)
    && EntriesOk(g.ev2data, pending)
    && KeysNameEvents(g.ev2data, g.t2be)
    && (!g.collided ==> EventsHaveKeys(g.ev2data, g.t2be))
    && g.currentT.Fin? && TablesOk(tb) && RngOk(rng)
  }

  /** The invariant does not read the counters (`nLinks`, `nAngles`,
   *  `nEvents`, `nDraws`) or the current event. */
  lemma CountersFree(g: Globals, g': Globals, tb: Tables, rng: Rng, pending: Option<Event>)
    requires GlobalsOk(g, tb, rng, pending)
    requires g'.e2outs == g.e2outs && g'.e2ins == g.e2ins && g'.es == g.es && g'.maxE == g.maxE
    requires g'.et2es == g.et2es && g'.ev2data == g.ev2data && g'.t2be == g.t2be
    requires g'.currentT == g.currentT && g'.collided == g.collided
    ensures GlobalsOk(g', tb, rng, pending)
  {
  }

  lemma InitialOk(tb: Tables, rng: Rng)
    requires TablesOk(tb) && RngOk(rng)
    ensures GlobalsOk(Initial, tb, rng, None)
  {
  }

  /** The one mutable object of the model: the global variables, the
   *  parameter tables and the random number stream. Each operation replaces
   *  `g` by the state it leaves. */
  class World {
    var g: Globals
    const tb: Tables
    const rng: Rng

    ghost predicate Sound(pending: Option<Event>)
      reads this
    {
      GlobalsOk(g, tb, rng, pending)
    }

    ghost predicate Valid()
      reads this
    {
      Sound(None)
    }

    constructor (tb: Tables, rng: Rng)
      requires TablesOk(tb) && RngOk(rng)
      ensures Valid() && g == Initial
      ensures this.tb == tb && this.rng == rng
    {
      this.tb := tb;
      this.rng := rng;
      g := Initial;
      InitialOk(tb, rng);
    }
  }

  /** The entity type of `e` (`_e2et[E(e)]`, zero for an unset entry). */
  function EtOf(e2et: map<Entity, EntityType>, e: Entity): EntityType {
    if e in e2et then e2et[e] else 0
  }
}
