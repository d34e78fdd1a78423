/** The state-building half of src/init.cpp: `init_entities` registers the
 *  configured entities and creates the rest of each type, `init_summary_events`
 *  schedules one summary event per spontaneously establishable link type, and
 *  `init_links` adds the identity legs, the configured links and the random
 *  links of the block model. Each works on the one World object. */
module Init {
  import opened Wrappers
  import opened ExtReal
  import opened DataModel
  import opened State
  import opened Entities
  import opened Events

  // ---------------------------------------------------------------------
  // init_entities

  /** `et2es[et]`, a missing type reading as the empty list. */
  function ListOf(et2es: map<EntityType, seq<Entity>>, et: EntityType): seq<Entity> {
    if et in et2es then et2es[et] else []
  }

  /** `et2n[et]`, a missing type reading as zero. */
  function CountOf(et2n: map<EntityType, int>, et: EntityType): int {
    if et in et2n then et2n[et] else 0
  }

  /** The label an entity ends up with: the configured one, else its id. */
  function LabelOf(labels: map<Entity, string>, e: Entity): string
    requires e >= 0
  {
    if e in labels then labels[e] else Decimal(e)
  }

  /** The types named by the configured entity counts or entities (the keys
   *  of `vt2remaining_n` once the configured entities are counted off). */
  function TypesNamed(pre: map<Entity, EntityType>, et2n: map<EntityType, int>): set<EntityType> {
    et2n.Keys + set e | e in pre :: pre[e]
  }

  /** How many of the configured entities among `done` are of type `et`. */
  ghost function DoneOfType(pre: map<Entity, EntityType>, done: set<Entity>, et: EntityType): nat {
    |set x | x in done && x in pre && pre[x] == et|
  }

  /** When `init_entities` gets through: every configured id is
   *  non-negative and no type has more configured entities than its count
   *  (a type without a count has count zero; a negative count fails). */
  ghost predicate EntitiesFit(pre: map<Entity, EntityType>, et2n: map<EntityType, int>) {
    && (forall e :: e in pre ==> e >= 0)
    && (forall et :: et in TypesNamed(pre, et2n) ==> DoneOfType(pre, pre.Keys, et) <= CountOf(et2n, et))
  }

  /** Every listed entity is in use with the type of its list, every entity
   *  in use is listed under its type, no list repeats an entity, and the
   *  type map covers exactly the entities in use. */
  ghost predicate Registered(g: Globals) {
    && g.e2et.Keys == g.es
    && (forall et, k :: et in g.et2es && 0 <= k < |g.et2es[et]| ==> EtOf(g.e2et, g.et2es[et][k]) == et)
    && (forall e :: e in g.es ==> e in ListOf(g.et2es, EtOf(g.e2et, e)))
    && (forall et :: et in g.et2es ==> Distinct(g.et2es[et]))
  }

  /** Creating an entity keeps it registered: it is new and appended to
   *  its type's list, and only that list grows, by one. */
  lemma WithEntityRegistered(g: Globals, et: EntityType)
    requires EntitiesOk(g.es, g.maxE, g.e2outs, g.e2ins, g.et2es) && Registered(g)
    ensures var g' := WithEntity(g, et);
      && Registered(g')
      && |ListOf(g'.et2es, et)| == |ListOf(g.et2es, et)| + 1
      && (forall t :: t != et ==> ListOf(g'.et2es, t) == ListOf(g.et2es, t))
  {
    var e, g' := g.maxE + 1, WithEntity(g, et);
    var list := ListOf(g.et2es, et);
    NewIdUnlisted(g, e, et);
    forall t, k | t in g'.et2es && 0 <= k < |g'.et2es[t]|
      ensures EtOf(g'.e2et, g'.et2es[t][k]) == t
    {
      if t == et && k < |list| {
        assert g'.et2es[t][k] == list[k] && list[k] in g.es;
      } else if t != et {
        assert g.et2es[t][k] in g.es;
      }
    }
    forall x | x in g'.es ensures x in ListOf(g'.et2es, EtOf(g'.e2et, x)) {
      if x != e {
        assert x in ListOf(g.et2es, EtOf(g.e2et, x));
      } else {
        assert g'.et2es[et][|list|] == e;
      }
    }
  }

  /** An id not in use is in no type's list. */
  lemma NewIdUnlisted(g: Globals, e: Entity, et: EntityType)
    requires EntitiesOk(g.es, g.maxE, g.e2outs, g.e2ins, g.et2es) && e !in g.es
    ensures e !in ListOf(g.et2es, et)
  {
    var list := ListOf(g.et2es, et);
    assert forall k :: 0 <= k < |list| ==> list[k] in g.es;
  }

  /** One configured entity as the first loop of `init_entities` records it:
   *  in use, `max_e` raised to it, its id as label unless it has one,
   *  empty leg sets unless it has them, its type, and the end of its
   *  type's list. */
  function PreRegistered(g: Globals, e: Entity, et: EntityType): (g': Globals)
    requires e >= 0
  {
    g.(es := g.es + {e}, maxE := if e > g.maxE then e else g.maxE,
       e2label := if e in g.e2label then g.e2label else g.e2label[e := Decimal(e)],
       e2outs := if e in g.e2outs then g.e2outs else g.e2outs[e := []],
       e2ins := if e in g.e2ins then g.e2ins else g.e2ins[e := []],
       e2et := g.e2et[e := et],
       et2es := g.et2es[et := ListOf(g.et2es, et) + [e]])
  }

  /** Recording a new configured entity keeps the invariant: its empty leg
   *  sets change no entity's legs. */
  lemma PreRegisteredOk(g: Globals, tb: Tables, rng: Rng, e: Entity, et: EntityType)
    requires GlobalsOk(g, tb, rng, None) && e >= 0 && e !in g.es
    ensures GlobalsOk(PreRegistered(g, e, et), tb, rng, None)
  {
    var g' := PreRegistered(g, e, et);
    assert e !in g.e2outs && e !in g.e2ins;
    forall x ensures OutsOf(g'.e2outs, x) == OutsOf(g.e2outs, x) && InsOf(g'.e2ins, x) == InsOf(g.e2ins, x) {
    }
    forall e1: Entity, r: Rat, e3: Entity ensures MirroredAt(g'.e2outs, g'.e2ins, e1, r, e3) {
      assert MirroredAt(g.e2outs, g.e2ins, e1, r, e3);
    }
    var list := ListOf(g.et2es, et);
    forall t, k | t in g'.et2es && 0 <= k < |g'.et2es[t]|
      ensures g'.et2es[t][k] in g'.es
    {
      if t == et && k < |list| {
        assert g'.et2es[t][k] == list[k];
      }
    }
    assert EntitiesOk(g'.es, g'.maxE, g'.e2outs, g'.e2ins, g'.et2es);
  }

  /** Recording a new configured entity keeps the registration and grows
   *  only its type's list, by one. */
  lemma PreRegisteredRegistered(g: Globals, e: Entity, et: EntityType)
    requires EntitiesOk(g.es, g.maxE, g.e2outs, g.e2ins, g.et2es) && Registered(g) && e >= 0 && e !in g.es
    ensures var g' := PreRegistered(g, e, et);
      && Registered(g')
      && |ListOf(g'.et2es, et)| == |ListOf(g.et2es, et)| + 1
      && (forall t :: t != et ==> ListOf(g'.et2es, t) == ListOf(g.et2es, t))
  {
    var g' := PreRegistered(g, e, et);
    var list := ListOf(g.et2es, et);
    NewIdUnlisted(g, e, et);
    forall t, k | t in g'.et2es && 0 <= k < |g'.et2es[t]|
      ensures EtOf(g'.e2et, g'.et2es[t][k]) == t
    {
      if t == et && k < |list| {
        assert g'.et2es[t][k] == list[k] && list[k] in g.es;
      } else if t != et {
        assert g.et2es[t][k] in g.es;
      }
    }
    forall x | x in g'.es ensures x in ListOf(g'.et2es, EtOf(g'.e2et, x)) {
      if x != e {
        assert x in ListOf(g.et2es, EtOf(g.e2et, x));
      } else {
        assert g'.et2es[et][|list|] == e;
      }
    }
  }

  lemma DoneOfTypeStep(pre: map<Entity, EntityType>, done: set<Entity>, e: Entity, et: EntityType)
    requires e in pre && e !in done
    ensures DoneOfType(pre, done + {e}, et) == DoneOfType(pre, done, et) + (if pre[e] == et then 1 else 0)
  {
    var a := set x | x in done && x in pre && pre[x] == et;
    var b := set x | x in done + {e} && x in pre && pre[x] == et;
    if pre[e] == et {
      assert b == a + {e};
    } else {
      assert b == a;
    }
  }

  /** The first loop of `init_entities` on the values: after the configured
   *  entities `done` are recorded, each is in use with its type and label,
   *  the other labels are as configured, and every type's list holds as
   *  many entities as `done` has of it. */
  ghost predicate PreTyped(g: Globals, pre: map<Entity, EntityType>, labels: map<Entity, string>,
                           done: set<Entity>) {
    && done <= pre.Keys && g.es == done
    && (forall e :: e in done ==> e >= 0 && e in g.e2et && g.e2et[e] == pre[e])
    && (forall e :: e in done ==> e in g.e2label && g.e2label[e] == LabelOf(labels, e))
    && (forall e :: e !in done ==> (e in g.e2label <==> e in labels) && (e in labels ==> g.e2label[e] == labels[e]))
  }

  ghost predicate PreCounted(g: Globals, pre: map<Entity, EntityType>, done: set<Entity>) {
    forall et :: |ListOf(g.et2es, et)| == DoneOfType(pre, done, et)
  }

  /** Everything the first loop keeps. */
  ghost predicate PreLoop(g: Globals, tb: Tables, rng: Rng, pre: map<Entity, EntityType>,
                          labels: map<Entity, string>, done: set<Entity>) {
    GlobalsOk(g, tb, rng, None) && Registered(g) && PreTyped(g, pre, labels, done) && PreCounted(g, pre, done)
  }

  lemma PreTypedStep(g: Globals, pre: map<Entity, EntityType>, labels: map<Entity, string>,
                     done: set<Entity>, e: Entity)
    requires PreTyped(g, pre, labels, done) && e in pre && e !in done && e >= 0
    ensures PreTyped(PreRegistered(g, e, pre[e]), pre, labels, done + {e})
  {
  }

  lemma PreCountedStep(g: Globals, pre: map<Entity, EntityType>, done: set<Entity>, e: Entity)
    requires EntitiesOk(g.es, g.maxE, g.e2outs, g.e2ins, g.et2es) && Registered(g) && e !in g.es
    requires PreCounted(g, pre, done) && e in pre && e !in done && e >= 0
    ensures PreCounted(PreRegistered(g, e, pre[e]), pre, done + {e})
  {
    var et := pre[e];
    PreRegisteredRegistered(g, e, et);
    forall t ensures |ListOf(PreRegistered(g, e, et).et2es, t)| == DoneOfType(pre, done + {e}, t) {
      DoneOfTypeStep(pre, done, e, t);
    }
  }

  lemma PreLoopStep(g: Globals, tb: Tables, rng: Rng, pre: map<Entity, EntityType>,
                    labels: map<Entity, string>, done: set<Entity>, e: Entity)
    requires PreLoop(g, tb, rng, pre, labels, done) && e in pre && e !in done && e >= 0
    ensures PreLoop(PreRegistered(g, e, pre[e]), tb, rng, pre, labels, done + {e})
  {
    PreRegisteredOk(g, tb, rng, e, pre[e]);
    PreRegisteredRegistered(g, e, pre[e]);
    PreTypedStep(g, pre, labels, done, e);
    PreCountedStep(g, pre, done, e);
  }

  lemma PreLoopStart(g: Globals, tb: Tables, rng: Rng, pre: map<Entity, EntityType>)
    requires GlobalsOk(g, tb, rng, None) && g.es == {} && g.et2es == map[] && g.e2et == map[]
    ensures PreLoop(g, tb, rng, pre, g.e2label, {})
  {
    forall et ensures |ListOf(g.et2es, et)| == DoneOfType(pre, {}, et) {
      assert DoneOfType(pre, {}, et) == 0;
    }
  }

  /** Some element of `a` outside `b`. */
  method PickNew<T>(a: set<T>, b: set<T>) returns (x: T)
    requires b <= a && b != a
    ensures x in a && x !in b
  {
    if forall y :: y in a ==> y in b {
      assert false;
    }
    x :| x in a && x !in b;
  }

  /** `init_entities`, first loop: the configured entities in some order
   *  (`unordered_map` fixes none); `ok` is false where an id is negative. */
  method RegisterConfigured(w: World, pre: map<Entity, EntityType>)
    returns (ok: bool)
    requires w.Valid() && w.g.es == {} && w.g.et2es == map[] && w.g.e2et == map[]
    modifies w
    ensures ok <==> forall e :: e in pre ==> e >= 0
    ensures ok ==> PreLoop(w.g, w.tb, w.rng, pre, old(w.g.e2label), pre.Keys)
    ensures w.g.ev2data == old(w.g.ev2data) && w.g.t2be == old(w.g.t2be)
  {
    var g := w.g;
    ghost var g0 := w.g;
    var done: set<Entity> := {};
    PreLoopStart(g, w.tb, w.rng, pre);
    while done != pre.Keys
      invariant done <= pre.Keys
      invariant forall e :: e in done ==> e >= 0
      invariant PreLoop(g, w.tb, w.rng, pre, g0.e2label, done)
      invariant w.g == g0 && g.ev2data == g0.ev2data && g.t2be == g0.t2be
      decreases pre.Keys - done
    {
      var e := PickNew(pre.Keys, done);
      if e < 0 {
        return false;
      }
      PreLoopStep(g, w.tb, w.rng, pre, g0.e2label, done, e);
      g := PreRegistered(g, e, pre[e]);
      done := done + {e};
    }
    w.g := g;
    ok := true;
  }

  // The second loop of `init_entities`.

  /** What `n` calls of `add_entity(et)` leave, compared with `g0`: the
   *  invariant and the registration hold, the list of `et` is `n` longer
   *  and the others are unchanged, the entities in use before keep their
   *  types and labels, and every new one is labelled with its id. */
  ghost predicate Grown(g0: Globals, g: Globals, et: EntityType, n: nat) {
    && |ListOf(g.et2es, et)| == |ListOf(g0.et2es, et)| + n
    && (forall t :: t != et ==> ListOf(g.et2es, t) == ListOf(g0.et2es, t))
    && g0.es <= g.es
    && (forall e :: e in g0.es ==> EtOf(g.e2et, e) == EtOf(g0.e2et, e))
    && (forall e :: e in g0.es && e in g0.e2label ==> e in g.e2label && g.e2label[e] == g0.e2label[e])
    && (forall e :: e in g.es && e !in g0.es ==> e >= 0 && e in g.e2label && g.e2label[e] == Decimal(e))
    && g.ev2data == g0.ev2data && g.t2be == g0.t2be
  }

  lemma GrownStep(g0: Globals, g: Globals, et: EntityType, n: nat)
    requires EntitiesOk(g.es, g.maxE, g.e2outs, g.e2ins, g.et2es) && Registered(g)
    requires Grown(g0, g, et, n)
    ensures Grown(g0, WithEntity(g, et), et, n + 1)
  {
    WithEntityRegistered(g, et);
    assert g.maxE + 1 !in g.es;
  }

  /** `while (n > 0) { add_entity(et); n--; }`. */
  method AddEntities(w: World, et: EntityType, n: int)
    requires w.Valid() && Registered(w.g) && n >= 0
    modifies w
    ensures w.Valid() && Registered(w.g) && Grown(old(w.g), w.g, et, n)
  {
    ghost var g0 := w.g;
    var k := n;
    while k > 0
      invariant 0 <= k <= n && w.Valid() && Registered(w.g) && Grown(g0, w.g, et, n - k)
    {
      GrownStep(g0, w.g, et, n - k);
      WithEntityRegistered(w.g, et);
      var _ := AddEntity(w, et);
      k := k - 1;
    }
  }

  /** After the counts of the types `doneT` are filled up: the invariant
   *  and the registration hold, every configured entity is in use with
   *  its type and label, every other entity in use is labelled with its
   *  id, the types of `doneT` have their configured counts, and the others
   *  exactly their configured entities. */
  ghost predicate Filled(g: Globals, tb: Tables, rng: Rng, pre: map<Entity, EntityType>,
                         labels: map<Entity, string>, et2n: map<EntityType, int>, doneT: set<EntityType>) {
    && GlobalsOk(g, tb, rng, None) && Registered(g)
    && (forall e :: e in pre ==> e >= 0 && e in g.es && e in g.e2et && g.e2et[e] == pre[e])
    && (forall e :: e in pre ==> e >= 0 && e in g.e2label && g.e2label[e] == LabelOf(labels, e))
    && (forall e :: e in g.es && e !in pre ==> e >= 0 && e in g.e2label && g.e2label[e] == Decimal(e))
    && (forall et :: et in doneT ==> DoneOfType(pre, pre.Keys, et) <= CountOf(et2n, et))
    && (forall et :: et in doneT ==> |ListOf(g.et2es, et)| == CountOf(et2n, et))
    && (forall et :: et !in doneT ==> |ListOf(g.et2es, et)| == DoneOfType(pre, pre.Keys, et))
  }

  lemma FilledStart(g: Globals, tb: Tables, rng: Rng, pre: map<Entity, EntityType>,
                    labels: map<Entity, string>, et2n: map<EntityType, int>)
    requires PreLoop(g, tb, rng, pre, labels, pre.Keys)
    ensures Filled(g, tb, rng, pre, labels, et2n, {})
  {
  }

  lemma FilledStep(g0: Globals, g: Globals, tb: Tables, rng: Rng, pre: map<Entity, EntityType>,
                   labels: map<Entity, string>, et2n: map<EntityType, int>, doneT: set<EntityType>, et: EntityType)
    requires Filled(g0, tb, rng, pre, labels, et2n, doneT) && et !in doneT
    requires DoneOfType(pre, pre.Keys, et) <= CountOf(et2n, et)
    requires GlobalsOk(g, tb, rng, None) && Registered(g)
    requires Grown(g0, g, et, CountOf(et2n, et) - DoneOfType(pre, pre.Keys, et))
    ensures Filled(g, tb, rng, pre, labels, et2n, doneT + {et})
  {
  }

  /** A type named neither by a count nor by a configured entity has no
   *  configured entity. */
  lemma UnnamedTypeEmpty(pre: map<Entity, EntityType>, et2n: map<EntityType, int>, et: EntityType)
    requires et !in TypesNamed(pre, et2n)
    ensures DoneOfType(pre, pre.Keys, et) == 0 && CountOf(et2n, et) == 0
  {
    var none := set x | x in pre.Keys && x in pre && pre[x] == et;
    forall x | x in pre ensures pre[x] != et {
      assert pre[x] in TypesNamed(pre, et2n);
    }
    assert none == {};
  }

  lemma FilledAll(g: Globals, tb: Tables, rng: Rng, pre: map<Entity, EntityType>,
                  labels: map<Entity, string>, et2n: map<EntityType, int>)
    requires Filled(g, tb, rng, pre, labels, et2n, TypesNamed(pre, et2n))
    ensures EntitiesFit(pre, et2n)
    ensures forall et :: |ListOf(g.et2es, et)| == CountOf(et2n, et)
  {
    forall et ensures |ListOf(g.et2es, et)| == CountOf(et2n, et) {
      if et !in TypesNamed(pre, et2n) {
        UnnamedTypeEmpty(pre, et2n, et);
      }
    }
  }

  /** `init_entities`. The configured entities are registered, then every
   *  type gets as many new entities as its count leaves over. `ok` is false
   *  where one of the source's assertions fails: a negative id, or more
   *  configured entities of a type than its count. Then every type has
   *  exactly its count. */
  method InitEntities(w: World, pre: map<Entity, EntityType>, et2n: map<EntityType, int>)
    returns (ok: bool)
    requires w.Valid() && w.g.es == {} && w.g.et2es == map[] && w.g.e2et == map[]
    modifies w
    ensures ok <==> EntitiesFit(pre, et2n)
    ensures ok ==> w.Valid() && Registered(w.g)
    ensures ok ==> forall e :: e in pre ==>
      e >= 0 && e in w.g.es && e in w.g.e2et && w.g.e2et[e] == pre[e]
      && e in w.g.e2label && w.g.e2label[e] == LabelOf(old(w.g.e2label), e)
    ensures ok ==> forall e :: e in w.g.es && e !in pre ==> e >= 0 && e in w.g.e2label && w.g.e2label[e] == Decimal(e)
    ensures ok ==> forall et :: |ListOf(w.g.et2es, et)| == CountOf(et2n, et)
    ensures w.g.ev2data == old(w.g.ev2data) && w.g.t2be == old(w.g.t2be)
  {
    ghost var labels := w.g.e2label;
    ok := RegisterConfigured(w, pre);
    if !ok {
      return;
    }
    FilledStart(w.g, w.tb, w.rng, pre, labels, et2n);
    var types := TypesNamed(pre, et2n);
    var doneT: set<EntityType> := {};
    while doneT != types
      invariant doneT <= types
      invariant Filled(w.g, w.tb, w.rng, pre, labels, et2n, doneT)
      invariant w.g.ev2data == old(w.g.ev2data) && w.g.t2be == old(w.g.t2be)
      decreases types - doneT
    {
      var et := PickNew(types, doneT);
      var n := CountOf(et2n, et) - |ListOf(w.g.et2es, et)|;
      if n < 0 {
        return false;
      }
      ghost var g0 := w.g;
      AddEntities(w, et, n);
      FilledStep(g0, w.g, w.tb, w.rng, pre, labels, et2n, doneT, et);
      doneT := doneT + {et};
    }
    FilledAll(w.g, w.tb, w.rng, pre, labels, et2n);
  }

  // ---------------------------------------------------------------------
  // init_summary_events

  /** A link type (et1, rat13, et3) as a triple. */
  type Triple = (EntityType, Rat, EntityType)

  /** The influence of "no angle" on establishing a link of the type. */
  function SpontaneousInflt(tr: Triple): InfluenceType {
    InfluenceType(EventType(EC_EST, tr.0, tr.1, tr.2), NO_ANGLE)
  }

  /** The type has a summary event: its spontaneous attempt rate is positive. */
  predicate Spontaneous(tb: Tables, tr: Triple) {
    Zero.Lt(AttemptRateOf(tb, SpontaneousInflt(tr)))
  }

  /** `evt2base_probunit[evt]`, a missing type reading as zero. */
  function BaseProbunitOf(tb: Tables, evt: EventType): Ext {
    if evt in tb.evt2baseProbunit then tb.evt2baseProbunit[evt] else Zero
  }

  /** A positive rate times a positive count of entity pairs (`ar *
   *  et2n[et1] * et2n[et3]`, rounding not modelled). */
  function ScaledRate(ar: Ext, n: int): (r: Ext)
    requires Zero.Lt(ar) && n > 0
    ensures Zero.Lt(r)
    ensures ar == PosInf <==> r == PosInf
  {
    match ar
    case Fin(v) => Fin(v * n as real)
    case _ => PosInf
  }

  /** The number of entity pairs a summary event stands for. */
  function PairCount(et2n: map<EntityType, int>, tr: Triple): int {
    CountOf(et2n, tr.0) * CountOf(et2n, tr.2)
  }

  /** What `init_summary_events` stores for a spontaneous type: no angles,
   *  the spontaneous attempt rate times the number of entity pairs, and the
   *  base probunit plus the spontaneous change. */
  predicate SummaryDataOk(tb: Tables, et2n: map<EntityType, int>, tr: Triple, d: EventData)
    requires Spontaneous(tb, tr) && PairCount(et2n, tr) > 0
  {
    && d.nAngles == 0
    && d.attemptRate == ScaledRate(AttemptRateOf(tb, SpontaneousInflt(tr)), PairCount(et2n, tr))
    && d.successProbunits == BaseProbunitOf(tb, SpontaneousInflt(tr).evt).Plus(DeltaProbunitOf(tb, SpontaneousInflt(tr)))
  }

  /** A summary event of establishment, and the link type it stands for. */
  predicate IsSummary(ev: Event) {
    ev.ec == EC_EST && ev.e1 < 0 && ev.e3 < 0
  }

  function TripleOf(ev: Event): (tr: Triple)
    requires IsSummary(ev)
    ensures tr.0 >= 1 && tr.2 >= 1 && SummaryEvent(tr.0, tr.1, tr.2) == ev
  {
    (-ev.e1, ev.rat13, -ev.e3)
  }

  lemma TripleOfSummary(tr: Triple)
    requires tr.0 >= 1 && tr.2 >= 1
    ensures IsSummary(SummaryEvent(tr.0, tr.1, tr.2)) && TripleOf(SummaryEvent(tr.0, tr.1, tr.2)) == tr
  {
  }

  /** After the types `done` are handled: the stored events are exactly the
   *  summary events of the spontaneous types among them, with their data. */
  ghost predicate Summaries(d: map<Event, EventData>, tb: Tables, et2n: map<EntityType, int>, done: set<Triple>) {
    && (forall tr :: tr in done ==> tr.0 >= 1 && tr.2 >= 1)
    && (forall ev :: ev in d ==> IsSummary(ev) && TripleOf(ev) in done && Spontaneous(tb, TripleOf(ev)))
    && (forall tr :: tr in done && Spontaneous(tb, tr) ==>
          PairCount(et2n, tr) > 0 && SummaryEvent(tr.0, tr.1, tr.2) in d
          && SummaryDataOk(tb, et2n, tr, d[SummaryEvent(tr.0, tr.1, tr.2)]))
  }

  /** Handing a type that is not spontaneous changes nothing. */
  lemma SummariesSkip(d: map<Event, EventData>, tb: Tables, et2n: map<EntityType, int>, done: set<Triple>, tr: Triple)
    requires Summaries(d, tb, et2n, done) && !Spontaneous(tb, tr) && tr.0 >= 1 && tr.2 >= 1
    ensures Summaries(d, tb, et2n, done + {tr})
  {
  }

  /** The data `init_summary_events` stores for a type. */
  function SummaryData(tb: Tables, et2n: map<EntityType, int>, tr: Triple): (x: EventData)
    requires Spontaneous(tb, tr) && PairCount(et2n, tr) > 0
    ensures SummaryDataOk(tb, et2n, tr, x) && x.t == NegInf
    ensures TablesOk(tb) ==> DataBounds(x)
  {
    var i := SpontaneousInflt(tr);
    var b, dl := BaseProbunitOf(tb, i.evt), DeltaProbunitOf(tb, i);
    var x := EventData(0, ScaledRate(AttemptRateOf(tb, i), PairCount(et2n, tr)), b.Plus(dl), NegInf);
    if TablesOk(tb) then
      TableValues(tb, i);
      PlusBounds(b, dl);
      x
    else x
  }

  /** The summary event of a type not yet handled is not stored. */
  lemma SummaryEventFresh(d: map<Event, EventData>, tb: Tables, et2n: map<EntityType, int>, done: set<Triple>, tr: Triple)
    requires Summaries(d, tb, et2n, done) && tr !in done && tr.0 >= 1 && tr.2 >= 1
    ensures SummaryEvent(tr.0, tr.1, tr.2) !in d
  {
    TripleOfSummary(tr);
  }

  /** Storing the summary event of a new spontaneous type with its data
   *  (at any time). */
  lemma SummariesStep(d: map<Event, EventData>, tb: Tables, et2n: map<EntityType, int>, done: set<Triple>,
                      tr: Triple, t: Ext)
    requires Summaries(d, tb, et2n, done) && tr !in done && tr.0 >= 1 && tr.2 >= 1
    requires Spontaneous(tb, tr) && PairCount(et2n, tr) > 0
    ensures Summaries(d[SummaryEvent(tr.0, tr.1, tr.2) := SummaryData(tb, et2n, tr).(t := t)], tb, et2n, done + {tr})
  {
    var ev := SummaryEvent(tr.0, tr.1, tr.2);
    var d' := d[ev := SummaryData(tb, et2n, tr).(t := t)];
    TripleOfSummary(tr);
    forall u | u in done && Spontaneous(tb, u)
      ensures SummaryDataOk(tb, et2n, u, d'[SummaryEvent(u.0, u.1, u.2)])
    {
      TripleOfSummary(u);
    }
  }

  /** The link types of one pair of entity types. */
  ghost function PairTriples(et1: EntityType, rels: seq<Rat>, et3: EntityType): set<Triple> {
    set r | r in rels :: (et1, r, et3)
  }

  lemma PairTriplesStep(et1: EntityType, rels: seq<Rat>, et3: EntityType, k: nat)
    requires k < |rels|
    ensures PairTriples(et1, rels[..k + 1], et3) == PairTriples(et1, rels[..k], et3) + {(et1, rels[k], et3)}
  {
    assert rels[..k + 1] == rels[..k] + [rels[k]];
  }

  /** One link type of the inner loop of `init_summary_events`: a
   *  spontaneous type gets its summary event stored and scheduled. `ok` is
   *  false where the source's assertion `ar > 0` in `_schedule_event`
   *  fails: a spontaneous type whose entity types have no pair of
   *  entities. */
  method ScheduleSummary(w: World, tr: Triple, et2n: map<EntityType, int>, ghost done: set<Triple>)
    returns (ok: bool)
    requires w.Valid() && Summaries(w.g.ev2data, w.tb, et2n, done) && tr !in done && tr.0 >= 1 && tr.2 >= 1
    modifies w
    ensures ok <==> !(Spontaneous(w.tb, tr) && PairCount(et2n, tr) <= 0)
    ensures ok ==> w.Valid() && Summaries(w.g.ev2data, w.tb, et2n, done + {tr})
  {
    var i := SpontaneousInflt(tr);
    var ar := AttemptRateOf(w.tb, i);
    if !Zero.Lt(ar) {
      SummariesSkip(w.g.ev2data, w.tb, et2n, done, tr);
      return true;
    }
    var n := CountOf(et2n, tr.0) * CountOf(et2n, tr.2);
    if n <= 0 {
      return false;
    }
    var ev := SummaryEvent(tr.0, tr.1, tr.2);
    var x := EventData(0, ScaledRate(ar, n), BaseProbunitOf(w.tb, i.evt).Plus(DeltaProbunitOf(w.tb, i)), NegInf);
    assert x == SummaryData(w.tb, et2n, tr);
    SummaryEventFresh(w.g.ev2data, w.tb, et2n, done, tr);
    StoredOk(w.g, w.tb, w.rng, ev, x);
    ghost var d0 := w.g.ev2data;
    w.g := Stored(w.g, ev, x);
    ScheduleEvent(w, ev);
    ghost var t := w.g.ev2data[ev].t;
    OverwriteTwice(d0, ev, x, x.(t := t));
    assert w.g.ev2data == d0[ev := x.(t := t)];
    SummariesStep(d0, w.tb, et2n, done, tr, t);
    ok := true;
  }

  lemma OverwriteTwice(d: map<Event, EventData>, ev: Event, x: EventData, y: EventData)
    ensures d[ev := x][ev := y] == d[ev := y]
  {
  }

  /** The spontaneous types among (et1, r, et3) for r in `rels` all have
   *  pairs of entities. */
  predicate PairFits(tb: Tables, et2n: map<EntityType, int>, et1: EntityType, rels: seq<Rat>, et3: EntityType) {
    forall r :: r in rels && Spontaneous(tb, (et1, r, et3)) ==> PairCount(et2n, (et1, r, et3)) > 0
  }

  /** One more relationship type of the pair. */
  lemma PairPrefixStep(tb: Tables, et2n: map<EntityType, int>, et1: EntityType, rels: seq<Rat>, et3: EntityType,
                       done: set<Triple>, k: nat)
    requires k < |rels| && Distinct(rels) && forall r :: r in rels ==> (et1, r, et3) !in done
    ensures (et1, rels[k], et3) !in done + PairTriples(et1, rels[..k], et3)
    ensures done + PairTriples(et1, rels[..k + 1], et3) == done + PairTriples(et1, rels[..k], et3) + {(et1, rels[k], et3)}
    ensures PairFits(tb, et2n, et1, rels[..k + 1], et3) <==>
      PairFits(tb, et2n, et1, rels[..k], et3) && !(Spontaneous(tb, (et1, rels[k], et3)) && PairCount(et2n, (et1, rels[k], et3)) <= 0)
  {
    PairTriplesStep(et1, rels, et3, k);
    assert rels[..k + 1] == rels[..k] + [rels[k]];
    assert forall j :: 0 <= j < k ==> rels[j] != rels[k];
  }

  lemma PairFitsPrefix(tb: Tables, et2n: map<EntityType, int>, et1: EntityType, rels: seq<Rat>, et3: EntityType, k: nat)
    requires k <= |rels|
    ensures PairFits(tb, et2n, et1, rels, et3) ==> PairFits(tb, et2n, et1, rels[..k], et3)
  {
  }

  /** The inner loop of `init_summary_events` over the relationship types
   *  of one pair of entity types. */
  method SchedulePairSummaries(w: World, et1: EntityType, et3: EntityType, rels: seq<Rat>,
                               et2n: map<EntityType, int>, ghost done: set<Triple>)
    returns (ok: bool)
    requires w.Valid() && Summaries(w.g.ev2data, w.tb, et2n, done) && et1 >= 1 && et3 >= 1 && Distinct(rels)
    requires forall r :: r in rels ==> (et1, r, et3) !in done
    modifies w
    ensures ok <==> PairFits(w.tb, et2n, et1, rels, et3)
    ensures ok ==> w.Valid() && Summaries(w.g.ev2data, w.tb, et2n, done + PairTriples(et1, rels, et3))
  {
    ghost var cur := done;
    assert PairTriples(et1, rels[..0], et3) == {};
    for k := 0 to |rels|
      invariant cur == done + PairTriples(et1, rels[..k], et3)
      invariant w.Valid() && Summaries(w.g.ev2data, w.tb, et2n, cur)
      invariant PairFits(w.tb, et2n, et1, rels[..k], et3)
    {
      PairPrefixStep(w.tb, et2n, et1, rels, et3, done, k);
      var fits := ScheduleSummary(w, (et1, rels[k], et3), et2n, cur);
      if !fits {
        PairFitsPrefix(w.tb, et2n, et1, rels, et3, k + 1);
        return false;
      }
      cur := cur + {(et1, rels[k], et3)};
    }
    assert rels[..|rels|] == rels;
    ok := true;
  }

  /** The link types of the pairs `ps` that have relationship types. */
  ghost function TriplesOf(tb: Tables, ps: set<(EntityType, EntityType)>): set<Triple> {
    set p, r | p in ps && p in tb.ets2relations && r in tb.ets2relations[p] :: (p.0, r, p.1)
  }

  lemma TriplesOfStep(tb: Tables, ps: set<(EntityType, EntityType)>, p: (EntityType, EntityType))
    requires p in tb.ets2relations && p !in ps
    ensures TriplesOf(tb, ps + {p}) == TriplesOf(tb, ps) + PairTriples(p.0, tb.ets2relations[p], p.1)
    ensures forall r :: r in tb.ets2relations[p] ==> (p.0, r, p.1) !in TriplesOf(tb, ps)
  {
  }

  /** Every pair of entity types fits. */
  predicate AllPairsFit(tb: Tables, et2n: map<EntityType, int>) {
    forall p :: p in tb.ets2relations ==> PairFits(tb, et2n, p.0, tb.ets2relations[p], p.1)
  }

  /** `init_summary_events`: for every pair of entity types and every
   *  relationship type between them, a spontaneous type gets a summary
   *  event with its data, scheduled. `ok` is false where a spontaneous type
   *  has no pair of entities. */
  method InitSummaryEvents(w: World, et2n: map<EntityType, int>) returns (ok: bool)
    requires w.Valid() && w.g.ev2data == map[]
    requires forall p :: p in w.tb.ets2relations ==> p.0 >= 1 && p.1 >= 1
    modifies w
    ensures ok <==> AllPairsFit(w.tb, et2n)
    ensures ok ==> w.Valid() && Summaries(w.g.ev2data, w.tb, et2n, TriplesOf(w.tb, w.tb.ets2relations.Keys))
  {
    var ps := w.tb.ets2relations.Keys;
    var doneP: set<(EntityType, EntityType)> := {};
    ghost var cur: set<Triple> := {};
    assert TriplesOf(w.tb, {}) == {};
    while doneP != ps
      invariant doneP <= ps && cur == TriplesOf(w.tb, doneP)
      invariant w.Valid() && Summaries(w.g.ev2data, w.tb, et2n, cur)
      invariant forall p :: p in doneP ==> PairFits(w.tb, et2n, p.0, w.tb.ets2relations[p], p.1)
      decreases ps - doneP
    {
      var p := PickNew(ps, doneP);
      var rels := w.tb.ets2relations[p];
      TriplesOfStep(w.tb, doneP, p);
      var fits := SchedulePairSummaries(w, p.0, p.1, rels, et2n, cur);
      if !fits {
        return false;
      }
      cur := cur + PairTriples(p.0, rels, p.1);
      doneP := doneP + {p};
    }
    ok := true;
  }

  /** After `init_summary_events` the stored events are exactly the summary
   *  events of the link types that have a relationship type table entry and
   *  a positive spontaneous attempt rate, each with its data. */
  lemma SummaryEventsStored(d: map<Event, EventData>, tb: Tables, et2n: map<EntityType, int>)
    requires Summaries(d, tb, et2n, TriplesOf(tb, tb.ets2relations.Keys))
    ensures forall ev :: ev in d ==> IsSummary(ev)
    ensures forall et1: EntityType, r: Rat, et3: EntityType :: et1 >= 1 && et3 >= 1 ==>
      (SummaryEvent(et1, r, et3) in d <==> r in Relations(tb, et1, et3) && Spontaneous(tb, (et1, r, et3)))
    ensures forall tr :: tr in TriplesOf(tb, tb.ets2relations.Keys) && Spontaneous(tb, tr) ==>
      PairCount(et2n, tr) > 0 && SummaryDataOk(tb, et2n, tr, d[SummaryEvent(tr.0, tr.1, tr.2)])
  {
    forall et1: EntityType, r: Rat, et3: EntityType | et1 >= 1 && et3 >= 1
      ensures SummaryEvent(et1, r, et3) in d <==> r in Relations(tb, et1, et3) && Spontaneous(tb, (et1, r, et3))
    {
      var tr := (et1, r, et3);
      TripleOfSummary(tr);
      if r in Relations(tb, et1, et3) {
        assert tr in TriplesOf(tb, tb.ets2relations.Keys);
      }
    }
  }
}
