/** The table-building half of src/init.cpp: `init_data` writes the
 *  configured influences into the two arrays indexed by INFLT, and
 *  `init_relationship_or_action_types` checks the inverse relation and
 *  collects, per pair of entity types, the relationship types some event
 *  type has a base probunit for. These run before the simulation state
 *  exists, so they work on values and yield the parts of the tables. */
module InitTables {
  import opened Wrappers
  import opened ExtReal
  import opened DataModel
  import opened State

  // ---------------------------------------------------------------------
  // init_data

  /** An influence on an establishment through a single leg (an angle type
   *  with one half missing). `init_data` asserts that no attempt rate is
   *  configured for one, except for the spontaneous NO_ANGLE entry, and that
   *  no probunit change is configured for one at all. */
  predicate LegOnEstablishment(i: InfluenceType) {
    i.evt.ec == EC_EST && (i.at.rat12 == NO_RAT || i.at.rat23 == NO_RAT)
  }

  /** Whether `init_data` accepts a configured entry, and the entry fits the
   *  fields of INFLT (otherwise the array write would leave the array or
   *  land on another entry's index). */
  predicate Accepted(i: InfluenceType, spontaneousAllowed: bool) {
    InfltInRange(ET_BITS, RAT_BITS, i)
    && !(LegOnEstablishment(i) && !(spontaneousAllowed && i.at == NO_ANGLE))
  }

  /** After `k` entries `done` of `cfg` are written, the array holds exactly
   *  their values at their indices. */
  ghost predicate Written(cfg: map<InfluenceType, Ext>, done: set<InfluenceType>, at: map<nat, Ext>) {
    && (forall i :: i in done ==> i in cfg && InfltInRange(ET_BITS, RAT_BITS, i))
    && (forall i :: InfltInRange(ET_BITS, RAT_BITS, i) ==>
          (Inflt(i) in at <==> i in done) && (i in done ==> at[Inflt(i)] == cfg[i]))
    && (forall k :: k in at ==> k < MaxNInflt())
  }

  lemma WrittenStep(cfg: map<InfluenceType, Ext>, done: set<InfluenceType>, at: map<nat, Ext>, i: InfluenceType)
    requires Written(cfg, done, at) && i in cfg && i !in done && InfltInRange(ET_BITS, RAT_BITS, i)
    ensures Written(cfg, done + {i}, at[Inflt(i) := cfg[i]])
  {
    InfltFieldsRead(ET_BITS, RAT_BITS, i);
    forall j | InfltInRange(ET_BITS, RAT_BITS, j)
      ensures Inflt(j) == Inflt(i) <==> j == i
    {
      InfltInjective(ET_BITS, RAT_BITS, i, j);
    }
  }

  /** One of the two loops of `init_data` over a configured map: the array
   *  starts out all zero (an index that is not a key of `at` reads as
   *  zero) and receives every configured value at its INFLT index; `ok` is
   *  false where the source's assertion fails or an entry does not fit. */
  method FillInfluenceArray(cfg: map<InfluenceType, Ext>, spontaneousAllowed: bool)
    returns (at: map<nat, Ext>, ok: bool)
    ensures ok <==> forall i :: i in cfg ==> Accepted(i, spontaneousAllowed)
    ensures ok ==> forall i :: InfltInRange(ET_BITS, RAT_BITS, i) ==>
      (Inflt(i) in at <==> i in cfg) && (i in cfg ==> at[Inflt(i)] == cfg[i])
    ensures ok ==> forall k :: k in at ==> k < MaxNInflt()
  {
    at := map[];
    var rest := cfg.Keys;
    ghost var done: set<InfluenceType> := {};
    while rest != {}
      invariant rest <= cfg.Keys && done == cfg.Keys - rest
      invariant forall i :: i in done ==> Accepted(i, spontaneousAllowed)
      invariant Written(cfg, done, at)
      decreases rest
    {
      var i :| i in rest;
      if !Accepted(i, spontaneousAllowed) {
        return at, false;
      }
      WrittenStep(cfg, done, at, i);
      at := at[Inflt(i) := cfg[i]];
      rest := rest - {i};
      done := done + {i};
    }
    ok := true;
  }

  /** `init_data`: both influence arrays; a spontaneous attempt rate of an
   *  establishment is allowed, a spontaneous probunit change of one is not. */
  method InitData(inflt2attemptRate: map<InfluenceType, Ext>, inflt2deltaProbunit: map<InfluenceType, Ext>)
    returns (attemptRateAt: map<nat, Ext>, deltaProbunitAt: map<nat, Ext>, ok: bool)
    ensures ok <==> ((forall i :: i in inflt2attemptRate ==> Accepted(i, true))
                     && (forall i :: i in inflt2deltaProbunit ==> Accepted(i, false)))
    ensures ok ==> forall i :: InfltInRange(ET_BITS, RAT_BITS, i) ==>
      && (Inflt(i) in attemptRateAt <==> i in inflt2attemptRate)
      && (i in inflt2attemptRate ==> attemptRateAt[Inflt(i)] == inflt2attemptRate[i])
      && (Inflt(i) in deltaProbunitAt <==> i in inflt2deltaProbunit)
      && (i in inflt2deltaProbunit ==> deltaProbunitAt[Inflt(i)] == inflt2deltaProbunit[i])
  {
    var okA, okD;
    attemptRateAt, okA := FillInfluenceArray(inflt2attemptRate, true);
    deltaProbunitAt, okD := FillInfluenceArray(inflt2deltaProbunit, false);
    ok := okA && okD;
  }

  /** Reading the filled arrays back: a configured influence reads as its
   *  value and any other influence of in-range fields as zero. */
  lemma ArraysReadBack(tb: Tables, inflt2attemptRate: map<InfluenceType, Ext>, i: InfluenceType)
    requires forall j :: InfltInRange(ET_BITS, RAT_BITS, j) ==>
      (Inflt(j) in tb.attemptRateAt <==> j in inflt2attemptRate)
      && (j in inflt2attemptRate ==> tb.attemptRateAt[Inflt(j)] == inflt2attemptRate[j])
    requires InfltInRange(ET_BITS, RAT_BITS, i)
    ensures AttemptRateOf(tb, i) == if i in inflt2attemptRate then inflt2attemptRate[i] else Zero
  {
  }

  // ---------------------------------------------------------------------
  // init_relationship_or_action_types

  /** `rat2inv[r]` and `r_is_action_type[r]`, a missing entry reading as
   *  NO_RAT and false (`operator[]` inserts the default). */
  function InvOf(rat2inv: map<Rat, Rat>, r: Rat): Rat {
    if r in rat2inv then rat2inv[r] else NO_RAT
  }

  function IsAction(rIsActionType: map<Rat, bool>, r: Rat): bool {
    r in rIsActionType && rIsActionType[r]
  }

  /** The assertions on one labelled type: an inverse other than itself
   *  and other than NO_RAT must have it as inverse and be of the same kind. */
  predicate InverseChecked(rat2inv: map<Rat, Rat>, rIsActionType: map<Rat, bool>, r: Rat) {
    var inv := InvOf(rat2inv, r);
    inv != NO_RAT && inv != r ==>
      InvOf(rat2inv, inv) == r && IsAction(rIsActionType, r) == IsAction(rIsActionType, inv)
  }

  /** The checks of `init_relationship_or_action_types` over the labelled
   *  types `rats`, the identity first. */
  predicate RelationTypesChecked(rat2inv: map<Rat, Rat>, rats: set<Rat>, rIsActionType: map<Rat, bool>) {
    InvOf(rat2inv, RT_ID) == RT_ID
    && forall r :: r in rats ==> InverseChecked(rat2inv, rIsActionType, r)
  }

  /** The loop of the check; `ok` is false where an assertion fails. */
  method CheckRelationTypes(rat2inv: map<Rat, Rat>, rats: set<Rat>, rIsActionType: map<Rat, bool>)
    returns (ok: bool)
    ensures ok <==> RelationTypesChecked(rat2inv, rats, rIsActionType)
  {
    if InvOf(rat2inv, RT_ID) != RT_ID {
      return false;
    }
    var rest := rats;
    while rest != {}
      invariant rest <= rats
      invariant forall r :: r in rats - rest ==> InverseChecked(rat2inv, rIsActionType, r)
      decreases rest
    {
      var r :| r in rest;
      var inv := InvOf(rat2inv, r);
      if inv != NO_RAT && inv != r {
        if InvOf(rat2inv, inv) != r || IsAction(rIsActionType, r) != IsAction(rIsActionType, inv) {
          return false;
        }
      }
      rest := rest - {r};
    }
    ok := true;
  }

  /** Where the check passes, inversion maps the labelled types that have
   *  an inverse onto such types and undoes itself, and inverses agree on
   *  being action types. */
  lemma CheckedInverseIsInvolution(rat2inv: map<Rat, Rat>, rats: set<Rat>, rIsActionType: map<Rat, bool>, r: Rat)
    requires RelationTypesChecked(rat2inv, rats, rIsActionType)
    requires r in rats && InvOf(rat2inv, r) != NO_RAT
    ensures InvOf(rat2inv, InvOf(rat2inv, r)) == r
    ensures IsAction(rIsActionType, InvOf(rat2inv, r)) == IsAction(rIsActionType, r)
  {
    assert InverseChecked(rat2inv, rIsActionType, r);
  }

  /** `s` read as a `std::set<relationship_or_action_type>`: strictly increasing. */
  predicate StrictlyIncreasing(s: seq<Rat>) {
    forall i, j :: 0 <= i < j < |s| ==> s[i] < s[j]
  }

  /** `insert` into a sorted set of types. */
  function InsertRat(s: seq<Rat>, r: Rat): (t: seq<Rat>)
    requires StrictlyIncreasing(s)
    ensures StrictlyIncreasing(t)
    ensures forall x :: x in t <==> x in s || x == r
    decreases |s|
  {
    if s == [] then [r]
    else if r == s[0] then s
    else if r < s[0] then [r] + s
    else
      var rest := InsertRat(s[1..], r);
      assert forall x :: x in rest ==> s[0] < x by {
        forall x | x in rest ensures s[0] < x {
          if x != r { var k :| 1 <= k < |s| && s[k] == x; }
        }
      }
      var t := [s[0]] + rest;
      assert forall i, j :: 0 <= i < j < |t| ==> t[i] < t[j] by {
        forall i, j | 0 <= i < j < |t| ensures t[i] < t[j] {
          if i == 0 { assert t[j] == rest[j - 1] && rest[j - 1] in rest; }
          else { assert t[i] == rest[i - 1] && t[j] == rest[j - 1]; }
        }
      }
      t
  }

  /** `ets2relations[{et1, et3}]`, a missing pair reading as the empty set. */
  function RelationsAt(rel: map<(EntityType, EntityType), seq<Rat>>, p: (EntityType, EntityType)): seq<Rat> {
    if p in rel then rel[p] else []
  }

  /** `rel` holds, for each pair of entity types, exactly the relationship
   *  types of the event types in `evts`, each set sorted. */
  ghost predicate Collected(rel: map<(EntityType, EntityType), seq<Rat>>, evts: set<EventType>) {
    && (forall p :: p in rel ==> StrictlyIncreasing(rel[p]))
    && (forall p, r :: r in RelationsAt(rel, p) <==>
          exists evt :: evt in evts && (evt.et1, evt.et3) == p && evt.rat13 == r)
  }

  lemma CollectedStep(rel: map<(EntityType, EntityType), seq<Rat>>, evts: set<EventType>, evt: EventType)
    requires Collected(rel, evts)
    ensures var p := (evt.et1, evt.et3);
      Collected(rel[p := InsertRat(RelationsAt(rel, p), evt.rat13)], evts + {evt})
  {
    var p := (evt.et1, evt.et3);
    var rel' := rel[p := InsertRat(RelationsAt(rel, p), evt.rat13)];
    forall q, r | r in RelationsAt(rel', q)
      ensures exists e :: e in evts + {evt} && (e.et1, e.et3) == q && e.rat13 == r
    {
      if q != p || r != evt.rat13 {
        assert r in RelationsAt(rel, q);
        var e :| e in evts && (e.et1, e.et3) == q && e.rat13 == r;
        assert e in evts + {evt};
      }
    }
    forall q, r | exists e :: e in evts + {evt} && (e.et1, e.et3) == q && e.rat13 == r
      ensures r in RelationsAt(rel', q)
    {
      var e :| e in evts + {evt} && (e.et1, e.et3) == q && e.rat13 == r;
      if e != evt {
        assert r in RelationsAt(rel, q);
      }
    }
  }

  /** The registration loop of `init_relationship_or_action_types` over the
   *  event types with a base probunit; `ok` is false where one of them is
   *  of the identity relationship (the source asserts it is not) or has no
   *  tail entry (the probability printed for it reads both tails with
   *  `.at`, which throws). */
  method CollectRelations(evt2baseProbunit: map<EventType, Ext>, leftTail: map<EventType, Ext>, rightTail: map<EventType, Ext>)
    returns (rel: map<(EntityType, EntityType), seq<Rat>>, ok: bool)
    ensures ok <==> forall evt :: evt in evt2baseProbunit ==> evt.rat13 != RT_ID && evt in leftTail && evt in rightTail
    ensures ok ==> Collected(rel, evt2baseProbunit.Keys)
  {
    rel := map[];
    var rest := evt2baseProbunit.Keys;
    while rest != {}
      invariant rest <= evt2baseProbunit.Keys
      invariant forall evt :: evt in evt2baseProbunit.Keys - rest ==> evt.rat13 != RT_ID && evt in leftTail && evt in rightTail
      invariant Collected(rel, evt2baseProbunit.Keys - rest)
      decreases rest
    {
      var evt :| evt in rest;
      if evt.rat13 == RT_ID {
        return rel, false;
      }
      var p := (evt.et1, evt.et3);
      CollectedStep(rel, evt2baseProbunit.Keys - rest, evt);
      assert evt2baseProbunit.Keys - (rest - {evt}) == (evt2baseProbunit.Keys - rest) + {evt};
      rel := rel[p := InsertRat(RelationsAt(rel, p), evt.rat13)];
      if evt !in leftTail || evt !in rightTail {
        return rel, false;
      }
      rest := rest - {evt};
    }
    ok := true;
  }

  /** The collected relations never hold the identity and have no
   *  repeats, as the tables demand. */
  lemma CollectedRelationsOk(rel: map<(EntityType, EntityType), seq<Rat>>, evt2baseProbunit: map<EventType, Ext>)
    requires Collected(rel, evt2baseProbunit.Keys)
    requires forall evt :: evt in evt2baseProbunit ==> evt.rat13 != RT_ID
    ensures forall p :: p in rel ==> Distinct(rel[p]) && RT_ID !in rel[p]
  {
    forall p | p in rel
      ensures Distinct(rel[p]) && RT_ID !in rel[p]
    {
      assert StrictlyIncreasing(rel[p]);
      assert RT_ID in rel[p] ==> RT_ID in RelationsAt(rel, p);
    }
  }
}
