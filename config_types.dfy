/** The registration of entity types, preregistered entities and
 *  relationship types in `read_config` (src/config.cpp): ids handed out in
 *  listing order and inverse relationship types paired up. The YAML tree
 *  comes in as sequences of entries in document order. */
module ConfigTypes {
  import opened Wrappers
  import opened DataModel

  // ---------------------------------------------------------------------
  // Entity types and preregistered entities

  /** The value of an entry under `entities`: a count with optional labels
   *  (a map, or a plain number), or a bare list of labels. */
  datatype EntitySpec = Counted(n: int, labels: seq<string>) | Listed(labels: seq<string>)

  /** The number of entities an entry asks for: a bare list counts its
   *  labels. */
  function SpecCount(s: EntitySpec): int {
    if s.Counted? then s.n else |s.labels|
  }

  /** `label2et`, `et2label`, `et2n`, and the preregistered entities
   *  (`e2et`, `e2label`, `label2e`, `max_e`). */
  datatype EntityTable = EntityTable(label2et: map<string, EntityType>, et2label: map<EntityType, string>,
                                     et2n: map<EntityType, int>, e2et: map<Entity, EntityType>,
                                     e2label: map<Entity, string>, label2e: map<string, Entity>, maxE: int)

  /** The defaults; `max_e` starts at 0. */
  const NoEntities: EntityTable := EntityTable(map[], map[], map[], map[], map[], map[], 0)

  /** `n` copies of `et`. */
  function Copies(et: EntityType, n: nat): (s: seq<EntityType>)
    ensures |s| == n && forall i :: 0 <= i < n ==> s[i] == et
  {
    seq(n, _ => et)
  }

  /** The labels of all preregistered entities, in order. */
  function AllLabels(specs: seq<(string, EntitySpec)>): seq<string>
    decreases |specs|
  {
    if specs == [] then [] else AllLabels(specs[..|specs| - 1]) + specs[|specs| - 1].1.labels
  }

  /** Their entity types: the k-th entry has type k + 1. */
  function AllTypes(specs: seq<(string, EntitySpec)>): (s: seq<EntityType>)
    decreases |specs|
    ensures |s| == |AllLabels(specs)|
  {
    if specs == [] then [] else AllTypes(specs[..|specs| - 1]) + Copies(|specs|, |specs[|specs| - 1].1.labels|)
  }

  /** The entities registered so far are 1..maxE, the i-th labelled
   *  `labels[i - 1]` and of type `types[i - 1]`; `label2e` takes every
   *  label back to an entity with that label. */
  ghost predicate EntitiesOf(t: EntityTable, labels: seq<string>, types: seq<EntityType>) {
    && |labels| == |types| && t.maxE == |labels|
    && (forall e :: e in t.e2label <==> 1 <= e <= t.maxE)
    && (forall e :: e in t.e2et <==> 1 <= e <= t.maxE)
    && (forall i :: 0 <= i < |labels| ==> t.e2label[i + 1] == labels[i] && t.e2et[i + 1] == types[i])
    && (forall l :: l in t.label2e <==> l in labels)
    && (forall l :: l in t.label2e ==> t.label2e[l] in t.e2label && t.e2label[t.label2e[l]] == l)
  }

  /** `add_entity(et, label)` as `read_entity_labels` calls it: the next
   *  id, with its type and label. */
  function WithLabelled(t: EntityTable, et: EntityType, lab: string): EntityTable {
    var e := t.maxE + 1;
    t.(maxE := e, e2et := t.e2et[e := et], e2label := t.e2label[e := lab], label2e := t.label2e[lab := e])
  }

  lemma WithLabelledStep(t: EntityTable, labels: seq<string>, types: seq<EntityType>, et: EntityType, lab: string)
    requires EntitiesOf(t, labels, types)
    ensures EntitiesOf(WithLabelled(t, et, lab), labels + [lab], types + [et])
  {
    var t' := WithLabelled(t, et, lab);
    var labels', types' := labels + [lab], types + [et];
    forall l | l in t'.label2e ensures t'.label2e[l] in t'.e2label && t'.e2label[t'.label2e[l]] == l {
      if l != lab {
        assert t'.label2e[l] == t.label2e[l] <= t.maxE;
      }
    }
    forall i | 0 <= i < |labels'| ensures t'.e2label[i + 1] == labels'[i] && t'.e2et[i + 1] == types'[i] {
      if i < |labels| {
        assert labels'[i] == labels[i] && types'[i] == types[i];
      }
    }
  }

  /** `read_entity_labels`: one new entity per label, all of type `et`.
   *  The type tables are unchanged. */
  method ReadEntityLabels(t0: EntityTable, et: EntityType, labels: seq<string>,
                          ghost before: seq<string>, ghost types: seq<EntityType>) returns (t: EntityTable)
    requires EntitiesOf(t0, before, types)
    ensures EntitiesOf(t, before + labels, types + Copies(et, |labels|))
    ensures t.label2et == t0.label2et && t.et2label == t0.et2label && t.et2n == t0.et2n
  {
    t := t0;
    for j := 0 to |labels|
      invariant EntitiesOf(t, before + labels[..j], types + Copies(et, j))
      invariant t.label2et == t0.label2et && t.et2label == t0.et2label && t.et2n == t0.et2n
    {
      WithLabelledStep(t, before + labels[..j], types + Copies(et, j), et, labels[j]);
      assert before + labels[..j + 1] == before + labels[..j] + [labels[j]];
      assert types + Copies(et, j + 1) == types + Copies(et, j) + [et];
      t := WithLabelled(t, et, labels[j]);
    }
    assert labels[..|labels|] == labels;
  }

  /** The types registered for `specs`: the k-th entry has id k + 1, its
   *  label and its count. */
  ghost predicate TypeIdsOf(t: EntityTable, specs: seq<(string, EntitySpec)>) {
    && (forall et :: et in t.et2label <==> 1 <= et <= |specs|)
    && (forall et :: et in t.et2n <==> 1 <= et <= |specs|)
    && (forall k :: 0 <= k < |specs| ==> t.et2label[k + 1] == specs[k].0 && t.et2n[k + 1] == SpecCount(specs[k].1))
  }

  /** `label2et` holds the labels of `specs`, each taken back to a type
   *  with that label. */
  ghost predicate TypeLabelsOf(t: EntityTable, specs: seq<(string, EntitySpec)>) {
    && (forall l :: l in t.label2et <==> exists k :: 0 <= k < |specs| && specs[k].0 == l)
    && (forall l :: l in t.label2et ==> t.label2et[l] in t.et2label && t.et2label[t.label2et[l]] == l)
  }

  ghost predicate TypesOf(t: EntityTable, specs: seq<(string, EntitySpec)>) {
    TypeIdsOf(t, specs) && TypeLabelsOf(t, specs)
  }

  lemma TypesOfFields(t: EntityTable, t': EntityTable, specs: seq<(string, EntitySpec)>)
    requires TypesOf(t, specs)
    requires t'.label2et == t.label2et && t'.et2label == t.et2label && t'.et2n == t.et2n
    ensures TypesOf(t', specs)
  {
  }

  /** The type tables after the k-th entry is registered. */
  function WithType(t: EntityTable, specs: seq<(string, EntitySpec)>, k: nat): EntityTable
    requires k < |specs|
  {
    t.(label2et := t.label2et[specs[k].0 := k + 1], et2label := t.et2label[k + 1 := specs[k].0],
       et2n := t.et2n[k + 1 := SpecCount(specs[k].1)])
  }

  lemma TypeIdsStep(t: EntityTable, specs: seq<(string, EntitySpec)>, k: nat)
    requires k < |specs| && TypeIdsOf(t, specs[..k])
    ensures TypeIdsOf(WithType(t, specs, k), specs[..k + 1])
  {
    var p, p' := specs[..k], specs[..k + 1];
    assert forall j :: 0 <= j < k ==> p'[j] == p[j];
  }

  lemma TypeLabelsStep(t: EntityTable, specs: seq<(string, EntitySpec)>, k: nat)
    requires k < |specs| && TypeIdsOf(t, specs[..k]) && TypeLabelsOf(t, specs[..k])
    ensures TypeLabelsOf(WithType(t, specs, k), specs[..k + 1])
  {
    var t' := WithType(t, specs, k);
    var p, p' := specs[..k], specs[..k + 1];
    assert forall j :: 0 <= j < k ==> p'[j] == p[j];
    forall l ensures l in t'.label2et <==> exists j :: 0 <= j < |p'| && p'[j].0 == l {
      if l in t.label2et {
        var j :| 0 <= j < |p| && p[j].0 == l;
        assert p'[j].0 == l;
      }
      if l != specs[k].0 && exists j :: 0 <= j < |p'| && p'[j].0 == l {
        var j :| 0 <= j < |p'| && p'[j].0 == l;
        assert p[j].0 == l;
      }
      assert p'[k].0 == specs[k].0;
    }
  }

  lemma AllLabelsStep(specs: seq<(string, EntitySpec)>, k: nat)
    requires k < |specs|
    ensures AllLabels(specs[..k + 1]) == AllLabels(specs[..k]) + specs[k].1.labels
    ensures AllTypes(specs[..k + 1]) == AllTypes(specs[..k]) + Copies(k + 1, |specs[k].1.labels|)
  {
    assert specs[..k + 1][..k] == specs[..k];
  }

  /** The `entities` section: entity types get ids 1, 2, ... in listing
   *  order, each with its label and count, where a bare list of labels
   *  counts its labels; the labelled entities get ids 1, 2, ... in order,
   *  each with its label and the type of its entry. */
  method RegisterEntityTypes(specs: seq<(string, EntitySpec)>) returns (t: EntityTable)
    ensures TypesOf(t, specs)
    ensures EntitiesOf(t, AllLabels(specs), AllTypes(specs))
  {
    t := NoEntities;
    for k := 0 to |specs|
      invariant TypesOf(t, specs[..k]) && EntitiesOf(t, AllLabels(specs[..k]), AllTypes(specs[..k]))
    {
      var (lab, spec) := specs[k];
      var et: EntityType := k + 1;
      AllLabelsStep(specs, k);
      TypeIdsStep(t, specs, k);
      TypeLabelsStep(t, specs, k);
      ghost var next := WithType(t, specs, k);
      t := t.(label2et := t.label2et[lab := et], et2label := t.et2label[et := lab]);
      var lastE := t.maxE;
      t := ReadEntityLabels(t, et, spec.labels, AllLabels(specs[..k]), AllTypes(specs[..k]));
      if spec.Listed? {
        t := t.(et2n := t.et2n[et := t.maxE - lastE]);
      } else {
        t := t.(et2n := t.et2n[et := spec.n]);
      }
      TypesOfFields(next, t, specs[..k + 1]);
    }
    assert specs[..|specs|] == specs;
  }

  // ---------------------------------------------------------------------
  // Relationship types

  /** The `gexf` key of a relationship type: missing, null, or a file. */
  datatype GexfSpec = DefaultFile | NoFile | File(name: string)

  /** The value of an entry under `relationship types`: null, a scalar
   *  naming the inverse, or a map with optional `inverse` and `gexf`. */
  datatype RatSpec = NoInverse | InverseLabel(lab: string) | RatDetails(inverse: Option<string>, gexf: GexfSpec)

  /** `label2rat`, `rat2label`, `r_is_action_type`, `rat2inv`,
   *  `gexf_filename` and the counter `nextrat`. */
  datatype RatTable = RatTable(label2rat: map<string, Rat>, rat2label: map<Rat, string>, rIsAction: map<Rat, bool>,
                               rat2inv: map<Rat, Rat>, gexf: map<Rat, string>, nextRat: nat)

  /** The state before the relationship types are read: the identity `=`
   *  is its own inverse and the next id is RT_ID + 1. */
  const InitialRats: RatTable :=
    RatTable(map["=" := RT_ID], map[RT_ID := "="], map[RT_ID := false], map[RT_ID := RT_ID], map[], RT_ID + 1)

  const SYMMETRIC: string := "symmetric"

  /** What the relationship-type tables keep: ids lie in RT_ID..nextRat-1,
   *  every label names a type with that label, every type is a
   *  relationship (not an action) type, and every type with an inverse
   *  has an inverse that has one too. */
  ghost predicate RatsOk(t: RatTable) {
    && RT_ID in t.rat2label
    && (forall r :: r in t.rat2label ==> RT_ID <= r < t.nextRat)
    && (forall l :: l in t.label2rat ==> t.label2rat[l] in t.rat2label && t.rat2label[t.label2rat[l]] == l)
    && (forall r :: r in t.rIsAction <==> r in t.rat2label)
    && (forall r :: r in t.rIsAction ==> !t.rIsAction[r])
    && (forall r :: r in t.rat2inv ==> r in t.rat2label && t.rat2inv[r] in t.rat2inv)
  }

  /** A new relationship type labelled `lab`, with the next id. */
  function WithRat(t: RatTable, lab: string): RatTable {
    t.(label2rat := t.label2rat[lab := t.nextRat], rat2label := t.rat2label[t.nextRat := lab],
       rIsAction := t.rIsAction[t.nextRat := false], nextRat := t.nextRat + 1)
  }

  lemma WithRatOk(t: RatTable, lab: string)
    requires RatsOk(t)
    ensures RatsOk(WithRat(t, lab))
    ensures WithRat(t, lab).label2rat[lab] == t.nextRat && WithRat(t, lab).rat2label[t.nextRat] == lab
    ensures forall l :: l in t.label2rat ==> l in WithRat(t, lab).label2rat
  {
  }

  /** The first pass over `relationship types`: the k-th label gets id
   *  `nextRat + k`, a relationship type. */
  method CollectRatLabels(t0: RatTable, labels: seq<string>) returns (t: RatTable)
    requires RatsOk(t0)
    ensures RatsOk(t) && t.nextRat == t0.nextRat + |labels|
    ensures forall k :: 0 <= k < |labels| ==> labels[k] in t.label2rat
    ensures forall r :: t0.nextRat <= r < t.nextRat ==> r in t.rat2label && t.rat2label[r] == labels[r - t0.nextRat]
    ensures t.rat2inv == t0.rat2inv && t.gexf == t0.gexf
  {
    t := t0;
    for k := 0 to |labels|
      invariant RatsOk(t) && t.nextRat == t0.nextRat + k
      invariant forall j :: 0 <= j < k ==> labels[j] in t.label2rat
      invariant forall r :: t0.nextRat <= r < t.nextRat ==> r in t.rat2label && t.rat2label[r] == labels[r - t0.nextRat]
      invariant t.rat2inv == t0.rat2inv && t.gexf == t0.gexf
    {
      WithRatOk(t, labels[k]);
      t := WithRat(t, labels[k]);
    }
  }

  /** The label given as inverse, `""` for none. */
  function InverseText(s: RatSpec): string {
    match s
    case NoInverse => ""
    case InverseLabel(l) => l
    case RatDetails(inv, _) => if inv.Some? then inv.value else ""
  }

  /** The gexf file of a relationship type: the default unless a map names
   *  one or, with null, none. */
  function GexfFile(s: RatSpec, gexfDefault: string): string {
    if s.RatDetails? then
      match s.gexf
      case DefaultFile => gexfDefault
      case NoFile => ""
      case File(f) => f
    else gexfDefault
  }

  /** `inv` paired with `rat1` as its inverse, registering `inv` as a new
   *  relationship type (without a gexf file) if it is not declared. */
  function Paired(t: RatTable, rat1: Rat, inv: string): RatTable {
    if inv in t.label2rat then
      var rat2 := t.label2rat[inv];
      t.(rat2inv := t.rat2inv[rat1 := rat2][rat2 := rat1])
    else
      var rat2 := t.nextRat;
      var t' := WithRat(t, inv).(gexf := t.gexf[rat2 := ""]);
      t'.(rat2inv := t'.rat2inv[rat1 := rat2][rat2 := rat1])
  }

  /** Pairing keeps the invariant and every label. */
  lemma PairedOk(t: RatTable, rat1: Rat, inv: string)
    requires RatsOk(t) && rat1 in t.rat2label
    ensures RatsOk(Paired(t, rat1, inv))
    ensures forall l :: l in t.label2rat ==> l in Paired(t, rat1, inv).label2rat
  {
    if inv !in t.label2rat {
      WithRatOk(t, inv);
    }
  }

  /** Pairing records the pair in both directions, and a new inverse gets
   *  the next id, no gexf file, and relationship kind. */
  lemma PairedRecords(t: RatTable, rat1: Rat, inv: string)
    requires RatsOk(t) && rat1 in t.rat2label
    ensures var t' := Paired(t, rat1, inv);
      && inv in t'.label2rat && rat1 in t'.rat2inv && t'.label2rat[inv] in t'.rat2inv
      && t'.rat2inv[rat1] == t'.label2rat[inv] && t'.rat2inv[t'.label2rat[inv]] == rat1
      && (inv !in t.label2rat ==>
            && t'.label2rat[inv] == t.nextRat && t'.nextRat == t.nextRat + 1
            && t.nextRat in t'.gexf && t'.gexf[t.nextRat] == ""
            && t.nextRat in t'.rIsAction && !t'.rIsAction[t.nextRat]
            && t.nextRat in t'.rat2label && t'.rat2label[t.nextRat] == inv)
      && (inv in t.label2rat ==> t'.label2rat[inv] == t.label2rat[inv] && t'.nextRat == t.nextRat)
  {
  }

  /** The second pass over `relationship types` for one entry: `symmetric`
   *  is not a valid label; the gexf file is recorded; a non-empty inverse
   *  label (`symmetric` meaning the type itself) is paired with it. */
  function ResolveInverse(t: RatTable, lab: string, spec: RatSpec, gexfDefault: string): (r: Result<RatTable>)
    requires lab in t.label2rat
  {
    if lab == SYMMETRIC then Err("'symmetric' is not a valid label")
    else
      var rat1 := t.label2rat[lab];
      var t1 := t.(gexf := t.gexf[rat1 := GexfFile(spec, gexfDefault)]);
      var inv := InverseText(spec);
      if inv == "" then Ok(t1)
      else Ok(Paired(t1, rat1, if inv == SYMMETRIC then lab else inv))
  }

  /** The second pass keeps the invariant and every label, and fails
   *  exactly on the label `symmetric`. */
  lemma ResolveInverseOk(t: RatTable, lab: string, spec: RatSpec, gexfDefault: string)
    requires RatsOk(t) && lab in t.label2rat
    ensures var r := ResolveInverse(t, lab, spec, gexfDefault);
      && (r.Ok? <==> lab != SYMMETRIC)
      && (r.Ok? ==> RatsOk(r.value) && forall l :: l in t.label2rat ==> l in r.value.label2rat)
  {
    if lab != SYMMETRIC {
      var rat1 := t.label2rat[lab];
      var t1 := t.(gexf := t.gexf[rat1 := GexfFile(spec, gexfDefault)]);
      var inv := InverseText(spec);
      if inv != "" {
        PairedOk(t1, rat1, if inv == SYMMETRIC then lab else inv);
      }
    }
  }

  /** An entry records its gexf file; one with an inverse has the pair
   *  recorded in both directions, and `symmetric` makes the type its own
   *  inverse. */
  lemma ResolveInverseRecords(t: RatTable, lab: string, spec: RatSpec, gexfDefault: string)
    requires RatsOk(t) && lab in t.label2rat && lab != SYMMETRIC
    ensures var r := ResolveInverse(t, lab, spec, gexfDefault).value;
      && t.label2rat[lab] in r.gexf && r.gexf[t.label2rat[lab]] == GexfFile(spec, gexfDefault)
      && (InverseText(spec) == "" ==> r.rat2inv == t.rat2inv && r.label2rat == t.label2rat)
      && (InverseText(spec) != "" ==>
            var rat1 := t.label2rat[lab];
            var inv := if InverseText(spec) == SYMMETRIC then lab else InverseText(spec);
            && inv in r.label2rat && rat1 in r.rat2inv && r.label2rat[inv] in r.rat2inv
            && r.rat2inv[rat1] == r.label2rat[inv] && r.rat2inv[r.label2rat[inv]] == rat1)
      && (InverseText(spec) == SYMMETRIC ==> t.label2rat[lab] in r.rat2inv && r.rat2inv[t.label2rat[lab]] == t.label2rat[lab])
  {
    var rat1 := t.label2rat[lab];
    var t1 := t.(gexf := t.gexf[rat1 := GexfFile(spec, gexfDefault)]);
    var inv := InverseText(spec);
    if inv != "" {
      PairedRecords(t1, rat1, if inv == SYMMETRIC then lab else inv);
    }
  }

  /** The id the first pass gives the `k`-th listed relationship type. */
  function ListedRat(k: nat): (r: nat)
    ensures RT_ID < r
  {
    RT_ID + 1 + k
  }

  /** The `k`-th label read holds the id `ListedRat(k)`, as the first pass
   *  hands the ids out in listing order. */
  ghost predicate IdsInOrder(t: RatTable, labels: seq<string>) {
    forall j :: 0 <= j < |labels| ==> ListedRat(j) in t.rat2label && t.rat2label[ListedRat(j)] == labels[j]
  }

  /** The first pass leaves the ids in listing order. */
  lemma CollectedInOrder(t: RatTable, labels: seq<string>)
    requires t.nextRat == InitialRats.nextRat + |labels|
    requires forall r :: InitialRats.nextRat <= r < t.nextRat ==> r in t.rat2label && t.rat2label[r] == labels[r - InitialRats.nextRat]
    ensures IdsInOrder(t, labels)
  {
    forall j | 0 <= j < |labels|
      ensures ListedRat(j) in t.rat2label && t.rat2label[ListedRat(j)] == labels[j]
    {
      assert InitialRats.nextRat <= ListedRat(j) < t.nextRat;
    }
  }

  /** `IdsInOrder` over the labels of `entries`, stated on the entries. */
  lemma InOrderOfEntries(t: RatTable, entries: seq<(string, RatSpec)>, labels: seq<string>)
    requires |labels| == |entries| && forall k :: 0 <= k < |entries| ==> labels[k] == entries[k].0
    requires IdsInOrder(t, labels)
    ensures forall k :: 0 <= k < |entries| ==> ListedRat(k) in t.rat2label && t.rat2label[ListedRat(k)] == entries[k].0
  {
    forall k | 0 <= k < |entries|
      ensures ListedRat(k) in t.rat2label && t.rat2label[ListedRat(k)] == entries[k].0
    {
      assert labels[k] == entries[k].0;
    }
  }

  /** The second pass never relabels an existing id: a new inverse gets an
   *  id above every existing one. */
  lemma ResolveKeepsIds(t: RatTable, labels: seq<string>, lab: string, spec: RatSpec, gexfDefault: string)
    requires RatsOk(t) && lab in t.label2rat && lab != SYMMETRIC && IdsInOrder(t, labels)
    ensures IdsInOrder(ResolveInverse(t, lab, spec, gexfDefault).value, labels)
  {
    var r := ResolveInverse(t, lab, spec, gexfDefault).value;
    assert t.nextRat !in t.rat2label;
    assert forall i :: i in t.rat2label ==> i in r.rat2label && r.rat2label[i] == t.rat2label[i];
  }

  /** The labels of the entries, in order. */
  function LabelsOf(entries: seq<(string, RatSpec)>): (labels: seq<string>)
    ensures |labels| == |entries| && forall k :: 0 <= k < |entries| ==> labels[k] == entries[k].0
  {
    if entries == [] then [] else [entries[0].0] + LabelsOf(entries[1..])
  }

  /** Every label in `labels` names a relationship type. */
  ghost predicate Registered(t: RatTable, labels: seq<string>) {
    forall k :: 0 <= k < |labels| ==> labels[k] in t.label2rat
  }

  /** One entry of the second pass keeps the labels registered. */
  lemma ResolveKeeps(t: RatTable, labels: seq<string>, k: nat, spec: RatSpec, gexfDefault: string)
    requires RatsOk(t) && Registered(t, labels) && IdsInOrder(t, labels) && k < |labels|
    ensures var r := ResolveInverse(t, labels[k], spec, gexfDefault);
      (r.Ok? <==> labels[k] != SYMMETRIC) &&
      (r.Ok? ==> RatsOk(r.value) && Registered(r.value, labels) && IdsInOrder(r.value, labels))
  {
    ResolveInverseOk(t, labels[k], spec, gexfDefault);
    if labels[k] != SYMMETRIC {
      ResolveKeepsIds(t, labels, labels[k], spec, gexfDefault);
    }
  }

  /** No label in `labels` is `symmetric`. */
  ghost predicate NoneSymmetric(labels: seq<string>)
    decreases |labels|
  {
    labels == [] || (NoneSymmetric(labels[..|labels| - 1]) && labels[|labels| - 1] != SYMMETRIC)
  }

  lemma NoneSymmetricStep(labels: seq<string>, k: nat)
    requires k < |labels|
    ensures NoneSymmetric(labels[..k + 1]) == (NoneSymmetric(labels[..k]) && labels[k] != SYMMETRIC)
  {
    assert labels[..k + 1][..k] == labels[..k];
  }

  /** `NoneSymmetric` is what it says. */
  lemma {:induction false} NoneSymmetricIff(labels: seq<string>)
    decreases |labels|
    ensures NoneSymmetric(labels) <==> SYMMETRIC !in labels
  {
    if labels != [] {
      var init := labels[..|labels| - 1];
      NoneSymmetricIff(init);
      assert labels == init + [labels[|labels| - 1]];
    }
  }

  /** The second pass over `relationship types`: the inverses are resolved
   *  in order, and the first label `symmetric` stops it. */
  method ResolveInverses(t0: RatTable, entries: seq<(string, RatSpec)>, labels: seq<string>, gexfDefault: string)
    returns (r: Result<RatTable>)
    requires labels == LabelsOf(entries)
    requires RatsOk(t0) && Registered(t0, labels) && IdsInOrder(t0, labels)
    ensures r.Ok? <==> SYMMETRIC !in labels
    ensures r.Ok? ==> RatsOk(r.value) && Registered(r.value, labels) && IdsInOrder(r.value, labels)
  {
    var t := t0;
    for k := 0 to |entries|
      invariant RatsOk(t) && Registered(t, labels)
      invariant NoneSymmetric(labels[..k])
      invariant IdsInOrder(t, labels)
    {
      NoneSymmetricStep(labels, k);
      ResolveKeeps(t, labels, k, entries[k].1, gexfDefault);
      var next := ResolveInverse(t, labels[k], entries[k].1, gexfDefault);
      if next.Err? {
        assert labels[k] in labels;
        return next;
      }
      t := next.value;
    }
    assert labels[..|labels|] == labels;
    NoneSymmetricIff(labels);
    r := Ok(t);
  }

  /** The `relationship types` and `action types` sections: every
   *  relationship type gets an id in listing order before the inverses are
   *  read, the inverses are resolved in order (only the label `symmetric`
   *  is refused), and any action type is rejected, as actions are not
   *  supported. */
  method ReadRelationshipTypes(entries: seq<(string, RatSpec)>, nActionTypes: nat, gexfDefault: string)
    returns (r: Result<RatTable>)
    ensures r.Ok? <==> nActionTypes == 0 && SYMMETRIC !in LabelsOf(entries)
    ensures r.Ok? ==> RatsOk(r.value) && Registered(r.value, LabelsOf(entries))
    ensures r.Ok? ==> forall k :: 0 <= k < |entries| ==>
      ListedRat(k) in r.value.rat2label && r.value.rat2label[ListedRat(k)] == entries[k].0
  {
    var labels := LabelsOf(entries);
    var t := CollectRatLabels(InitialRats, labels);
    assert Registered(t, labels);
    CollectedInOrder(t, labels);
    r := ResolveInverses(t, entries, labels, gexfDefault);
    if r.Err? {
      return;
    }
    if nActionTypes > 0 {
      return Err("sorry, actions not supported yet!");
    }
    InOrderOfEntries(r.value, entries, labels);
  }
}
