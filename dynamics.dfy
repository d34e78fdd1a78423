/** The `dynamics` section of `read_config` (src/config.cpp:493-732): for
 *  each link type, the base attempt rates, base probunits, tail indices and
 *  the attempt rates and probunit changes caused by angles, for the
 *  establishment and the termination event type. Values come in already
 *  evaluated. */
module Dynamics {
  import opened Wrappers
  import opened ExtReal
  import opened DataModel
  import opened Config

  /** A key of a map under `attempt` or `success`: a word, or a list whose
   *  items are labels or YAML nulls (`None`). */
  datatype Cause = Word(w: string) | Keys(items: seq<Option<string>>)

  /** The value of `attempt` or `success`: a scalar, a map from causes, or
   *  some other node. */
  datatype Spec = Scalar(x: Ext) | Causes(entries: seq<(Cause, Node)>) | OtherNode

  /** The value of `establish` or `terminate`. */
  datatype Section = Section(attempt: Option<Spec>, success: Option<Spec>) | NotAMap

  /** The value of one entry of `dynamics`. */
  datatype EntryValue = Sections(establish: Option<Section>, terminate: Option<Section>) | NotSections

  /** One entry of `dynamics`: the link type by labels, and its value. */
  datatype DynamicsEntry = DynamicsEntry(et1: string, rat: string, et3: string, spec: EntryValue)

  /** `evt2base_attempt_rate`, `evt2base_probunits`, `evt2left_tail`,
   *  `evt2right_tail`, `inflt2attempt_rate`, `inflt2delta_probunits`. */
  datatype DynTables = DynTables(baseAttempt: map<EventType, Ext>, baseProbunits: map<EventType, Ext>,
                                 leftTail: map<EventType, Ext>, rightTail: map<EventType, Ext>,
                                 attempt: map<InfluenceType, Ext>, delta: map<InfluenceType, Ext>)

  const NoDynamics: DynTables := DynTables(map[], map[], map[], map[], map[], map[])

  /** The labels the section is read against, and the entry's own entity
   *  type labels (an angle key may repeat them at its ends). */
  datatype Context = Context(label2et: map<string, EntityType>, label2rat: map<string, Rat>, et1l: string, et3l: string)

  /** The errors the section can raise; `Message` gives the source's
   *  wording, which differs in places between the establishment (`ec`
   *  EC_EST) and the termination branch. */
  datatype DynError =
    | Undeclared | EntryNode | SectionNode(ec: EventClass)
    | AttemptNode | NegativeAttempt | AttemptKeys | AttemptWord(ec: EventClass) | LegsAttempt(ec: EventClass)
    | SuccessNode | SuccessKeys | SuccessWord(ec: EventClass) | LegsSuccess(ec: EventClass)
    | TailPair | TailIndices(ec: EventClass)

  /** The read tables, or the first error. */
  datatype Parsed<T> = Parsed(value: T) | Rejected(error: DynError)

  function Message(e: DynError): string {
    var shapes := "[~, rel./act.type, ent.type, rel./act.type, ~], [~, rel./act.type, ent.type], or [ent.type, rel./act.type, ~]";
    match e
    case Undeclared => UNDECLARED
    case EntryNode => "values in yaml map 'dynamics' must be maps"
    case SectionNode(ec) =>
      if ec == EC_EST then "yaml field 'establish' within 'dynamics' must be a map"
      else "yaml field 'terminate' within 'dynamics' must be a map"
    case AttemptNode => "yaml field 'attempt' within 'dynamics' must be a scalar (base attempt rate) or a map"
    case NegativeAttempt => "values in map 'attempt' must be non-negative"
    case AttemptKeys => "keys in map 'attempt' can be 'basic'/'base', " + shapes
    case AttemptWord(ec) =>
      if ec == EC_EST then "keys in map 'attempt' can be 'basic', " + shapes
      else "keys in map 'attempt' can be 'basic'/'base', " + shapes
    case LegsAttempt(ec) =>
      if ec == EC_EST then "sorry, legs cannot attempt establishment yet" else "sorry, legs cannot attempt termination yet"
    case SuccessNode => "yaml field 'success' within 'dynamics' must be a scalar (base probunits) or a map"
    case SuccessKeys => "keys in map 'success' can be 'basic'/'base', " + shapes
    case SuccessWord(ec) =>
      if ec == EC_EST then "keys in map 'success' can be 'tails', 'basic', " + shapes
      else "keys in map 'success' can be 'tails', 'basic'/'base', " + shapes
    case LegsSuccess(ec) =>
      if ec == EC_EST then "sorry, legs cannot influence establishment success yet"
      else "sorry, legs cannot influence termination success yet"
    case TailPair => "tail specification must be either a number or a pair of numbers."
    case TailIndices(ec) =>
      if ec == EC_EST then "tail indices must be non-negative finite numbers" else "tail indices must be positive finite numbers"
  }

  /** A value read as one number; a list cannot be converted, and the
   *  conversion error surfaces as the section's catch-all error. */
  function NumberOf(n: Node): (r: Parsed<Ext>)
    ensures r.Parsed? <==> n.Number?
    ensures r.Parsed? ==> r.value == n.x
    ensures r.Rejected? ==> r.error == Undeclared
  {
    if n.Number? then Parsed(n.x) else Rejected(Undeclared)
  }

  /** A label item of an angle key that names a declared type. */
  predicate KnownRat(c: Context, o: Option<string>) {
    o.Some? && o.value in c.label2rat
  }
  predicate KnownEt(c: Context, o: Option<string>) {
    o.Some? && o.value in c.label2et
  }

  /** An end of an angle key: null, or the entry's own entity type. */
  predicate EndMatches(o: Option<string>, own: string) {
    o.None? || o.value == own
  }

  /** The angle type of a cause list: five items with matching ends; a
   *  list of another length (a leg) is not supported yet. */
  function AngleOf(c: Context, items: seq<Option<string>>, keys: DynError, legs: DynError): Parsed<AngleType> {
    if |items| != 5 then Rejected(legs)
    else if !(EndMatches(items[0], c.et1l) && EndMatches(items[4], c.et3l)) then Rejected(keys)
    else if !(KnownRat(c, items[1]) && KnownEt(c, items[2]) && KnownRat(c, items[3])) then Rejected(Undeclared)
    else Parsed(AngleType(c.label2rat[items[1].value], c.label2et[items[2].value], c.label2rat[items[3].value]))
  }

  /** An angle key is accepted exactly when it has five items, its ends are
   *  null or the entry's own entity types, and its middle names declared
   *  types, which the angle type then carries in order. */
  lemma AngleOfIff(c: Context, items: seq<Option<string>>, keys: DynError, legs: DynError)
    ensures var r := AngleOf(c, items, keys, legs);
      && (r.Parsed? <==> |items| == 5 && EndMatches(items[0], c.et1l) && EndMatches(items[4], c.et3l)
                         && KnownRat(c, items[1]) && KnownEt(c, items[2]) && KnownRat(c, items[3]))
      && (|items| != 5 ==> r == Rejected(legs))
      && (r.Parsed? ==> r.value.rat12 == c.label2rat[items[1].value] && r.value.et2 == c.label2et[items[2].value]
                        && r.value.rat23 == c.label2rat[items[3].value])
  {
  }

  /** What the dynamics tables keep: attempt rates caused by angles are
   *  non-negative and come with a probunit entry, and tail indices come in
   *  pairs of finite non-negative numbers. */
  ghost predicate DynOk(d: DynTables) {
    && (forall i :: i in d.attempt ==> Zero.Le(d.attempt[i]) && i in d.delta)
    && (forall e :: e in d.leftTail <==> e in d.rightTail)
    && (forall e :: e in d.leftTail ==> FiniteNonNegative(d.leftTail[e]) && FiniteNonNegative(d.rightTail[e]))
  }

  /** One entry of an `attempt` map: the rate must be a non-negative
   *  number; `basic`/`base` sets the base attempt rate, an angle key the
   *  attempt rate of that influence type (with probunit change 0). */
  function AttemptCause(d: DynTables, c: Context, evt: EventType, cause: Cause, value: Node): Parsed<DynTables> {
    var ar := NumberOf(value);
    if ar.Rejected? then Rejected(ar.error)
    else if !Zero.Le(ar.value) then Rejected(NegativeAttempt)
    else
      match cause
      case Keys(items) =>
        var at := AngleOf(c, items, AttemptKeys, LegsAttempt(evt.ec));
        if at.Rejected? then Rejected(at.error)
        else
          var i := InfluenceType(evt, at.value);
          Parsed(d.(attempt := d.attempt[i := ar.value], delta := d.delta[i := Zero]))
      case Word(w) =>
        if w != "basic" && w != "base" then Rejected(AttemptWord(evt.ec))
        else Parsed(d.(baseAttempt := d.baseAttempt[evt := ar.value]))
  }

  /** An attempt entry keeps the invariant, rejects a negative rate or a
   *  leg key, and records the rate it reads. */
  lemma AttemptCauseOk(d: DynTables, c: Context, evt: EventType, cause: Cause, value: Node)
    requires DynOk(d)
    ensures var r := AttemptCause(d, c, evt, cause, value);
      && (r.Parsed? ==> DynOk(r.value))
      && (value.Number? && !Zero.Le(value.x) ==> r == Rejected(NegativeAttempt))
      && (cause.Keys? && |cause.items| != 5 ==> r.Rejected?)
      && (r.Parsed? && cause.Word? ==> evt in r.value.baseAttempt && r.value.baseAttempt[evt] == value.x
                                       && r.value.attempt == d.attempt)
      && (r.Parsed? && cause.Keys? ==>
            var i := InfluenceType(evt, AngleOf(c, cause.items, AttemptKeys, LegsAttempt(evt.ec)).value);
            i in r.value.attempt && r.value.attempt[i] == value.x && i in r.value.delta && r.value.delta[i] == Zero)
  {
  }

  /** The tail indices of a `tails` entry, with the branch's wording of the
   *  range error. */
  function TailsOf(value: Node, ec: EventClass): (r: Parsed<(Ext, Ext)>)
  {
    var tails := ReadTails(value);
    if tails.Ok? then Parsed(tails.value)
    else if value.Numbers? && |value.xs| != 2 then Rejected(TailPair)
    else Rejected(TailIndices(ec))
  }

  /** One entry of a `success` map: an angle key sets the probunit change
   *  of that influence type, `basic`/`base` the base probunits, `tails`
   *  the two tail indices; any other word is rejected. */
  function SuccessCause(d: DynTables, c: Context, evt: EventType, cause: Cause, value: Node): Parsed<DynTables> {
    match cause
    case Keys(items) =>
      var pu := NumberOf(value);
      if pu.Rejected? then Rejected(pu.error)
      else
        var at := AngleOf(c, items, SuccessKeys, LegsSuccess(evt.ec));
        if at.Rejected? then Rejected(at.error)
        else Parsed(d.(delta := d.delta[InfluenceType(evt, at.value) := pu.value]))
    case Word(w) =>
      if w == "basic" || w == "base" then
        var pu := NumberOf(value);
        if pu.Rejected? then Rejected(pu.error) else Parsed(d.(baseProbunits := d.baseProbunits[evt := pu.value]))
      else if w == "tails" then
        var tails := TailsOf(value, evt.ec);
        if tails.Rejected? then Rejected(tails.error)
        else Parsed(d.(leftTail := d.leftTail[evt := tails.value.0], rightTail := d.rightTail[evt := tails.value.1]))
      else Rejected(SuccessWord(evt.ec))
  }

  /** A success entry keeps the invariant, rejects a leg key or an unknown
   *  word, and records the tails it reads. */
  lemma SuccessCauseOk(d: DynTables, c: Context, evt: EventType, cause: Cause, value: Node)
    requires DynOk(d)
    ensures var r := SuccessCause(d, c, evt, cause, value);
      && (r.Parsed? ==> DynOk(r.value))
      && (cause.Keys? && |cause.items| != 5 ==> r.Rejected?)
      && (cause.Word? && cause.w != "basic" && cause.w != "base" && cause.w != "tails" ==> r == Rejected(SuccessWord(evt.ec)))
      && (r.Parsed? && cause == Word("tails") ==>
            var t := ReadTails(value).value;
            evt in r.value.leftTail && r.value.leftTail[evt] == t.0 && r.value.rightTail[evt] == t.1)
      && (r.Parsed? ==> r.value.attempt == d.attempt)
  {
    ReadTailsOk(value);
  }

  /** The loop over an `attempt` map, in order; the first error ends it. */
  function AttemptCauses(d: DynTables, c: Context, evt: EventType, es: seq<(Cause, Node)>): Parsed<DynTables>
    decreases |es|
  {
    if es == [] then Parsed(d)
    else
      var r := AttemptCause(d, c, evt, es[0].0, es[0].1);
      if r.Rejected? then r else AttemptCauses(r.value, c, evt, es[1..])
  }

  /** The loop over a `success` map, in order; the first error ends it. */
  function SuccessCauses(d: DynTables, c: Context, evt: EventType, es: seq<(Cause, Node)>): Parsed<DynTables>
    decreases |es|
  {
    if es == [] then Parsed(d)
    else
      var r := SuccessCause(d, c, evt, es[0].0, es[0].1);
      if r.Rejected? then r else SuccessCauses(r.value, c, evt, es[1..])
  }

  /** Some cause is a leg (a list of other than five items). */
  ghost predicate HasLeg(es: seq<(Cause, Node)>) {
    exists k :: 0 <= k < |es| && es[k].0.Keys? && |es[k].0.items| != 5
  }

  lemma HasLegTail(es: seq<(Cause, Node)>)
    requires es != [] && HasLeg(es) && !(es[0].0.Keys? && |es[0].0.items| != 5)
    ensures HasLeg(es[1..])
  {
    var k :| 0 <= k < |es| && es[k].0.Keys? && |es[k].0.items| != 5;
    assert es[1..][k - 1] == es[k];
  }

  /** An `attempt` map keeps the invariant, and a leg anywhere in it makes
   *  it fail. */
  lemma {:induction false} AttemptCausesOk(d: DynTables, c: Context, evt: EventType, es: seq<(Cause, Node)>)
    requires DynOk(d)
    decreases |es|
    ensures var r := AttemptCauses(d, c, evt, es);
      (r.Parsed? ==> DynOk(r.value)) && (HasLeg(es) ==> r.Rejected?)
  {
    if es != [] {
      AttemptCauseOk(d, c, evt, es[0].0, es[0].1);
      var r := AttemptCause(d, c, evt, es[0].0, es[0].1);
      if r.Parsed? {
        AttemptCausesOk(r.value, c, evt, es[1..]);
        if HasLeg(es) {
          HasLegTail(es);
        }
      }
    }
  }

  /** A `success` map keeps the invariant and the attempt rates, and a leg
   *  anywhere in it makes it fail. */
  lemma {:induction false} SuccessCausesOk(d: DynTables, c: Context, evt: EventType, es: seq<(Cause, Node)>)
    requires DynOk(d)
    decreases |es|
    ensures var r := SuccessCauses(d, c, evt, es);
      (r.Parsed? ==> DynOk(r.value) && r.value.attempt == d.attempt) && (HasLeg(es) ==> r.Rejected?)
  {
    if es != [] {
      SuccessCauseOk(d, c, evt, es[0].0, es[0].1);
      var r := SuccessCause(d, c, evt, es[0].0, es[0].1);
      if r.Parsed? {
        SuccessCausesOk(r.value, c, evt, es[1..]);
        if HasLeg(es) {
          HasLegTail(es);
        }
      }
    }
  }

  /** The tables once `attempt` is given: default tails, base probunits 0. */
  function AttemptDefaults(d: DynTables, evt: EventType): (d1: DynTables)
    ensures DynOk(d) ==> DynOk(d1)
    ensures evt in d1.leftTail && evt in d1.rightTail && d1.leftTail[evt] == TAIL_DEFAULT && d1.rightTail[evt] == TAIL_DEFAULT
    ensures evt in d1.baseProbunits && d1.baseProbunits[evt] == Zero
    ensures d1.attempt == d.attempt && d1.delta == d.delta && d1.baseAttempt == d.baseAttempt
  {
    d.(leftTail := d.leftTail[evt := TAIL_DEFAULT], rightTail := d.rightTail[evt := TAIL_DEFAULT],
       baseProbunits := d.baseProbunits[evt := Zero])
  }

  /** `attempt`: giving it resets the tails to the default and the base
   *  probunits to 0 before the rates are read. */
  function ReadAttempt(d: DynTables, c: Context, evt: EventType, s: Spec): Parsed<DynTables> {
    var d1 := AttemptDefaults(d, evt);
    match s
    case Scalar(x) => Parsed(d1.(baseAttempt := d1.baseAttempt[evt := x]))
    case Causes(es) => AttemptCauses(d1, c, evt, es)
    case OtherNode => Rejected(AttemptNode)
  }

  /** `success`. */
  function ReadSuccess(d: DynTables, c: Context, evt: EventType, s: Spec): Parsed<DynTables> {
    match s
    case Scalar(x) => Parsed(d.(baseProbunits := d.baseProbunits[evt := x]))
    case Causes(es) => SuccessCauses(d, c, evt, es)
    case OtherNode => Rejected(SuccessNode)
  }

  /** `establish` or `terminate` of one link type. */
  function ReadSection(d: DynTables, c: Context, evt: EventType, s: Section): Parsed<DynTables> {
    if s.NotAMap? then Rejected(SectionNode(evt.ec))
    else
      var r := if s.attempt.Some? then ReadAttempt(d, c, evt, s.attempt.value) else Parsed(d);
      if r.Rejected? || s.success.None? then r else ReadSuccess(r.value, c, evt, s.success.value)
  }

  /** Reading `attempt` keeps the invariant; a scalar is the base attempt
   *  rate. */
  lemma ReadAttemptOk(d: DynTables, c: Context, evt: EventType, s: Spec)
    requires DynOk(d)
    ensures var r := ReadAttempt(d, c, evt, s);
      && (r.Parsed? ==> DynOk(r.value))
      && (s.Scalar? ==> r.Parsed? && evt in r.value.baseAttempt && r.value.baseAttempt[evt] == s.x)
      && (s.OtherNode? ==> r == Rejected(AttemptNode))
  {
    if s.Causes? {
      AttemptCausesOk(AttemptDefaults(d, evt), c, evt, s.entries);
    }
  }

  /** Reading `success` keeps the invariant and the attempt rates. */
  lemma ReadSuccessOk(d: DynTables, c: Context, evt: EventType, s: Spec)
    requires DynOk(d)
    ensures var r := ReadSuccess(d, c, evt, s);
      && (r.Parsed? ==> DynOk(r.value) && r.value.attempt == d.attempt)
      && (s.Scalar? ==> r.Parsed? && evt in r.value.baseProbunits && r.value.baseProbunits[evt] == s.x)
      && (s.OtherNode? ==> r == Rejected(SuccessNode))
  {
    if s.Causes? {
      SuccessCausesOk(d, c, evt, s.entries);
    }
  }

  /** A section keeps the invariant. */
  lemma ReadSectionOk(d: DynTables, c: Context, evt: EventType, s: Section)
    requires DynOk(d)
    ensures var r := ReadSection(d, c, evt, s);
      && (r.Parsed? ==> DynOk(r.value))
      && (s.NotAMap? ==> r == Rejected(SectionNode(evt.ec)))
  {
    if s.Section? {
      if s.attempt.Some? {
        ReadAttemptOk(d, c, evt, s.attempt.value);
      }
      var r := if s.attempt.Some? then ReadAttempt(d, c, evt, s.attempt.value) else Parsed(d);
      if r.Parsed? && s.success.Some? {
        ReadSuccessOk(r.value, c, evt, s.success.value);
      }
    }
  }

  /** One entry of `dynamics`: undeclared labels are the catch-all error;
   *  an action type is skipped; otherwise `establish` then `terminate`. */
  function DynamicsStep(d: DynTables, label2et: map<string, EntityType>, label2rat: map<string, Rat>,
                        isAction: map<Rat, bool>, e: DynamicsEntry): Parsed<DynTables> {
    if e.et1 !in label2et || e.et3 !in label2et || e.rat !in label2rat then Rejected(Undeclared)
    else if e.spec.NotSections? then Rejected(EntryNode)
    else
      var et1, rat13, et3 := label2et[e.et1], label2rat[e.rat], label2et[e.et3];
      if rat13 in isAction && isAction[rat13] then Parsed(d)
      else
        var c := Context(label2et, label2rat, e.et1, e.et3);
        var r := if e.spec.establish.Some? then ReadSection(d, c, EventType(EC_EST, et1, rat13, et3), e.spec.establish.value)
                 else Parsed(d);
        if r.Rejected? || e.spec.terminate.None? then r
        else ReadSection(r.value, c, EventType(EC_TERM, et1, rat13, et3), e.spec.terminate.value)
  }

  /** An entry keeps the invariant and rejects undeclared labels. */
  lemma DynamicsStepOk(d: DynTables, label2et: map<string, EntityType>, label2rat: map<string, Rat>,
                       isAction: map<Rat, bool>, e: DynamicsEntry)
    requires DynOk(d)
    ensures var r := DynamicsStep(d, label2et, label2rat, isAction, e);
      && (r.Parsed? ==> DynOk(r.value))
      && (e.et1 !in label2et || e.et3 !in label2et || e.rat !in label2rat ==> r == Rejected(Undeclared))
  {
    if e.et1 in label2et && e.et3 in label2et && e.rat in label2rat && e.spec.Sections? {
      var et1, rat13, et3 := label2et[e.et1], label2rat[e.rat], label2et[e.et3];
      var c := Context(label2et, label2rat, e.et1, e.et3);
      if e.spec.establish.Some? {
        ReadSectionOk(d, c, EventType(EC_EST, et1, rat13, et3), e.spec.establish.value);
      }
      var r := if e.spec.establish.Some? then ReadSection(d, c, EventType(EC_EST, et1, rat13, et3), e.spec.establish.value)
               else Parsed(d);
      if r.Parsed? && e.spec.terminate.Some? {
        ReadSectionOk(r.value, c, EventType(EC_TERM, et1, rat13, et3), e.spec.terminate.value);
      }
    }
  }

  /** The loop over `dynamics`, in document order; the first error ends it. */
  function DynamicsRead(d: DynTables, label2et: map<string, EntityType>, label2rat: map<string, Rat>,
                        isAction: map<Rat, bool>, es: seq<DynamicsEntry>): Parsed<DynTables>
    decreases |es|
  {
    if es == [] then Parsed(d)
    else
      var r := DynamicsStep(d, label2et, label2rat, isAction, es[0]);
      if r.Rejected? then r else DynamicsRead(r.value, label2et, label2rat, isAction, es[1..])
  }

  /** Reading the section keeps the invariant. */
  lemma {:induction false} DynamicsReadOk(d: DynTables, label2et: map<string, EntityType>, label2rat: map<string, Rat>,
                                          isAction: map<Rat, bool>, es: seq<DynamicsEntry>)
    requires DynOk(d)
    decreases |es|
    ensures var r := DynamicsRead(d, label2et, label2rat, isAction, es);
      r.Parsed? ==> DynOk(r.value)
  {
    if es != [] {
      DynamicsStepOk(d, label2et, label2rat, isAction, es[0]);
      var r := DynamicsStep(d, label2et, label2rat, isAction, es[0]);
      if r.Parsed? {
        DynamicsReadOk(r.value, label2et, label2rat, isAction, es[1..]);
      }
    }
  }

  /** The `dynamics` section. */
  method ReadDynamics(label2et: map<string, EntityType>, label2rat: map<string, Rat>, isAction: map<Rat, bool>,
                      es: seq<DynamicsEntry>) returns (r: Parsed<DynTables>)
    ensures r == DynamicsRead(NoDynamics, label2et, label2rat, isAction, es)
    ensures r.Parsed? ==> DynOk(r.value)
  {
    var d := NoDynamics;
    DynamicsReadOk(d, label2et, label2rat, isAction, es);
    for k := 0 to |es|
      invariant DynamicsRead(NoDynamics, label2et, label2rat, isAction, es) == DynamicsRead(d, label2et, label2rat, isAction, es[k..])
    {
      assert es[k..][0] == es[k] && es[k..][1..] == es[k + 1..];
      var next := DynamicsStep(d, label2et, label2rat, isAction, es[k]);
      if next.Rejected? {
        return next;
      }
      d := next.value;
    }
    assert es[|es|..] == [];
    r := Parsed(d);
  }
}
