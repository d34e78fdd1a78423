/** The validation rules of `read_config` in src/config.cpp that do not
 *  register types: the limits, the tail indices, the random initial links,
 *  and the table of metaparameters that expressions may name. Values the
 *  source computes with `parse_double`/`parse_int` come in already
 *  evaluated; doubles are `Ext` (or `real` where infinity cannot occur).
 */
module Config {
  import opened Wrappers
  import opened ExtReal
  import opened DataModel

  // ---------------------------------------------------------------------
  // Limits

  /** `LONG_MAX`, the default of `max_n_events` (64-bit `long`). */
  const LONG_MAX: int := 0x7FFF_FFFF_FFFF_FFFF

  datatype Limits = Limits(maxT: Ext, maxNEvents: int)

  const AT_LEAST_ONE_LIMIT: string := "must specify at least one of limits:t, limits:events"

  /** The `limits` section as written, from the optional values of `t` and
   *  `events`: `max_t` defaults to 0, an infinite `t` is rejected, and
   *  `max_n_events` is the floor of `events` or `LONG_MAX`. */
  function ReadLimitsAsWritten(t: Option<Ext>, events: Option<real>): (r: Result<Limits>)
    ensures r.Ok? ==> r.value.maxT != PosInf
  {
    var maxT := if t.Some? then t.value else Zero;
    if maxT == PosInf then Err("limit: t must be finite")
    else
      var maxN := if events.Some? then events.value.Floor else LONG_MAX;
      if maxT == PosInf && maxN == LONG_MAX then Err(AT_LEAST_ONE_LIMIT)
      else Ok(Limits(maxT, maxN))
  }

  /** As written, the check that at least one limit is given never fires,
   *  and a configuration without limits runs up to time 0. */
  lemma LimitsCheckUnreachable(t: Option<Ext>, events: Option<real>)
    ensures ReadLimitsAsWritten(t, events) != Err(AT_LEAST_ONE_LIMIT)
    ensures ReadLimitsAsWritten(None, None) == Ok(Limits(Zero, LONG_MAX))
  {
  }

  /** The `limits` section as evidently intended: `max_t` defaults to
   *  infinity (as in the older top-level config.cpp). */
  function ReadLimits(t: Option<Ext>, events: Option<real>): (r: Result<Limits>)
  {
    if t == Some(PosInf) then Err("limit: t must be finite")
    else
      var maxT := if t.Some? then t.value else PosInf;
      var maxN := if events.Some? then events.value.Floor else LONG_MAX;
      if maxT == PosInf && maxN == LONG_MAX then Err(AT_LEAST_ONE_LIMIT)
      else Ok(Limits(maxT, maxN))
  }

  /** With the intended default, reading the limits fails exactly when `t`
   *  is infinite or neither limit bounds the run; otherwise a given `t` is
   *  kept, a missing one is infinite, and `events` is floored. */
  lemma ReadLimitsCases(t: Option<Ext>, events: Option<real>)
    ensures var r := ReadLimits(t, events);
      && (r.Err? <==> t == Some(PosInf) || (t.None? && (events.None? || events.value.Floor == LONG_MAX)))
      && (r.Ok? ==> r.value.maxT == (if t.Some? then t.value else PosInf))
      && (r.Ok? ==> r.value.maxNEvents == (if events.Some? then events.value.Floor else LONG_MAX))
      && (r.Ok? ==> r.value.maxT != PosInf || r.value.maxNEvents != LONG_MAX)
  {
  }

  // ---------------------------------------------------------------------
  // Tail indices

  /** `TAIL_DEFAULT`, the tail index of an event type whose attempt rate is
   *  given but whose tails are not. */
  const TAIL_DEFAULT: Ext := Fin(1.0)

  /** A YAML value under `dynamics` that holds one number or a list of
   *  numbers (after expression evaluation). The `tails` entry under
   *  `success` is one number for both tails or a list that must hold two. */
  datatype Node = Number(x: Ext) | Numbers(xs: seq<Ext>)

  predicate FiniteNonNegative(x: Ext) {
    x.Fin? && x.v >= 0.0
  }

  /** The left and right tail index, or the error the source throws. */
  function ReadTails(s: Node): (r: Result<(Ext, Ext)>)
  {
    var tails :=
      match s
      case Number(x) => Ok((x, x))
      case Numbers(xs) =>
        if |xs| != 2 then Err("tail specification must be either a number or a pair of numbers.")
        else Ok((xs[0], xs[1]));
    if tails.Err? then tails
    else if !FiniteNonNegative(tails.value.0) || !FiniteNonNegative(tails.value.1) then
      Err("tail indices must be non-negative finite numbers")
    else tails
  }

  /** Accepted tail indices are finite and non-negative, a single number
   *  gives both tails, and a list of two gives them in order; anything
   *  else is rejected. */
  lemma ReadTailsOk(s: Node)
    ensures var r := ReadTails(s);
      && (r.Ok? ==> FiniteNonNegative(r.value.0) && FiniteNonNegative(r.value.1))
      && (s.Number? ==> (r.Ok? <==> FiniteNonNegative(s.x)) && (r.Ok? ==> r.value == (s.x, s.x)))
      && (s.Numbers? ==> (r.Ok? <==> |s.xs| == 2 && FiniteNonNegative(s.xs[0]) && FiniteNonNegative(s.xs[1])))
      && (s.Numbers? && r.Ok? ==> r.value == (s.xs[0], s.xs[1]))
      && (TAIL_DEFAULT.Fin? && FiniteNonNegative(TAIL_DEFAULT))
  {
  }

  // ---------------------------------------------------------------------
  // Random initial links

  /** The value of one entry under `initial links: random`, each key present
   *  or not. */
  datatype RandomSpec = RandomSpec(density: Option<real>, probability: Option<real>,
                                   blocks: Option<int>, within: Option<real>, between: Option<real>,
                                   dimension: Option<int>, decay: Option<real>)

  /** One entry: the labels of [entity type, relationship type, entity type]
   *  and its value. */
  datatype RandomEntry = RandomEntry(et1: string, rat: string, et3: string, spec: RandomSpec)

  /** `et2n_blocks`, `lt2initial_prob_within`, `lt2initial_prob_between`,
   *  `et2dim` and `lt2spatial_decay`. */
  datatype RandomTables = RandomTables(nBlocks: map<EntityType, int>, within: map<LinkType, real>,
                                       between: map<LinkType, real>, dim: map<EntityType, int>,
                                       decay: map<LinkType, real>)

  const NoRandomLinks: RandomTables := RandomTables(map[], map[], map[], map[], map[])

  const UNDECLARED: string := "some entity or the relationship or action type was not declared"

  predicate IsProbability(p: real) {
    0.0 <= p <= 1.0
  }

  /** What the random-link tables promise the block and geometric models:
   *  probabilities lie in [0, 1] and come in within/between pairs, every
   *  entity type of a block-model link type has at least one block, and
   *  dimensions and decays are positive. */
  predicate RandomTablesOk(rt: RandomTables) {
    && rt.within.Keys == rt.between.Keys
    && (forall lt :: lt in rt.within ==> IsProbability(rt.within[lt]) && IsProbability(rt.between[lt]))
    && (forall lt :: lt in rt.within ==> lt.et1 in rt.nBlocks && lt.et3 in rt.nBlocks)
    && (forall et :: et in rt.nBlocks ==> rt.nBlocks[et] >= 1)
    && (forall lt :: lt in rt.decay ==> rt.decay[lt] > 0.0 && lt.et1 in rt.dim && lt.et3 in rt.dim)
    && (forall et :: et in rt.dim ==> rt.dim[et] >= 1)
  }

  /** Every link type and entity type of `rt` keeps an entry in `rt'`. */
  predicate KeepsEntries(rt: RandomTables, rt': RandomTables) {
    && (forall lt :: lt in rt.within ==> lt in rt'.within)
    && (forall et :: et in rt.nBlocks ==> et in rt'.nBlocks)
    && (forall lt :: lt in rt.decay ==> lt in rt'.decay)
    && (forall et :: et in rt.dim ==> et in rt'.dim)
  }

  /** A block model for link type `lt`: `n` blocks of the first entity
   *  type (and, for a density, of both), with the two probabilities. */
  function WithBlockModel(rt: RandomTables, lt: LinkType, n: int, nBoth: bool, pw: real, pb: real): (r: RandomTables)
    requires n >= 1 && IsProbability(pw) && IsProbability(pb) && (nBoth || lt.et1 == lt.et3)
    ensures RandomTablesOk(rt) ==> RandomTablesOk(r)
    ensures KeepsEntries(rt, r)
    ensures lt in r.within && lt in r.between && lt.et1 in r.nBlocks && lt.et3 in r.nBlocks
    ensures r.within[lt] == pw && r.between[lt] == pb && r.nBlocks[lt.et1] == n && r.nBlocks[lt.et3] == n
  {
    var nb := if nBoth then rt.nBlocks[lt.et3 := n] else rt.nBlocks;
    rt.(nBlocks := nb[lt.et1 := n], within := rt.within[lt := pw], between := rt.between[lt := pb])
  }

  /** A geometric model for link type `lt`: both entity types get
   *  dimension `dim`. */
  function WithSpatialModel(rt: RandomTables, lt: LinkType, dim: int, dec: real): (r: RandomTables)
    requires dim >= 1 && dec > 0.0
    ensures RandomTablesOk(rt) ==> RandomTablesOk(r)
    ensures KeepsEntries(rt, r)
    ensures lt in r.decay && lt.et1 in r.dim && lt.et3 in r.dim
    ensures r.decay[lt] == dec && r.dim[lt.et1] == dim && r.dim[lt.et3] == dim
  {
    rt.(dim := rt.dim[lt.et3 := dim][lt.et1 := dim], decay := rt.decay[lt := dec])
  }

  /** One entry of `initial links: random`: a density (or probability) is
   *  a block model with one block, `blocks` a block model on one entity
   *  type (within defaulting to 1 and between to 0), `dimension` a
   *  geometric model (decay defaulting to 1), checked in that order. */
  function RandomLinkEntry(rt: RandomTables, label2et: map<string, EntityType>, label2rat: map<string, Rat>,
                           e: RandomEntry): (r: Result<RandomTables>)
    ensures RandomTablesOk(rt) && r.Ok? ==> RandomTablesOk(r.value)
    ensures r.Ok? ==> KeepsEntries(rt, r.value)
  {
    if e.et1 !in label2et || e.et3 !in label2et || e.rat !in label2rat then Err(UNDECLARED)
    else
      var lt := LinkType(label2et[e.et1], label2rat[e.rat], label2et[e.et3]);
      var s := e.spec;
      if s.density.Some? || s.probability.Some? then
        var pw := if s.density.Some? then s.density.value else s.probability.value;
        if !IsProbability(pw) then Err("'density'/'probability' must be between 0.0 and 1.0")
        else Ok(WithBlockModel(rt, lt, 1, true, pw, 0.0))
      else if s.blocks.Some? then
        if lt.et1 != lt.et3 then Err("sorry, block model for asymmetric relationship or action types not supported yet!")
        else
          var n := s.blocks.value;
          var pw := if s.within.Some? then s.within.value else 1.0;
          var pb := if s.between.Some? then s.between.value else 0.0;
          if !(n > 0) then Err("'n' must be positive")
          else if !IsProbability(pw) then Err("'within' must be between 0.0 and 1.0")
          else if !IsProbability(pb) then Err("'between' must be between 0.0 and 1.0")
          else Ok(WithBlockModel(rt, lt, n, false, pw, pb))
      else if s.dimension.Some? then
        var dim := s.dimension.value;
        var dec := if s.decay.Some? then s.decay.value else 1.0;
        if !(dim > 0) then Err("'dimension' must be positive")
        else if !(dec > 0.0) then Err("'decay' must be positive")
        else Ok(WithSpatialModel(rt, lt, dim, dec))
      else Ok(rt)
  }

  /** Out-of-range values are rejected: a density, within or between
   *  probability outside [0, 1], a non-positive number of blocks, dimension
   *  or decay. */
  lemma RandomLinkEntryRejects(rt: RandomTables, label2et: map<string, EntityType>, label2rat: map<string, Rat>,
                               e: RandomEntry)
    ensures var s := e.spec;
      var r := RandomLinkEntry(rt, label2et, label2rat, e);
      && (e.et1 !in label2et || e.et3 !in label2et || e.rat !in label2rat ==> r.Err?)
      && (s.density.Some? && !IsProbability(s.density.value) ==> r.Err?)
      && (s.density.None? && s.probability.Some? && !IsProbability(s.probability.value) ==> r.Err?)
      && (s.density.None? && s.probability.None? && s.blocks.Some? ==>
            (s.blocks.value <= 0 || (s.within.Some? && !IsProbability(s.within.value))
             || (s.between.Some? && !IsProbability(s.between.value))) ==> r.Err?)
      && (s.density.None? && s.probability.None? && s.blocks.None? && s.dimension.Some? ==>
            (s.dimension.value <= 0 || (s.decay.Some? && s.decay.value <= 0.0)) ==> r.Err?)
  {
  }

  /** The loop over `initial links: random`, in document order; the first
   *  error ends it. */
  function RandomLinksRead(rt: RandomTables, label2et: map<string, EntityType>, label2rat: map<string, Rat>,
                           es: seq<RandomEntry>): Result<RandomTables>
    decreases |es|
  {
    if es == [] then Ok(rt)
    else
      var r := RandomLinkEntry(rt, label2et, label2rat, es[0]);
      if r.Err? then r else RandomLinksRead(r.value, label2et, label2rat, es[1..])
  }

  /** Reading the random links keeps what the tables promise. */
  lemma {:induction false} RandomLinksReadOk(rt: RandomTables, label2et: map<string, EntityType>,
                                             label2rat: map<string, Rat>, es: seq<RandomEntry>)
    requires RandomTablesOk(rt)
    decreases |es|
    ensures var r := RandomLinksRead(rt, label2et, label2rat, es);
      r.Ok? ==> RandomTablesOk(r.value)
  {
    if es != [] {
      var r := RandomLinkEntry(rt, label2et, label2rat, es[0]);
      if r.Ok? {
        RandomLinksReadOk(r.value, label2et, label2rat, es[1..]);
      }
    }
  }

  /** An entry never removes what an earlier one configured: every link
   *  type and entity type keeps an entry. */
  lemma {:induction false} RandomLinksReadKeeps(rt: RandomTables, label2et: map<string, EntityType>,
                                                label2rat: map<string, Rat>, es: seq<RandomEntry>)
    decreases |es|
    ensures var r := RandomLinksRead(rt, label2et, label2rat, es);
      r.Ok? ==> KeepsEntries(rt, r.value)
  {
    if es != [] {
      var r := RandomLinkEntry(rt, label2et, label2rat, es[0]);
      if r.Ok? {
        RandomLinksReadKeeps(r.value, label2et, label2rat, es[1..]);
      }
    }
  }

  /** The `initial links: random` section. */
  method ReadRandomLinks(label2et: map<string, EntityType>, label2rat: map<string, Rat>, es: seq<RandomEntry>)
    returns (r: Result<RandomTables>)
    ensures r == RandomLinksRead(NoRandomLinks, label2et, label2rat, es)
    ensures r.Ok? ==> RandomTablesOk(r.value)
  {
    var rt := NoRandomLinks;
    RandomLinksReadOk(rt, label2et, label2rat, es);
    for k := 0 to |es|
      invariant RandomLinksRead(NoRandomLinks, label2et, label2rat, es) == RandomLinksRead(rt, label2et, label2rat, es[k..])
    {
      assert es[k..][0] == es[k] && es[k..][1..] == es[k + 1..];
      var next := RandomLinkEntry(rt, label2et, label2rat, es[k]);
      if next.Err? {
        return next;
      }
      rt := next.value;
    }
    assert es[|es|..] == [];
    r := Ok(rt);
  }

  // ---------------------------------------------------------------------
  // Named initial links

  /** One entry of `initial links: named`: entity, relationship type and
   *  entity, by label. */
  datatype NamedLink = NamedLink(e1: string, rat: string, e3: string)

  /** All three labels are declared. */
  predicate Declared(label2e: map<string, Entity>, label2rat: map<string, Rat>, n: NamedLink) {
    n.e1 in label2e && n.e3 in label2e && n.rat in label2rat
  }

  /** The link an entry with declared labels names. */
  function Resolved(label2e: map<string, Entity>, label2rat: map<string, Rat>, n: NamedLink): Link
    requires Declared(label2e, label2rat, n)
  {
    Link(label2e[n.e1], label2rat[n.rat], label2e[n.e3])
  }

  /** The `initial links: named` section: it fails exactly when some entry
   *  names an undeclared entity or type, and otherwise yields the set of
   *  the links the entries name. */
  method ReadNamedLinks(label2e: map<string, Entity>, label2rat: map<string, Rat>, ns: seq<NamedLink>)
    returns (r: Result<set<Link>>)
    ensures r.Ok? <==> forall k :: 0 <= k < |ns| ==> Declared(label2e, label2rat, ns[k])
    ensures r.Err? ==> r.msg == UNDECLARED
    ensures r.Ok? ==> forall l :: l in r.value <==>
                        exists k :: 0 <= k < |ns| && Declared(label2e, label2rat, ns[k]) && Resolved(label2e, label2rat, ns[k]) == l
  {
    var links: set<Link> := {};
    for k := 0 to |ns|
      invariant forall j :: 0 <= j < k ==> Declared(label2e, label2rat, ns[j])
      invariant forall l :: l in links <==>
                  exists j :: 0 <= j < k && Declared(label2e, label2rat, ns[j]) && Resolved(label2e, label2rat, ns[j]) == l
    {
      if !Declared(label2e, label2rat, ns[k]) {
        return Err(UNDECLARED);
      }
      links := links + {Resolved(label2e, label2rat, ns[k])};
    }
    r := Ok(links);
  }

  // ---------------------------------------------------------------------
  // Metaparameters

  /** `MAX_N_TE_VARS`, the capacity of the metaparameter table. */
  const MAX_N_TE_VARS: nat := 1000

  /** `std::numeric_limits<double>::epsilon()`, 2 to the power -52. */
  const EPSILON: real := 1.0 / 4503599627370496.0

  /** The names of the five variables every expression may use. */
  const BUILTIN_NAMES: seq<string> := ["inf", "infty", "infinity", "eps", "epsilon"]

  /** The values stored for them in `te_vals[0..4]`. */
  const BUILTIN_VALUES: seq<Ext> := [PosInf, PosInf, PosInf, Fin(EPSILON), Fin(EPSILON)]

  /** The slot of `te_vals` each built-in variable refers to, as written:
   *  all five refer to slot 0. */
  const BUILTIN_SLOTS_AS_WRITTEN: seq<nat> := [0, 0, 0, 0, 0]

  /** The slots as evidently intended: variable i refers to slot i. */
  const BUILTIN_SLOTS: seq<nat> := [0, 1, 2, 3, 4]

  /** The first variable named `name`, as tinyexpr looks it up. */
  function FirstNamed(names: seq<string>, name: string): (r: Option<nat>)
    ensures r.Some? ==> r.value < |names| && names[r.value] == name
                        && forall j :: 0 <= j < r.value ==> names[j] != name
    ensures r.None? ==> name !in names
  {
    if names == [] then None
    else if names[0] == name then Some(0)
    else
      var r := FirstNamed(names[1..], name);
      if r.None? then None else Some(r.value + 1)
  }

  /** The value an expression reads for `name`: the slot of the first
   *  variable so named. */
  function LookupIn(names: seq<string>, slots: seq<nat>, vals: seq<Ext>, name: string): Option<Ext>
    requires |slots| == |names| && forall i :: 0 <= i < |slots| ==> slots[i] < |vals|
  {
    var i := FirstNamed(names, name);
    if i.None? then None else Some(vals[slots[i.value]])
  }

  /** As written, `eps` and `epsilon` read as infinity rather than the
   *  machine epsilon. */
  lemma EpsilonAsWritten()
    ensures LookupIn(BUILTIN_NAMES, BUILTIN_SLOTS_AS_WRITTEN, BUILTIN_VALUES, "eps") == Some(PosInf)
    ensures LookupIn(BUILTIN_NAMES, BUILTIN_SLOTS_AS_WRITTEN, BUILTIN_VALUES, "epsilon") == Some(PosInf)
  {
    assert FirstNamed(BUILTIN_NAMES, "eps") == Some(3);
    assert FirstNamed(BUILTIN_NAMES, "epsilon") == Some(4);
  }

  /** With the intended slots every built-in variable reads its own value:
   *  the three infinities are infinite and both epsilons are 2^-52. */
  lemma BuiltinsRead()
    ensures forall i :: 0 <= i < 5 ==> LookupIn(BUILTIN_NAMES, BUILTIN_SLOTS, BUILTIN_VALUES, BUILTIN_NAMES[i]) == Some(BUILTIN_VALUES[i])
  {
    assert FirstNamed(BUILTIN_NAMES, "inf") == Some(0);
    assert FirstNamed(BUILTIN_NAMES, "infty") == Some(1);
    assert FirstNamed(BUILTIN_NAMES, "infinity") == Some(2);
    assert FirstNamed(BUILTIN_NAMES, "eps") == Some(3);
    assert FirstNamed(BUILTIN_NAMES, "epsilon") == Some(4);
  }

  /** The arrays `te_vars` (a name and a slot of `te_vals` each), `te_vals`
   *  and the counter `n_te_vars`. */
  class Metaparameters {
    var names: array<string>
    var slots: array<nat>
    var vals: array<Ext>
    var n: nat

    ghost predicate Valid()
      reads this, names, slots, vals
    {
      && names.Length == MAX_N_TE_VARS && slots.Length == MAX_N_TE_VARS && vals.Length == MAX_N_TE_VARS
      && n <= MAX_N_TE_VARS
      && forall i :: 0 <= i < n ==> slots[i] == i
    }

    /** The value an expression reads for `name`. */
    function Lookup(name: string): Option<Ext>
      reads this, names, slots, vals
      requires Valid()
    {
      LookupIn(names[..n], slots[..n], vals[..], name)
    }

    /** The built-in variables registered before the metaparameters, with
     *  the intended slots; `te_vals` is otherwise zero. */
    constructor ()
      ensures Valid() && fresh(names) && fresh(slots) && fresh(vals)
      ensures n == 5 && names[..n] == BUILTIN_NAMES && slots[..n] == BUILTIN_SLOTS
      ensures vals[..n] == BUILTIN_VALUES
    {
      var ns := new string[MAX_N_TE_VARS](_ => "");
      var ss := new nat[MAX_N_TE_VARS](_ => 0);
      var vs := new Ext[MAX_N_TE_VARS](_ => Zero);
      for i := 0 to 5
        invariant forall j :: 0 <= j < i ==> ns[j] == BUILTIN_NAMES[j] && ss[j] == j && vs[j] == BUILTIN_VALUES[j]
      {
        ns[i], ss[i], vs[i] := BUILTIN_NAMES[i], i, BUILTIN_VALUES[i];
      }
      names, slots, vals := ns, ss, vs;
      n := 5;
    }

    /** `register_te_var`: fails once the table is full; otherwise appends
     *  the variable in the next slot. An expression then reads the new
     *  value under `symbol`, unless an earlier variable has that name, and
     *  reads every other name as before. */
    method Register(symbol: string, value: Ext) returns (ok: bool)
      requires Valid()
      modifies this, names, slots, vals
      ensures Valid() && names == old(names) && slots == old(slots) && vals == old(vals)
      ensures ok <==> old(n) < MAX_N_TE_VARS
      ensures ok ==> n == old(n) + 1 && names[..n] == old(names[..n]) + [symbol]
      ensures !ok ==> n == old(n) && unchanged(names, slots, vals)
      ensures ok ==> Lookup(symbol) == (if old(Lookup(symbol)).Some? then old(Lookup(symbol)) else Some(value))
      ensures ok ==> forall name :: name != symbol ==> Lookup(name) == old(Lookup(name))
    {
      if n >= MAX_N_TE_VARS {
        return false;
      }
      ghost var ns, ss, vs := names[..n], slots[..n], vals[..];
      names[n], slots[n], vals[n] := symbol, n, value;
      n := n + 1;
      assert names[..n] == ns + [symbol] && slots[..n] == ss + [n - 1] && vals[..] == vs[n - 1 := value];
      forall name ensures Lookup(name) == (if name == symbol && LookupIn(ns, ss, vs, name).None? then Some(value) else LookupIn(ns, ss, vs, name)) {
        LookupAppend(ns, ss, vs, symbol, value, name);
      }
      ok := true;
    }
  }

  /** Appending a variable in a fresh slot changes only what its name
   *  reads, and only when no earlier variable has that name. */
  lemma LookupAppend(names: seq<string>, slots: seq<nat>, vals: seq<Ext>, symbol: string, value: Ext, name: string)
    requires |slots| == |names| && |names| < |vals| && forall i :: 0 <= i < |slots| ==> slots[i] == i
    ensures LookupIn(names + [symbol], slots + [|names|], vals[|names| := value], name)
      == (if name == symbol && LookupIn(names, slots, vals, name).None? then Some(value) else LookupIn(names, slots, vals, name))
  {
    FirstNamedAppend(names, symbol, name);
  }

  lemma FirstNamedAppend(names: seq<string>, symbol: string, name: string)
    ensures FirstNamed(names + [symbol], name)
      == (if FirstNamed(names, name).Some? then FirstNamed(names, name) else if symbol == name then Some(|names|) else None)
  {
    var i := FirstNamed(names, name);
    if i.Some? {
      assert (names + [symbol])[i.value] == name;
    } else if symbol == name {
      assert (names + [symbol])[|names|] == name;
    } else {
      assert names + [symbol] == names + [symbol];
    }
  }
}
