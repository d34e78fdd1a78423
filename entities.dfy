/** Entities: creating one with the next free id, and picking one of a type
 *  at random. */
module Entities {
  import opened Wrappers
  import opened ExtReal
  import opened DataModel
  import opened State

  // ---------------------------------------------------------------------
  // Decimal labels (`to_string` of a non-negative id)

  function DigitChar(d: nat): (c: char)
    requires d < 10
    ensures '0' <= c <= '9'
  {
    ['0', '1', '2', '3', '4', '5', '6', '7', '8', '9'][d]
  }

  function DigitValue(c: char): nat
    requires '0' <= c <= '9'
  {
    c as nat - '0' as nat
  }

  lemma DigitRoundTrip(d: nat)
    requires d < 10
    ensures DigitValue(DigitChar(d)) == d
  {
  }

  /** The decimal representation: no leading zero, digits only. */
  function Decimal(n: nat): (s: string)
    ensures |s| >= 1 && (forall k :: 0 <= k < |s| ==> '0' <= s[k] <= '9')
    ensures |s| > 1 ==> s[0] != '0'
  {
    if n < 10 then [DigitChar(n)] else Decimal(n / 10) + [DigitChar(n % 10)]
  }

  /** Reading a string of digits as a number. */
  function ParseDecimal(s: string): nat
    requires forall k :: 0 <= k < |s| ==> '0' <= s[k] <= '9'
  {
    if s == [] then 0 else 10 * ParseDecimal(s[..|s| - 1]) + DigitValue(s[|s| - 1])
  }

  /** Reading a label back gives the id. */
  lemma {:induction false} DecimalRoundTrip(n: nat)
    ensures ParseDecimal(Decimal(n)) == n
  {
    var s := Decimal(n);
    if n < 10 {
      DigitRoundTrip(n);
      assert s[..0] == [];
    } else {
      DecimalRoundTrip(n / 10);
      DigitRoundTrip(n % 10);
      assert s[..|s| - 1] == Decimal(n / 10);
    }
  }

  /** Distinct ids get distinct labels. */
  lemma DecimalInjective(a: nat, b: nat)
    requires Decimal(a) == Decimal(b)
    ensures a == b
  {
    DecimalRoundTrip(a);
    DecimalRoundTrip(b);
  }

  // ---------------------------------------------------------------------
  // add_entity

  /** A fresh entity with no legs anywhere can get its identity legs
   *  without disturbing the mirror. */
  lemma FreshEntityKeepsMirror(outs: map<Entity, seq<OutLeg>>, ins: map<Entity, seq<InLeg>>, es: set<Entity>, e: Entity)
    requires Mirrored(outs, ins) && e !in es
    requires forall x :: x in outs ==> x in es
    requires forall x :: x in ins ==> x in es
    ensures Mirrored(outs[e := [OutLeg(RT_ID, e)]], ins[e := [InLeg(e, RT_ID)]])
  {
    var outs', ins' := outs[e := [OutLeg(RT_ID, e)]], ins[e := [InLeg(e, RT_ID)]];
    forall e1: Entity, r: Rat, e3: Entity
      ensures MirroredAt(outs', ins', e1, r, e3)
    {
      if e1 != e && e3 != e {
        assert MirroredAt(outs, ins, e1, r, e3);
      } else if e1 == e && e3 != e {
        assert OutsOf(outs, e1) == [];
        assert MirroredAt(outs, ins, e1, r, e3);
      } else if e1 != e {
        assert InsOf(ins, e3) == [];
        assert MirroredAt(outs, ins, e1, r, e3);
      }
    }
  }

  /** The state after `add_entity(et)`: the entity `maxE + 1` gets type
   *  `et`, the end of the type's entity list, its decimal id as label, and
   *  exactly the identity leg in each of its leg sets. */
  function WithEntity(g: Globals, et: EntityType): (g': Globals)
    requires g.maxE >= -1
  {
    var e := g.maxE + 1;
    g.(maxE := e, es := g.es + {e}, e2et := g.e2et[e := et],
       et2es := g.et2es[et := (if et in g.et2es then g.et2es[et] else []) + [e]],
       e2label := g.e2label[e := Decimal(e)],
       e2outs := g.e2outs[e := [OutLeg(RT_ID, e)]], e2ins := g.e2ins[e := [InLeg(e, RT_ID)]])
  }

  /** The new id was not in use and has no legs before; afterwards it is in
   *  use with exactly its identity legs, and every other entity keeps its
   *  legs. */
  lemma WithEntityFresh(g: Globals, tb: Tables, rng: Rng, et: EntityType)
    requires GlobalsOk(g, tb, rng, None)
    ensures var e := g.maxE + 1; var g' := WithEntity(g, et);
      && e >= 0 && e !in g.es && e !in g.e2outs && e !in g.e2ins
      && e in g'.es && g'.maxE == e && EtOf(g'.e2et, e) == et
      && OutsOf(g'.e2outs, e) == [OutLeg(RT_ID, e)] && InsOf(g'.e2ins, e) == [InLeg(e, RT_ID)]
      && (forall x :: x != e ==> OutsOf(g'.e2outs, x) == OutsOf(g.e2outs, x) && InsOf(g'.e2ins, x) == InsOf(g.e2ins, x))
  {
  }

  /** Adding an entity keeps the invariant. */
  lemma WithEntityOk(g: Globals, tb: Tables, rng: Rng, et: EntityType)
    requires GlobalsOk(g, tb, rng, None)
    ensures GlobalsOk(WithEntity(g, et), tb, rng, None)
  {
    var e := g.maxE + 1;
    var g' := WithEntity(g, et);
    FreshEntityKeepsMirror(g.e2outs, g.e2ins, g.es, e);
    var list := if et in g.et2es then g.et2es[et] else [];
    forall t, k | t in g'.et2es && 0 <= k < |g'.et2es[t]| ensures g'.et2es[t][k] in g'.es {
      if t == et && k < |list| { assert g'.et2es[t][k] == list[k]; }
    }
    assert EntitiesOk(g'.es, g'.maxE, g'.e2outs, g'.e2ins, g'.et2es);
    assert LegsSorted(g'.e2outs, g'.e2ins);
  }

  /** `add_entity`. */
  method AddEntity(w: World, et: EntityType) returns (e: Entity)
    requires w.Valid()
    modifies w
    ensures w.Valid() && e == old(w.g.maxE) + 1 && w.g == WithEntity(old(w.g), et)
  {
    e := w.g.maxE + 1;
    WithEntityOk(w.g, w.tb, w.rng, et);
    w.g := WithEntity(w.g, et);
  }

  // ---------------------------------------------------------------------
  // random_entity

  /** `floor(u * n)` for a draw `u` in [0, 1): the position `i` with
   *  `i <= u * n < i + 1`, always a valid index. */
  function RandomIndex(n: nat, u: real): (i: nat)
    requires n > 0 && 0.0 <= u < 1.0
    ensures i < n
    ensures i as real <= u * n as real < i as real + 1.0
  {
    var x := u * n as real;
    assert x < n as real;
    x.Floor
  }

  /** `random_entity`: the entity at position `floor(u * size)` of the type's
   *  entity list, which is always an element of that list. */
  function RandomEntity(et2es: map<EntityType, seq<Entity>>, et: EntityType, u: real): (e: Entity)
    requires et in et2es && |et2es[et]| > 0 && 0.0 <= u < 1.0
    ensures e in et2es[et]
  {
    et2es[et][RandomIndex(|et2es[et]|, u)]
  }

  /** Every position of the list is chosen by the draws in a band of width
   *  1 / size, so every entity of the type can be drawn. */
  lemma EveryEntityCanBeDrawn(s: seq<Entity>, i: nat)
    requires i < |s|
    ensures var u := i as real / |s| as real;
      0.0 <= u < 1.0 && RandomIndex(|s|, u) == i
  {
    var n := |s| as real;
    var u := i as real / n;
    assert u * n == i as real;
  }
}
