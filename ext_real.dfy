/** Doubles as TriCl uses them: timepoints, rates and probunits are finite reals
 *  or one of the two infinities (NaN is not modelled). Only addition,
 *  subtraction, `max` and comparison are needed by the modelled code. */
module ExtReal {

  datatype Ext = NegInf | Fin(v: real) | PosInf {

    /** The IEEE order `<` restricted to non-NaN doubles. */
    predicate Lt(o: Ext) {
      match this
      case NegInf => !o.NegInf?
      case Fin(a) => (o.Fin? && a < o.v) || o.PosInf?
      case PosInf => false
    }

    predicate Le(o: Ext) {
      this == o || Lt(o)
    }

    predicate IsFinite() {
      Fin?
    }

    /** `this + d` for a finite double `d`. */
    function PlusReal(d: real): (r: Ext)
      ensures r.Fin? <==> this.Fin?
    {
      match this
      case Fin(a) => Fin(a + d)
      case _ => this
    }

    /** `this - d` for a finite double `d`. */
    function MinusReal(d: real): (r: Ext)
      ensures r.Fin? <==> this.Fin?
    {
      PlusReal(-d)
    }

    /** `this + o`; the IEEE NaN of (+inf) + (-inf) is taken as -inf. */
    function Plus(o: Ext): (r: Ext)
      ensures o.Fin? ==> r == PlusReal(o.v)
      ensures this.Fin? && o.Fin? ==> r == Fin(this.v + o.v)
    {
      match (this, o)
      case (Fin(a), Fin(b)) => Fin(a + b)
      case (NegInf, _) => NegInf
      case (_, NegInf) => NegInf
      case _ => PosInf
    }

    /** `this - o`; the IEEE NaN of (+inf) - (+inf) is taken as -inf. */
    function Minus(o: Ext): (r: Ext)
      ensures this.Fin? && o.Fin? ==> r == Fin(this.v - o.v)
    {
      Plus(o.Negate())
    }

    function Negate(): Ext {
      match this
      case NegInf => PosInf
      case Fin(a) => Fin(-a)
      case PosInf => NegInf
    }
  }

  /** `std::max` of two doubles. */
  function Max(a: Ext, b: Ext): (r: Ext)
    ensures a.Le(r) && b.Le(r)
    ensures r == a || r == b
  {
    if a.Lt(b) then b else a
  }

  const Zero: Ext := Fin(0.0)

  /** `x / r` for a non-negative double `x` and a rate `r`: zero for an
   *  infinite rate, infinite for a zero rate (0/0 is taken as +inf). */
  function DivBy(x: real, r: Ext): (q: Ext)
    ensures x >= 0.0 ==> Zero.Le(q)
    ensures r.Fin? && r.v > 0.0 ==> q == Fin(x / r.v)
    ensures r == PosInf ==> q == Zero
  {
    match r
    case PosInf => Zero
    case Fin(v) => if v > 0.0 then Fin(x / v) else PosInf
    case NegInf => PosInf
  }

  lemma LtIsStrictTotalOrder(a: Ext, b: Ext, c: Ext)
    ensures !a.Lt(a)
    ensures a.Lt(b) && b.Lt(c) ==> a.Lt(c)
    ensures a.Lt(b) || a == b || b.Lt(a)
    ensures !(a.Lt(b) && b.Lt(a))
  {
  }

  /** Sums of non-negative doubles stay non-negative, and adding a finite
   *  double keeps a value above minus infinity. */
  lemma PlusBounds(a: Ext, d: Ext)
    ensures Zero.Le(a) && Zero.Le(d) ==> Zero.Le(a.Plus(d))
    ensures a != NegInf && d.Fin? ==> a.Plus(d) != NegInf
  {
  }

  /** The smallest element of a non-empty set of times exists. */
  lemma {:induction false} MinExists(s: set<Ext>)
    requires s != {}
    ensures exists m :: m in s && forall u :: u in s ==> m.Le(u)
    decreases |s|
  {
    var x :| x in s;
    var r := s - {x};
    if r == {} {
      forall u | u in s
        ensures u == x
      {
        assert u !in r;
      }
      assert x in s && forall u :: u in s ==> x.Le(u);
    } else {
      MinExists(r);
      var m :| m in r && forall u :: u in r ==> m.Le(u);
      var w := if x.Lt(m) then x else m;
      forall u | u in s
        ensures w.Le(u)
      {
        if u != x {
          assert u in r && m.Le(u);
          LtIsStrictTotalOrder(x, m, u);
        } else {
          LtIsStrictTotalOrder(x, m, x);
        }
      }
      assert w in s;
    }
  }

  /** The earliest of a non-empty set of times (MinKeyIsLeast says that it
   *  is the earliest). */
  ghost function MinKey(s: set<Ext>): (m: Ext)
    requires s != {}
    ensures m in s
  {
    MinExists(s);
    var m :| m in s && forall u :: u in s ==> m.Le(u);
    m
  }

  lemma MinKeyIsLeast(s: set<Ext>)
    requires s != {}
    ensures forall u :: u in s ==> MinKey(s).Le(u)
  {
  }

  /** The earliest time is unique. */
  lemma MinKeyUnique(s: set<Ext>, m: Ext)
    requires m in s && forall u :: u in s ==> m.Le(u)
    ensures MinKey(s) == m
  {
    MinKeyIsLeast(s);
    LtIsStrictTotalOrder(MinKey(s), m, m);
  }
}
