/** Unsigned integer bit operations on naturals: `<<` as multiplication by a
 *  power of two and `^` bit by bit. The hashes of the data model pack several
 *  ids into disjoint bit ranges, and these lemmas say that XOR of disjoint
 *  ranges is addition and that division and remainder unpack the fields. */
module Bits {

  function Pow2(k: nat): (r: nat)
    ensures r >= 1
  {
    if k == 0 then 1 else 2 * Pow2(k - 1)
  }

  /** The powers of two that the data model's bit widths produce. */
  lemma Pow2Values()
    ensures Pow2(2) == 4 && Pow2(4) == 16 && Pow2(8) == 256 && Pow2(10) == 1024
    ensures Pow2(16) == 65536 && Pow2(20) == 1048576 && Pow2(22) == 4194304
    ensures Pow2(24) == 16777216 && Pow2(26) == 67108864
    ensures Pow2(31) == 2147483648 && Pow2(32) == 4294967296
  {
    assert Pow2(1) == 2;
    Pow2Add(1, 1);
    Pow2Add(2, 2);
    Pow2Add(4, 4);
    Pow2Add(8, 2);
    Pow2Add(8, 8);
    Pow2Add(16, 4);
    Pow2Add(20, 2);
    Pow2Add(16, 8);
    Pow2Add(24, 2);
    Pow2Add(16, 16);
    assert Pow2(32) == 2 * Pow2(31);
  }

  /** A value below `p` is its own remainder. */
  lemma ModBelow(x: nat, p: nat)
    requires x < p
    ensures x % p == x
  {
    Unpack(x, 0, p);
  }

  /** `a << k` on an unsigned integer wide enough to hold the result. */
  function Shl(a: nat, k: nat): nat {
    a * Pow2(k)
  }

  /** Bitwise exclusive or. */
  function Xor(a: nat, b: nat): nat
    decreases a + b
  {
    if a == 0 then b
    else if b == 0 then a
    else (if a % 2 == b % 2 then 0 else 1) + 2 * Xor(a / 2, b / 2)
  }

  lemma {:induction false} Pow2Add(a: nat, b: nat)
    ensures Pow2(a + b) == Pow2(a) * Pow2(b)
  {
    if a > 0 {
      Pow2Add(a - 1, b);
      assert Pow2(a + b) == 2 * Pow2(a - 1 + b);
    }
  }

  lemma {:induction false} Pow2Monotone(a: nat, b: nat)
    requires a <= b
    ensures Pow2(a) <= Pow2(b)
  {
    Pow2Add(a, b - a);
    MulAtLeast(Pow2(b - a), Pow2(a));
  }

  lemma MulAtLeast(x: nat, p: nat)
    requires x >= 1
    ensures x * p >= p
  {
  }

  /** XOR of a value below `2^k` with a value shifted by `k` bits is their sum:
   *  the two operands have no set bit in common. */
  lemma {:induction false} XorDisjoint(a: nat, b: nat, k: nat)
    requires a < Pow2(k)
    ensures Xor(a, Shl(b, k)) == a + Shl(b, k)
  {
    if k == 0 || a == 0 || b == 0 {
    } else {
      var big := Shl(b, k);
      assert big == 2 * Shl(b, k - 1) by {
        assert Pow2(k) == 2 * Pow2(k - 1);
      }
      assert big % 2 == 0 && big / 2 == Shl(b, k - 1);
      assert a / 2 < Pow2(k - 1);
      XorDisjoint(a / 2, b, k - 1);
    }
  }

  /** A field `f` of `w` bits placed above a value `x` of `off` bits leaves a
   *  value of `off + w` bits. */
  lemma PackBound(x: nat, f: nat, off: nat, w: nat)
    requires x < Pow2(off) && f < Pow2(w)
    ensures x + Shl(f, off) < Pow2(off + w)
  {
    var p, q := Pow2(off), Pow2(w);
    Pow2Add(off, w);
    assert Pow2(off + w) == p * q;
    MulMonotone(f, q - 1, p);
    Distribute(q, p);
    assert Shl(f, off) == f * p;
  }

  lemma Distribute(q: nat, p: nat)
    requires q >= 1
    ensures (q - 1) * p == q * p - p
  {
  }

  lemma MulMonotone(a: nat, b: nat, p: nat)
    requires a <= b
    ensures a * p <= b * p
  {
    assert b * p - a * p == (b - a) * p;
  }

  /** Division and remainder by `p` recover the two halves of `x + f * p`. */
  lemma Unpack(x: nat, f: nat, p: nat)
    requires x < p
    ensures (x + f * p) % p == x && (x + f * p) / p == f
  {
    var n := x + f * p;
    var q, r := n / p, n % p;
    assert (q - f) * p == x - r;
    if q > f {
      MulAtLeast(q - f, p);
    } else if q < f {
      MulAtLeast(f - q, p);
    }
  }

  /** `x % q` is unchanged by adding a multiple of `q`. */
  lemma ModAddMultiple(x: nat, c: nat, q: nat)
    requires q >= 1
    ensures (x + c * q) % q == x % q
  {
    var a, b := x / q, x % q;
    assert x + c * q == b + (a + c) * q;
    Unpack(b, a + c, q);
  }

  lemma ModDropHigh(x: nat, f: nat, q: nat, r: nat)
    requires q >= 1
    ensures (x + f * (q * r)) % q == x % q
  {
    assert f * (q * r) == (f * r) * q;
    ModAddMultiple(x, f * r, q);
  }

  /** Total width of consecutive bit fields. */
  function Sum(w: seq<nat>): nat {
    if w == [] then 0 else Sum(w[..|w| - 1]) + w[|w| - 1]
  }

  lemma SumPrefixStep(w: seq<nat>, k: nat)
    requires k < |w|
    ensures Sum(w[..k + 1]) == Sum(w[..k]) + w[k]
  {
    assert w[..k + 1][..k] == w[..k];
  }

  /** The hash shape used throughout the data model:
   *  `f[0] ^ (f[1] << w[0]) ^ (f[2] << (w[0] + w[1])) ^ ...`, evaluated left to
   *  right on unsigned integers, each field shifted by the total width of the
   *  fields before it. */
  function Pack(f: seq<nat>, w: seq<nat>): nat
    requires |f| == |w|
  {
    if f == [] then 0
    else
      var n := |f| - 1;
      Xor(Pack(f[..n], w[..n]), Shl(f[n], Sum(w[..n])))
  }

  /** Every field lies within its declared width. */
  predicate Fits(f: seq<nat>, w: seq<nat>) {
    |f| == |w| && forall k :: 0 <= k < |f| ==> f[k] < Pow2(w[k])
  }

  /** Bits `Sum(w[..k])` up to (excluding) `Sum(w[..k+1])` of `h`. */
  function Field(h: nat, w: seq<nat>, k: nat): nat
    requires k < |w|
  {
    (h % Pow2(Sum(w[..k + 1]))) / Pow2(Sum(w[..k]))
  }

  lemma {:induction false} SumPrefixMonotone(w: seq<nat>, j: nat, n: nat)
    requires j <= n <= |w|
    ensures Sum(w[..j]) <= Sum(w[..n])
    decreases n
  {
    if j < n {
      assert w[..n][..n - 1] == w[..n - 1];
      SumPrefixMonotone(w, j, n - 1);
    }
  }

  /** Splitting off the last field: packing is the sum of the fields below
   *  and the last one shifted above them. */
  lemma {:induction false} PackLast(f: seq<nat>, w: seq<nat>)
    requires Fits(f, w) && |f| > 0
    ensures Fits(f[..|f| - 1], w[..|w| - 1])
    ensures Pack(f[..|f| - 1], w[..|w| - 1]) < Pow2(Sum(w[..|w| - 1]))
    ensures Pack(f, w) == Pack(f[..|f| - 1], w[..|w| - 1]) + Shl(f[|f| - 1], Sum(w[..|w| - 1]))
  {
    var n := |f| - 1;
    PackBelow(f[..n], w[..n]);
    XorDisjoint(Pack(f[..n], w[..n]), f[n], Sum(w[..n]));
  }

  /** Packed fields that fit stay below two to the total width. */
  lemma {:induction false} PackBelow(f: seq<nat>, w: seq<nat>)
    requires Fits(f, w)
    ensures Pack(f, w) < Pow2(Sum(w))
    decreases |f|
  {
    if f != [] {
      var n := |f| - 1;
      assert Fits(f[..n], w[..n]);
      PackBelow(f[..n], w[..n]);
      XorDisjoint(Pack(f[..n], w[..n]), f[n], Sum(w[..n]));
      PackBound(Pack(f[..n], w[..n]), f[n], Sum(w[..n]), w[n]);
    }
  }

  /** Reducing a packing modulo two to the total width keeps it. */
  lemma PackModTotal(f: seq<nat>, w: seq<nat>)
    requires Fits(f, w)
    ensures Pack(f, w) % Pow2(Sum(w)) == Pack(f, w)
  {
    PackBelow(f, w);
    Unpack(Pack(f, w), 0, Pow2(Sum(w)));
  }

  /** The low `Sum(w[..j])` bits of a packing are the packing of the first `j` fields. */
  lemma {:induction false} PackPrefix(f: seq<nat>, w: seq<nat>, j: nat)
    requires Fits(f, w) && j <= |f|
    ensures Pack(f, w) % Pow2(Sum(w[..j])) == Pack(f[..j], w[..j])
    decreases |f|
  {
    if j == |f| {
      assert f[..j] == f && w[..j] == w;
      PackModTotal(f, w);
    } else {
      var n := |f| - 1;
      var x := Pack(f[..n], w[..n]);
      var a, b := Sum(w[..j]), Sum(w[..n]);
      var hi := Shl(f[n], b);
      assert Pack(f, w) == x + hi by { PackLast(f, w); }
      SumPrefixMonotone(w, j, n);
      assert (x + hi) % Pow2(a) == x % Pow2(a) by { DropTop(x, f[n], a, b); }
      assert x % Pow2(a) == Pack(f[..j], w[..j]) by {
        PackPrefix(f[..n], w[..n], j);
        assert f[..n][..j] == f[..j] && w[..n][..j] == w[..j];
      }
    }
  }

  /** Bits from position b upwards do not affect the low a <= b bits. */
  lemma DropTop(x: nat, top: nat, a: nat, b: nat)
    requires a <= b
    ensures (x + top * Pow2(b)) % Pow2(a) == x % Pow2(a)
  {
    Pow2Add(a, b - a);
    ModDropHigh(x, top, Pow2(a), Pow2(b - a));
  }

  /** Unpacking recovers every field. */
  lemma PackFieldAt(f: seq<nat>, w: seq<nat>, k: nat)
    requires Fits(f, w) && k < |f|
    ensures Field(Pack(f, w), w, k) == f[k]
  {
    var g, v := f[..k + 1], w[..k + 1];
    var x, q := Pack(f[..k], w[..k]), Pow2(Sum(w[..k]));
    assert Pack(f, w) % Pow2(Sum(v)) == x + f[k] * q && x < q by {
      PackPrefix(f, w, k + 1);
      assert g[..|g| - 1] == f[..k] && v[..|v| - 1] == w[..k] && g[|g| - 1] == f[k];
      PackLast(g, v);
    }
    Unpack(x, f[k], q);
  }

  /** Fields packed within 64 bits are unchanged by the reduction to
   *  `size_t`, and every one of them can be read back. */
  lemma PackedFields(f: seq<nat>, w: seq<nat>)
    requires Fits(f, w) && Sum(w) <= 64
    ensures Pack(f, w) < Pow2(Sum(w)) && Pack(f, w) % Pow2(64) == Pack(f, w)
    ensures forall k :: 0 <= k < |f| ==> Field(Pack(f, w), w, k) == f[k]
  {
    PackBelow(f, w);
    Pow2Monotone(Sum(w), 64);
    ModBelow(Pack(f, w), Pow2(64));
    forall k | 0 <= k < |f|
      ensures Field(Pack(f, w), w, k) == f[k]
    {
      PackFieldAt(f, w, k);
    }
  }

  /** `PackedFields` for four fields, stated field by field. */
  lemma PackedFields4(a: nat, b: nat, c: nat, d: nat, w: seq<nat>)
    requires |w| == 4 && a < Pow2(w[0]) && b < Pow2(w[1]) && c < Pow2(w[2]) && d < Pow2(w[3])
    requires Sum(w) <= 64
    ensures var h := Pack([a, b, c, d], w);
      && h < Pow2(Sum(w)) && h % Pow2(64) == h
      && Field(h, w, 0) == a && Field(h, w, 1) == b && Field(h, w, 2) == c && Field(h, w, 3) == d
  {
    var f := [a, b, c, d];
    assert Fits(f, w);
    PackedFields(f, w);
    assert f[0] == a && f[1] == b && f[2] == c && f[3] == d;
  }

  /** `PackedFields` for three fields. */
  lemma PackedFields3(a: nat, b: nat, c: nat, w: seq<nat>)
    requires |w| == 3 && a < Pow2(w[0]) && b < Pow2(w[1]) && c < Pow2(w[2]) && Sum(w) <= 64
    ensures var h := Pack([a, b, c], w);
      && h < Pow2(Sum(w)) && h % Pow2(64) == h
      && Field(h, w, 0) == a && Field(h, w, 1) == b && Field(h, w, 2) == c
  {
    var f := [a, b, c];
    assert Fits(f, w);
    PackedFields(f, w);
    assert f[0] == a && f[1] == b && f[2] == c;
  }

  /** `PackedFields` for two fields. */
  lemma PackedFields2(a: nat, b: nat, w: seq<nat>)
    requires |w| == 2 && a < Pow2(w[0]) && b < Pow2(w[1]) && Sum(w) <= 64
    ensures var h := Pack([a, b], w);
      && h < Pow2(Sum(w)) && h % Pow2(64) == h && Field(h, w, 0) == a && Field(h, w, 1) == b
  {
    var f := [a, b];
    assert Fits(f, w);
    PackedFields(f, w);
    assert f[0] == a && f[1] == b;
  }

  /** Packing within the field widths is injective. */
  lemma PackInjective(f: seq<nat>, g: seq<nat>, w: seq<nat>)
    requires Fits(f, w) && Fits(g, w) && Pack(f, w) == Pack(g, w)
    ensures f == g
  {
    forall k | 0 <= k < |f|
      ensures f[k] == g[k]
    {
      PackFieldAt(f, w, k);
      PackFieldAt(g, w, k);
    }
  }
}
