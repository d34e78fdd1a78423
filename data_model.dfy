/** The keys of TriCl's data model (src/data_model.h): entities, links, legs,
 *  events, angles and their types, the per-event mutable data, and the
 *  bit-packed hashes that turn keys into integers. */
module DataModel {
  import opened Bits
  import opened ExtReal
  import opened Wrappers

  const E_BITS: nat := 20
  const ET_BITS: nat := 4
  const RAT_BITS: nat := 4

  /** `(1 << E_BITS) - 1` */
  const MAX_N_E: int := 1048575

  /** Missing relationship type; marks the absent side of a leg in an angle type. */
  const NO_RAT: nat := 0
  /** The identity relationship "=", which every entity has to itself. */
  const RT_ID: nat := 1

  /** Actual entities are ids >= 0; summary events hold negated entity types. */
  type Entity = int
  /** Entity types are >= 1 so that their negation is a negative entity. */
  type EntityType = nat
  type Rat = nat

  datatype Link = Link(e1: Entity, rat13: Rat, e3: Entity)

  /** `operator<` of `link`. */
  predicate LinkLess(a: Link, b: Link) {
    a.e1 < b.e1
    || (a.e1 == b.e1 && a.rat13 < b.rat13)
    || (a.e1 == b.e1 && a.rat13 == b.rat13 && a.e3 < b.e3)
  }

  datatype LinkType = LinkType(et1: EntityType, rat13: Rat, et3: EntityType)

  datatype EventClass = EC_EST | EC_TERM | EC_ACT

  /** The enumerator values of `event_class`. */
  function EcCode(ec: EventClass): (c: nat)
    ensures c < 3
  {
    match ec
    case EC_EST => 0
    case EC_TERM => 1
    case EC_ACT => 2
  }

  function EcOf(c: nat): (r: Option<EventClass>)
    ensures r.Some? <==> c < 3
    ensures r.Some? ==> EcCode(r.value) == c
  {
    if c == 0 then Some(EC_EST)
    else if c == 1 then Some(EC_TERM)
    else if c == 2 then Some(EC_ACT)
    else None
  }

  datatype Event = Event(ec: EventClass, e1: Entity, rat13: Rat, e3: Entity)

  datatype EventType = EventType(ec: EventClass, et1: EntityType, rat13: Rat, et3: EntityType)

  /** The mutable data of a stored event. */
  datatype EventData = EventData(nAngles: int, attemptRate: Ext, successProbunits: Ext, t: Ext)

  /** A value-initialised `event_data` (what `ev2data[ev]` creates for a
   *  missing key): no angles, zero rate and probunits, and t = -inf. */
  const DefaultEventData: EventData := EventData(0, Zero, Zero, NegInf)

  datatype InLeg = InLeg(eOther: Entity, ratIn: Rat)
  datatype OutLeg = OutLeg(ratOut: Rat, eOther: Entity)

  /** `operator<` of `inleg`: lexicographic with the other entity leading. */
  predicate InLegLess(a: InLeg, b: InLeg) {
    a.eOther < b.eOther || (a.eOther == b.eOther && a.ratIn < b.ratIn)
  }

  /** `operator<` of `outleg`: lexicographic with the other entity leading. */
  predicate OutLegLess(a: OutLeg, b: OutLeg) {
    a.eOther < b.eOther || (a.eOther == b.eOther && a.ratOut < b.ratOut)
  }

  datatype Angle = Angle(rat12: Rat, e2: Entity, rat23: Rat)
  datatype AngleType = AngleType(rat12: Rat, et2: EntityType, rat23: Rat)

  /** The angle type of spontaneous (angle-free) influences. */
  const NO_ANGLE: AngleType := AngleType(NO_RAT, 0, NO_RAT)

  datatype InfluenceType = InfluenceType(evt: EventType, at: AngleType)

  // ---------------------------------------------------------------------
  // Orders

  lemma LinkLessIsStrictTotalOrder(a: Link, b: Link, c: Link)
    ensures !LinkLess(a, a)
    ensures LinkLess(a, b) && LinkLess(b, c) ==> LinkLess(a, c)
    ensures LinkLess(a, b) || a == b || LinkLess(b, a)
    ensures !(LinkLess(a, b) && LinkLess(b, a))
  {
  }

  lemma InLegLessIsStrictTotalOrder(a: InLeg, b: InLeg, c: InLeg)
    ensures !InLegLess(a, a)
    ensures InLegLess(a, b) && InLegLess(b, c) ==> InLegLess(a, c)
    ensures InLegLess(a, b) || a == b || InLegLess(b, a)
    ensures InLegLess(a, b) ==> a.eOther <= b.eOther
  {
  }

  lemma OutLegLessIsStrictTotalOrder(a: OutLeg, b: OutLeg, c: OutLeg)
    ensures !OutLegLess(a, a)
    ensures OutLegLess(a, b) && OutLegLess(b, c) ==> OutLegLess(a, c)
    ensures OutLegLess(a, b) || a == b || OutLegLess(b, a)
    ensures OutLegLess(a, b) ==> a.eOther <= b.eOther
  {
  }

  /** A `std::set<inleg>` iterates in strictly increasing order. */
  predicate InLegsSorted(s: seq<InLeg>) {
    forall i, j :: 0 <= i < j < |s| ==> InLegLess(s[i], s[j])
  }

  /** A `std::set<outleg>` iterates in strictly increasing order. */
  predicate OutLegsSorted(s: seq<OutLeg>) {
    forall i, j :: 0 <= i < j < |s| ==> OutLegLess(s[i], s[j])
  }

  /** Iterating a leg set visits the middle entities in non-decreasing order,
   *  and the legs of one entity form one contiguous run. */
  lemma SortedLegsGroupByEntity(outs: seq<OutLeg>, ins: seq<InLeg>)
    requires OutLegsSorted(outs) && InLegsSorted(ins)
    ensures forall i, j :: 0 <= i < j < |outs| ==> outs[i].eOther <= outs[j].eOther
    ensures forall i, j :: 0 <= i < j < |ins| ==> ins[i].eOther <= ins[j].eOther
    ensures forall i, j, k :: 0 <= i < j < k < |outs| && outs[i].eOther == outs[k].eOther
              ==> outs[j].eOther == outs[i].eOther
    ensures forall i, j, k :: 0 <= i < j < k < |ins| && ins[i].eOther == ins[k].eOther
              ==> ins[j].eOther == ins[i].eOther
  {
  }

  // ---------------------------------------------------------------------
  // Summary events and NO_ANGLE

  /** The summary event of an event type: entity types stored negated. */
  function SummaryEvent(et1: EntityType, rat13: Rat, et3: EntityType): (ev: Event)
    requires et1 >= 1 && et3 >= 1
    ensures ev.e1 < 0 && ev.e3 < 0
  {
    Event(EC_EST, -(et1 as int), rat13, -(et3 as int))
  }

  /** Negation recovers the entity types stored in a summary event. */
  lemma SummaryEventTypesRecovered(et1: EntityType, rat13: Rat, et3: EntityType)
    requires et1 >= 1 && et3 >= 1
    ensures var ev := SummaryEvent(et1, rat13, et3);
      -ev.e1 == et1 && -ev.e3 == et3 && ev.rat13 == rat13 && ev.ec == EC_EST
  {
  }

  /** NO_ANGLE differs from every angle type whose middle entity type is a real type. */
  lemma NoAngleIsDistinct(at: AngleType)
    requires at.et2 >= 1
    ensures at != NO_ANGLE
  {
  }

  // ---------------------------------------------------------------------
  // Hashes

  /** Bit widths of the fields of `INFLT`, in order. */
  function InfltWidths(etBits: nat, ratBits: nat): seq<nat> {
    [2, etBits, ratBits, etBits, ratBits, etBits, ratBits]
  }

  function InfltFields(i: InfluenceType): seq<nat> {
    [EcCode(i.evt.ec), i.evt.et1, i.evt.rat13, i.evt.et3, i.at.rat12, i.at.et2, i.at.rat23]
  }

  /** The `INFLT` macro for given bit widths: the seven ids cast to `size_t`
   *  and XOR-ed at offsets 0, 2, 2+ET, 2+ET+RAT, 2+2ET+RAT, 2+2ET+2RAT, 2+3ET+2RAT. */
  function InfltWith(etBits: nat, ratBits: nat, i: InfluenceType): nat {
    Pack(InfltFields(i), InfltWidths(etBits, ratBits))
  }

  /** `MAX_N_INFLT` for given bit widths: `1 << (2 + 3ET + 3RAT)`. */
  function MaxNInfltWith(etBits: nat, ratBits: nat): nat {
    Pow2(2 + 3 * etBits + 3 * ratBits)
  }

  /** Every entity type id fits `etBits` and every relationship type id fits `ratBits`. */
  predicate InfltInRange(etBits: nat, ratBits: nat, i: InfluenceType) {
    i.evt.et1 < Pow2(etBits) && i.evt.et3 < Pow2(etBits) && i.at.et2 < Pow2(etBits)
    && i.evt.rat13 < Pow2(ratBits) && i.at.rat12 < Pow2(ratBits) && i.at.rat23 < Pow2(ratBits)
  }

  /** Reads the seven fields back out of an `INFLT` value. */
  function InfltDecodeWith(etBits: nat, ratBits: nat, h: nat): Option<InfluenceType> {
    var w := InfltWidths(etBits, ratBits);
    match EcOf(Field(h, w, 0))
    case None => None
    case Some(ec) =>
      if h >= MaxNInfltWith(etBits, ratBits) then None
      else Some(InfluenceType(
        EventType(ec, Field(h, w, 1), Field(h, w, 2), Field(h, w, 3)),
        AngleType(Field(h, w, 4), Field(h, w, 5), Field(h, w, 6))))
  }

  lemma InfltWidthsSum(etBits: nat, ratBits: nat)
    ensures Sum(InfltWidths(etBits, ratBits)) == 2 + 3 * etBits + 3 * ratBits
  {
    var w := InfltWidths(etBits, ratBits);
    assert w[..0] == [] && w[..7] == w;
    SumPrefixStep(w, 0);
    SumPrefixStep(w, 1);
    SumPrefixStep(w, 2);
    SumPrefixStep(w, 3);
    SumPrefixStep(w, 4);
    SumPrefixStep(w, 5);
    SumPrefixStep(w, 6);
  }

  /** With ids in range, `INFLT` is below `MAX_N_INFLT` and its fields can be
   *  read back, so it is a perfect hash into the `_inflt2*` tables. */
  lemma {:induction false} InfltRoundTrip(etBits: nat, ratBits: nat, i: InfluenceType)
    requires InfltInRange(etBits, ratBits, i)
    ensures InfltWith(etBits, ratBits, i) < MaxNInfltWith(etBits, ratBits)
    ensures InfltDecodeWith(etBits, ratBits, InfltWith(etBits, ratBits, i)) == Some(i)
  {
    var f, w := InfltFields(i), InfltWidths(etBits, ratBits);
    var h := InfltWith(etBits, ratBits, i);
    InfltFieldsRead(etBits, ratBits, i);
    assert f[0] == EcCode(i.evt.ec) && f[1] == i.evt.et1 && f[2] == i.evt.rat13 && f[3] == i.evt.et3;
    assert f[4] == i.at.rat12 && f[5] == i.at.et2 && f[6] == i.at.rat23;
    InfltDecodeFields(etBits, ratBits, h, i);
  }

  /** Every field of an `INFLT` value with ids in range can be read back. */
  lemma InfltFieldsRead(etBits: nat, ratBits: nat, i: InfluenceType)
    requires InfltInRange(etBits, ratBits, i)
    ensures var f, w := InfltFields(i), InfltWidths(etBits, ratBits);
      && InfltWith(etBits, ratBits, i) < MaxNInfltWith(etBits, ratBits)
      && forall k :: 0 <= k < 7 ==> Field(InfltWith(etBits, ratBits, i), w, k) == f[k]
  {
    var f, w := InfltFields(i), InfltWidths(etBits, ratBits);
    assert Pow2(2) == 4;
    assert Fits(f, w);
    PackBelow(f, w);
    InfltWidthsSum(etBits, ratBits);
    var h := InfltWith(etBits, ratBits, i);
    forall k | 0 <= k < 7
      ensures Field(h, w, k) == f[k]
    {
      PackFieldAt(f, w, k);
    }
  }

  lemma InfltDecodeFields(etBits: nat, ratBits: nat, h: nat, i: InfluenceType)
    requires h < MaxNInfltWith(etBits, ratBits)
    requires var w := InfltWidths(etBits, ratBits);
      && Field(h, w, 0) == EcCode(i.evt.ec) && Field(h, w, 1) == i.evt.et1 && Field(h, w, 2) == i.evt.rat13
      && Field(h, w, 3) == i.evt.et3 && Field(h, w, 4) == i.at.rat12 && Field(h, w, 5) == i.at.et2
      && Field(h, w, 6) == i.at.rat23
    ensures InfltDecodeWith(etBits, ratBits, h) == Some(i)
  {
  }

  lemma InfltInjective(etBits: nat, ratBits: nat, i: InfluenceType, j: InfluenceType)
    requires InfltInRange(etBits, ratBits, i) && InfltInRange(etBits, ratBits, j)
    ensures InfltWith(etBits, ratBits, i) == InfltWith(etBits, ratBits, j) <==> i == j
  {
    InfltRoundTrip(etBits, ratBits, i);
    InfltRoundTrip(etBits, ratBits, j);
  }

  /** `INFLT` with the bit widths of this data model. */
  function Inflt(i: InfluenceType): nat {
    InfltWith(ET_BITS, RAT_BITS, i)
  }

  /** `MAX_N_INFLT` with the bit widths of this data model: 2^26. */
  function MaxNInflt(): (n: nat)
    ensures n == 67108864
  {
    Pow2Values();
    MaxNInfltWith(ET_BITS, RAT_BITS)
  }

  /** Conversion of an integer to `size_t` (reduction modulo 2^64). */
  function ToSizeT(x: int): nat {
    x % Pow2(64)
  }

  /** The 32 bits of an `int` computed as `x` (a C++20 shift of a signed
   *  `int` wraps modulo 2^32). */
  function IntBits(x: int): nat {
    x % Pow2(32)
  }

  /** Conversion of the bits of an `int` to `size_t`: negative values are
   *  sign-extended. */
  function IntBitsToSizeT(bits: nat): nat {
    if bits >= Pow2(31) then bits + Pow2(32) * (Pow2(32) - 1) else bits
  }

  function EventWidths(): seq<nat> {
    [2, E_BITS, E_BITS, RAT_BITS]
  }

  /** Entity ids are non-negative and fit E_BITS, the type id fits RAT_BITS. */
  predicate EventIdsInRange(ev: Event) {
    0 <= ev.e1 < Pow2(E_BITS) && 0 <= ev.e3 < Pow2(E_BITS) && ev.rat13 < Pow2(RAT_BITS)
  }

  /** `std::hash<event>` as intended by the header's design: every field
   *  converted to `size_t` and placed at offsets 0, 2, 2+E and 2+2E. */
  function EventHash(ev: Event): nat {
    Pack([EcCode(ev.ec), ToSizeT(ev.e1), ToSizeT(ev.e3), ev.rat13], EventWidths()) % Pow2(64)
  }

  function EventHashDecode(h: nat): Option<Event> {
    var w := EventWidths();
    match EcOf(Field(h, w, 0))
    case None => None
    case Some(ec) => Some(Event(ec, Field(h, w, 1), Field(h, w, 3), Field(h, w, 2)))
  }

  /** Entity ids within E_BITS are unchanged by the conversion to `size_t`. */
  lemma SizeTOfSmall(x: int)
    requires 0 <= x < Pow2(E_BITS)
    ensures ToSizeT(x) == x
  {
    Pow2Monotone(E_BITS, 64);
    ModBelow(x, Pow2(64));
  }

  lemma EventWidthsSum()
    ensures Sum(EventWidths()) == 46
  {
    var w := EventWidths();
    assert w[..0] == [] && w[..4] == w;
    SumPrefixStep(w, 0);
    SumPrefixStep(w, 1);
    SumPrefixStep(w, 2);
    SumPrefixStep(w, 3);
  }

  /** The fields of the intended event hash fit `size_t` (2 + 2E + RAT = 46
   *  bits), and for ids in range the hash can be decoded, so it is injective. */
  lemma {:induction false} EventHashRoundTrip(ev: Event)
    requires EventIdsInRange(ev)
    ensures 2 + 2 * E_BITS + RAT_BITS <= 64
    ensures EventHash(ev) < Pow2(2 + 2 * E_BITS + RAT_BITS)
    ensures EventHashDecode(EventHash(ev)) == Some(ev)
  {
    var w := EventWidths();
    SizeTOfSmall(ev.e1);
    SizeTOfSmall(ev.e3);
    var a, b: nat := ev.e1, ev.e3;
    EventFields(EcCode(ev.ec), a, b, ev.rat13);
    var h := EventHash(ev);
    DecodeEvent(h, ev);
  }

  /** Four fields within the event widths are recovered from their packing. */
  lemma EventFields(a: nat, b: nat, c: nat, r: nat)
    requires a < 4 && b < Pow2(E_BITS) && c < Pow2(E_BITS) && r < Pow2(RAT_BITS)
    ensures var w, h := EventWidths(), Pack([a, b, c, r], EventWidths());
      && h < Pow2(46) && h % Pow2(64) == h
      && Field(h, w, 0) == a && Field(h, w, 1) == b && Field(h, w, 2) == c && Field(h, w, 3) == r
  {
    var w := EventWidths();
    assert Pow2(2) == 4 by { Pow2Values(); }
    EventWidthsSum();
    PackedFields4(a, b, c, r, w);
  }

  lemma DecodeEvent(h: nat, ev: Event)
    requires Field(h, EventWidths(), 0) == EcCode(ev.ec)
    requires Field(h, EventWidths(), 1) == ev.e1
    requires Field(h, EventWidths(), 2) == ev.e3
    requires Field(h, EventWidths(), 3) == ev.rat13
    ensures EventHashDecode(h) == Some(ev)
  {
  }

  lemma EventHashInjective(a: Event, b: Event)
    requires EventIdsInRange(a) && EventIdsInRange(b)
    ensures EventHash(a) == EventHash(b) <==> a == b
  {
    EventHashRoundTrip(a);
    EventHashRoundTrip(b);
  }

  /** `std::hash<event>` as written: `e1` and `e3` are `int`, so `e1 << 2`
   *  and `e3 << (2+E_BITS)` are computed in 32 bits; their XOR with the enum
   *  is an `int`, which is sign-extended when XOR-ed with the `size_t`
   *  `rat13 << (2+2E_BITS)`. */
  function EventHashAsWritten(ev: Event): nat {
    var low := Xor(Xor(EcCode(ev.ec), IntBits(ev.e1 * Pow2(2))), IntBits(ev.e3 * Pow2(2 + E_BITS)));
    Xor(IntBitsToSizeT(low), ToSizeT(ev.rat13 * Pow2(2 + 2 * E_BITS)))
  }

  /** Two distinct events with ids in range that the hash as written maps to
   *  the same value: bit 10 of e3 is shifted out of the 32-bit `int`. */
  lemma EventHashAsWrittenCollides()
    ensures var a, b := Event(EC_EST, 0, 2, 1024), Event(EC_EST, 0, 2, 0);
      a != b && EventIdsInRange(a) && EventIdsInRange(b)
      && EventHashAsWritten(a) == EventHashAsWritten(b)
  {
    Pow2Add(10, 22);
    assert Pow2(10) == 1024;
    assert IntBits(1024 * Pow2(22)) == 0;
    assert Pow2(20) == 1048576;
  }

  function LinkWidths(): seq<nat> {
    [E_BITS, RAT_BITS, E_BITS]
  }

  predicate LinkIdsInRange(l: Link) {
    0 <= l.e1 < Pow2(E_BITS) && 0 <= l.e3 < Pow2(E_BITS) && l.rat13 < Pow2(RAT_BITS)
  }

  /** `std::hash<link>` as intended: fields as `size_t` at offsets 0, E and E+RAT. */
  function LinkHash(l: Link): nat {
    Pack([ToSizeT(l.e1), l.rat13, ToSizeT(l.e3)], LinkWidths()) % Pow2(64)
  }

  function LinkHashDecode(h: nat): Link {
    var w := LinkWidths();
    Link(Field(h, w, 0), Field(h, w, 1), Field(h, w, 2))
  }

  lemma LinkWidthsSum()
    ensures Sum(LinkWidths()) == 44
  {
    var w := LinkWidths();
    assert w[..0] == [] && w[..3] == w;
    SumPrefixStep(w, 0);
    SumPrefixStep(w, 1);
    SumPrefixStep(w, 2);
  }

  /** Three fields within the link widths are recovered from their packing. */
  lemma LinkFields(a: nat, r: nat, b: nat)
    requires a < Pow2(E_BITS) && r < Pow2(RAT_BITS) && b < Pow2(E_BITS)
    ensures var w, h := LinkWidths(), Pack([a, r, b], LinkWidths());
      && h < Pow2(44) && h % Pow2(64) == h
      && Field(h, w, 0) == a && Field(h, w, 1) == r && Field(h, w, 2) == b
  {
    LinkWidthsSum();
    PackedFields3(a, r, b, LinkWidths());
  }

  /** For ids in range the intended link hash fits 2E + RAT = 44 bits and
   *  can be decoded, so it is injective. */
  lemma {:induction false} LinkHashRoundTrip(l: Link)
    requires LinkIdsInRange(l)
    ensures LinkHash(l) < Pow2(2 * E_BITS + RAT_BITS)
    ensures LinkHashDecode(LinkHash(l)) == l
  {
    var w, h := LinkWidths(), LinkHash(l);
    LinkFields(l.e1, l.rat13, l.e3);
    LinkHashIsPack(l);
    DecodeLink(h, l);
  }

  lemma LinkHashIsPack(l: Link)
    requires LinkIdsInRange(l)
    requires Pack([l.e1, l.rat13, l.e3], LinkWidths()) % Pow2(64) == Pack([l.e1, l.rat13, l.e3], LinkWidths())
    ensures LinkHash(l) == Pack([l.e1, l.rat13, l.e3], LinkWidths())
  {
    SizeTOfSmall(l.e1);
    SizeTOfSmall(l.e3);
    assert [ToSizeT(l.e1), l.rat13, ToSizeT(l.e3)] == [l.e1, l.rat13, l.e3];
  }

  lemma DecodeLink(h: nat, l: Link)
    requires Field(h, LinkWidths(), 0) == l.e1 && Field(h, LinkWidths(), 1) == l.rat13
    requires Field(h, LinkWidths(), 2) == l.e3
    ensures LinkHashDecode(h) == l
  {
  }

  lemma LinkHashInjective(a: Link, b: Link)
    requires LinkIdsInRange(a) && LinkIdsInRange(b)
    ensures LinkHash(a) == LinkHash(b) <==> a == b
  {
    LinkHashRoundTrip(a);
    LinkHashRoundTrip(b);
  }

  /** `std::hash<link>` as written: `e3 << (E_BITS+RAT_BITS)` is an `int`
   *  shift, computed in 32 bits and then sign-extended. */
  function LinkHashAsWritten(l: Link): nat {
    Xor(Xor(ToSizeT(l.e1), ToSizeT(l.rat13 * Pow2(E_BITS))),
        IntBitsToSizeT(IntBits(l.e3 * Pow2(E_BITS + RAT_BITS))))
  }

  /** Two distinct links with ids in range that the hash as written maps to
   *  the same value: bit 8 of e3 is shifted out of the 32-bit `int`. */
  lemma LinkHashAsWrittenCollides()
    ensures var a, b := Link(0, 2, 256), Link(0, 2, 0);
      a != b && LinkIdsInRange(a) && LinkIdsInRange(b)
      && LinkHashAsWritten(a) == LinkHashAsWritten(b)
  {
    Pow2Add(8, 24);
    assert Pow2(8) == 256;
    assert IntBits(256 * Pow2(24)) == 0;
    assert Pow2(20) == 1048576;
  }

  function LegWidths(): seq<nat> {
    [E_BITS, RAT_BITS]
  }

  /** `std::hash<inleg>` and `std::hash<outleg>`: `e_other ^ (rat << E_BITS)`
   *  in `size_t`. */
  function LegHash(eOther: Entity, rat: Rat): nat {
    Pack([ToSizeT(eOther), rat], LegWidths()) % Pow2(64)
  }

  function LegHashDecode(h: nat): (Entity, Rat) {
    (Field(h, LegWidths(), 0), Field(h, LegWidths(), 1))
  }

  lemma DecodeLeg(h: nat, e: Entity, r: Rat)
    requires Field(h, LegWidths(), 0) == e && Field(h, LegWidths(), 1) == r
    ensures LegHashDecode(h) == (e, r)
  {
  }

  /** Two fields within the leg widths are recovered from their packing. */
  lemma LegFields(a: nat, r: nat)
    requires a < Pow2(E_BITS) && r < Pow2(RAT_BITS)
    ensures var w, h := LegWidths(), Pack([a, r], LegWidths());
      && h < Pow2(E_BITS + RAT_BITS) && h % Pow2(64) == h && Field(h, w, 0) == a && Field(h, w, 1) == r
  {
    var w := LegWidths();
    assert w[..0] == [] && w[..2] == w;
    SumPrefixStep(w, 0);
    SumPrefixStep(w, 1);
    assert Sum(w) == E_BITS + RAT_BITS;
    PackedFields2(a, r, w);
  }

  /** For ids in range the leg hash fits E + RAT bits and can be decoded. */
  lemma {:induction false} LegHashRoundTrip(e: Entity, r: Rat)
    requires 0 <= e < Pow2(E_BITS) && r < Pow2(RAT_BITS)
    ensures LegHash(e, r) < Pow2(E_BITS + RAT_BITS)
    ensures LegHashDecode(LegHash(e, r)) == (e, r)
  {
    SizeTOfSmall(e);
    LegFields(e, r);
    assert [ToSizeT(e), r] == [e, r];
    var h := LegHash(e, r);
    DecodeLeg(h, e, r);
  }

  lemma LegHashInjective(e: Entity, r: Rat, e': Entity, r': Rat)
    requires 0 <= e < Pow2(E_BITS) && 0 <= e' < Pow2(E_BITS)
    requires r < Pow2(RAT_BITS) && r' < Pow2(RAT_BITS)
    ensures LegHash(e, r) == LegHash(e', r') <==> e == e' && r == r'
  {
    LegHashRoundTrip(e, r);
    LegHashRoundTrip(e', r');
  }
}
