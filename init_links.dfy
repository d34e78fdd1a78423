/** `init_links` of src/init.cpp: the identity legs of every entity, the
 *  configured links, and the random links of the block model. */
module InitLinks {
  import opened Wrappers
  import opened ExtReal
  import opened DataModel
  import opened State
  import opened Links
  import opened EventPerform
  import opened Simulate
  import opened Init

  /** Every link present in `g` is present in `g'`. */
  ghost predicate OnlyAdds(g: Globals, g': Globals) {
    forall m :: LinkExists(g, m) ==> LinkExists(g', m)
  }

  // ---------------------------------------------------------------------
  // Identity legs

  /** The identity link of `e`. */
  function IdLink(e: Entity): Link {
    Link(e, RT_ID, e)
  }

  /** `e2outs[e].insert({RT_ID, e}); e2ins[e].insert({e, RT_ID})`: the legs
   *  of the identity link, without counting it as a link. */
  function WithIdentity(g: Globals, e: Entity): (g': Globals)
    requires LegsSorted(g.e2outs, g.e2ins)
    ensures g'.(e2outs := g.e2outs, e2ins := g.e2ins) == g
  {
    WithLink(g, IdLink(e)).(nLinks := g.nLinks)
  }

  /** Adding the identity legs of an entity in use keeps the invariant,
   *  makes its identity link present and every other link as it was. */
  lemma WithIdentityOk(g: Globals, tb: Tables, rng: Rng, e: Entity)
    requires GlobalsOk(g, tb, rng, None) && e in g.es
    ensures GlobalsOk(WithIdentity(g, e), tb, rng, None)
    ensures LinkExists(WithIdentity(g, e), IdLink(e))
    ensures forall m :: m != IdLink(e) ==> (LinkExists(WithIdentity(g, e), m) <==> LinkExists(g, m))
  {
    WithLinkOk(g, tb, rng, IdLink(e));
    CountersFree(WithLink(g, IdLink(e)), WithIdentity(g, e), tb, rng, None);
  }

  /** What the identity loop keeps after the entities `done`. */
  ghost predicate IdentityPartial(g0: Globals, g: Globals, done: set<Entity>) {
    && g.(e2outs := g0.e2outs, e2ins := g0.e2ins) == g0
    && (forall e :: e in done ==> LinkExists(g, IdLink(e)))
    && (forall m: Link :: (m != IdLink(m.e1) || m.e1 !in done) ==> (LinkExists(g, m) <==> LinkExists(g0, m)))
  }

  lemma IdentityPartialStep(g0: Globals, g: Globals, tb: Tables, rng: Rng, done: set<Entity>, e: Entity)
    requires GlobalsOk(g, tb, rng, None) && e in g.es && IdentityPartial(g0, g, done)
    ensures IdentityPartial(g0, WithIdentity(g, e), done + {e})
  {
    WithIdentityOk(g, tb, rng, e);
  }

  /** The first loop of `init_links`, over the entities in use (the order
   *  does not matter: the legs are sets). Afterwards every entity has its
   *  identity link, every other link is as it was, and only the legs
   *  differ. */
  method AddIdentityLegs(w: World)
    requires w.Valid()
    modifies w
    ensures w.Valid() && IdentityPartial(old(w.g), w.g, old(w.g.es))
  {
    ghost var g0 := w.g;
    var done: set<Entity> := {};
    while done != w.g.es
      invariant done <= w.g.es && w.Valid() && IdentityPartial(g0, w.g, done)
      decreases w.g.es - done
    {
      var e := PickNew(w.g.es, done);
      IdentityPartialStep(g0, w.g, w.tb, w.rng, done, e);
      WithIdentityOk(w.g, w.tb, w.rng, e);
      w.g := WithIdentity(w.g, e);
      done := done + {e};
    }
  }

  // ---------------------------------------------------------------------
  // Configured links

  /** `init_links`, second loop: each configured link must be absent and
   *  not the identity (the source asserts both, and an assertion that
   *  fails is `None` here), and is established at once. */
  ghost function Configured(g: Globals, tb: Tables, rng: Rng, links: seq<Link>): Option<Globals>
    requires GlobalsOk(g, tb, rng, None)
    decreases |links|
  {
    if links == [] then Some(g)
    else
      var l := links[0];
      if LinkExists(g, l) || l.rat13 == RT_ID then None
      else
        EstablishedOk(g, tb, rng, l);
        var r := Established(g, tb, rng, l);
        if r.None? then None else Configured(r.value, tb, rng, links[1..])
  }

  /** When configuring succeeds, the invariant holds, every link present
   *  before is still present, and every configured link exists afterwards
   *  and was absent before. */
  lemma {:induction false} ConfiguredOk(g: Globals, tb: Tables, rng: Rng, links: seq<Link>)
    requires GlobalsOk(g, tb, rng, None)
    decreases |links|
    ensures var r := Configured(g, tb, rng, links);
      r.Some? ==>
        && GlobalsOk(r.value, tb, rng, None) && OnlyAdds(g, r.value)
        && (forall k :: 0 <= k < |links| ==> LinkExists(r.value, links[k]) && !LinkExists(g, links[k]))
  {
    if links != [] && Configured(g, tb, rng, links).Some? {
      var g1 := ConfiguredHead(g, tb, rng, links);
      var tl := links[1..];
      ConfiguredOk(g1, tb, rng, tl);
      assert forall k :: 1 <= k < |links| ==> links[k] == tl[k - 1];
    }
  }

  /** The state after the first configured link, when configuring succeeds. */
  lemma ConfiguredHead(g: Globals, tb: Tables, rng: Rng, links: seq<Link>) returns (g1: Globals)
    requires GlobalsOk(g, tb, rng, None) && links != [] && Configured(g, tb, rng, links).Some?
    ensures GlobalsOk(g1, tb, rng, None) && OnlyAdds(g, g1)
    ensures LinkExists(g1, links[0]) && !LinkExists(g, links[0]) && links[0].rat13 != RT_ID
    ensures Configured(g, tb, rng, links) == Configured(g1, tb, rng, links[1..])
  {
    var l := links[0];
    EstablishedOk(g, tb, rng, l);
    EstablishedOnlyAdds(g, tb, rng, l);
    g1 := Established(g, tb, rng, l).value;
  }

  /** When configuring succeeds, no link is the identity and none is
   *  configured twice. */
  lemma {:induction false} ConfiguredDistinct(g: Globals, tb: Tables, rng: Rng, links: seq<Link>)
    requires GlobalsOk(g, tb, rng, None)
    decreases |links|
    ensures Configured(g, tb, rng, links).Some? ==> forall k :: 0 <= k < |links| ==> links[k].rat13 != RT_ID
    ensures Configured(g, tb, rng, links).Some? ==> forall i, j :: 0 <= i < j < |links| ==> links[i] != links[j]
  {
    if links != [] && Configured(g, tb, rng, links).Some? {
      var g1 := ConfiguredHead(g, tb, rng, links);
      var tl := links[1..];
      ConfiguredOk(g1, tb, rng, tl);
      ConfiguredDistinct(g1, tb, rng, tl);
      forall i, j | 0 <= i < j < |links| ensures links[i] != links[j] {
        if i == 0 {
          assert LinkExists(g1, links[0]) && !LinkExists(g1, tl[j - 1]);
        } else {
          assert tl[i - 1] != tl[j - 1];
        }
      }
      assert forall k :: 1 <= k < |links| ==> links[k] == tl[k - 1];
    }
  }

  /** The second loop of `init_links`. */
  method AddConfiguredLinks(w: World, links: seq<Link>) returns (ok: bool)
    requires w.Valid()
    modifies w
    ensures ok == Configured(old(w.g), w.tb, w.rng, links).Some?
    ensures ok ==> w.Valid() && w.g == Configured(old(w.g), w.tb, w.rng, links).value
  {
    ghost var g0 := w.g;
    for k := 0 to |links|
      invariant w.Valid()
      invariant Configured(g0, w.tb, w.rng, links) == Configured(w.g, w.tb, w.rng, links[k..])
    {
      var l := links[k];
      assert links[k..][0] == l && links[k..][1..] == links[k + 1..];
      if LinkExists(w.g, l) || l.rat13 == RT_ID {
        return false;
      }
      EstablishedOk(w.g, w.tb, w.rng, l);
      var est := Establish(w, l);
      if !est {
        return false;
      }
    }
    assert links[|links|..] == [];
    ok := true;
  }

  // ---------------------------------------------------------------------
  // Block model

  /** The entities in use below `e`: `es` is an ordered set, so the entity
   *  `e` is visited after exactly these. */
  function Below(es: set<Entity>, e: Entity): set<Entity> {
    set x | x in es && x < e
  }

  lemma BelowSmaller(es: set<Entity>, e: Entity, e': Entity)
    requires e in es && e < e'
    ensures |Below(es, e)| < |Below(es, e')|
  {
    var a, b := Below(es, e), Below(es, e');
    assert e in b - a;
    assert b == a + (b - a);
  }

  /** Each entity in use gets a draw of its own. */
  lemma BelowInjective(es: set<Entity>, e: Entity, e': Entity)
    requires e in es && e' in es && e != e'
    ensures |Below(es, e)| != |Below(es, e')|
  {
    if e < e' {
      BelowSmaller(es, e, e');
    } else {
      BelowSmaller(es, e', e);
    }
  }

  /** `et2n_blocks[et]`, a missing type reading as zero, and
   *  `floor(u * n)`: the block an entity with draw `u` falls in. */
  function BlockOf(u: real, nBlocks: map<EntityType, int>, et: EntityType): int {
    (u * CountOf(nBlocks, et) as real).Floor
  }

  /** With at least one block configured, a uniform draw falls in one of
   *  them. */
  lemma BlockInRange(u: real, nBlocks: map<EntityType, int>, et: EntityType)
    requires 0.0 <= u < 1.0 && CountOf(nBlocks, et) >= 1
    ensures 0 <= BlockOf(u, nBlocks, et) < CountOf(nBlocks, et)
  {
    var n := CountOf(nBlocks, et) as real;
    assert 0.0 <= u * n < n;
  }

  /** The `k`-th uniform draw. */
  function Uniform(rng: Rng, k: nat): real {
    rng.uniform(k)
  }

  /** The block drawn for `e` when the blocks are drawn from state `g`. */
  function DrawnBlock(g: Globals, rng: Rng, nBlocks: map<EntityType, int>, e: Entity): int {
    BlockOf(Uniform(rng, g.nDraws + |Below(g.es, e)|), nBlocks, EtOf(g.e2et, e))
  }

  /** With at least one block configured for its type, every entity draws
   *  one of its type's blocks, and distinct entities use distinct draws. */
  lemma DrawnBlockInRange(g: Globals, rng: Rng, nBlocks: map<EntityType, int>, e: Entity, e': Entity)
    requires RngOk(rng) && e in g.es && CountOf(nBlocks, EtOf(g.e2et, e)) >= 1
    ensures 0 <= DrawnBlock(g, rng, nBlocks, e) < CountOf(nBlocks, EtOf(g.e2et, e))
    ensures e' in g.es && e' != e ==> g.nDraws + |Below(g.es, e)| != g.nDraws + |Below(g.es, e')|
  {
    BlockInRange(Uniform(rng, g.nDraws + |Below(g.es, e)|), nBlocks, EtOf(g.e2et, e));
    if e' in g.es && e' != e {
      BelowInjective(g.es, e, e');
    }
  }

  lemma BelowStep(es: set<Entity>, e: Entity)
    ensures e !in Below(es, e)
    ensures Below(es, e + 1) == Below(es, e) + (if e in es then {e} else {})
  {
  }

  lemma BelowAll(es: set<Entity>, maxE: int)
    requires forall e :: e in es ==> e <= maxE
    ensures Below(es, maxE + 1) == es
  {
  }

  /** The blocks drawn by the entities below `e`. */
  ghost predicate BlocksBelow(g0: Globals, rng: Rng, nBlocks: map<EntityType, int>, block: map<Entity, int>, e: Entity) {
    && block.Keys == Below(g0.es, e)
    && (forall x :: x in block ==> block[x] == DrawnBlock(g0, rng, nBlocks, x))
  }

  /** The `n`-th draw is the one of `e` when `n` draws were made before it. */
  lemma DrawnAt(g0: Globals, rng: Rng, nBlocks: map<EntityType, int>, e: Entity, n: nat)
    requires n == g0.nDraws + |Below(g0.es, e)|
    ensures BlockOf(Uniform(rng, n), nBlocks, EtOf(g0.e2et, e)) == DrawnBlock(g0, rng, nBlocks, e)
  {
  }

  lemma BlocksBelowStep(g0: Globals, rng: Rng, nBlocks: map<EntityType, int>, block: map<Entity, int>, e: Entity, b: int)
    requires BlocksBelow(g0, rng, nBlocks, block, e)
    requires e in g0.es ==> b == DrawnBlock(g0, rng, nBlocks, e)
    ensures e in g0.es ==> BlocksBelow(g0, rng, nBlocks, block[e := b], e + 1)
    ensures e !in g0.es ==> BlocksBelow(g0, rng, nBlocks, block, e + 1)
  {
    BelowStep(g0.es, e);
  }

  /** The draws of the blocks from state `g0`: every entity in use, in
   *  increasing order, draws its block. Afterwards each entity in use has
   *  the block of its own draw, and `n` counts the draws. */
  method DrawBlocksFrom(g0: Globals, rng: Rng, nBlocks: map<EntityType, int>) returns (block: map<Entity, int>, n: nat)
    requires g0.maxE >= -1 && forall e :: e in g0.es ==> 0 <= e <= g0.maxE
    ensures n == g0.nDraws + |g0.es|
    ensures block.Keys == g0.es
    ensures forall e :: e in block ==> block[e] == DrawnBlock(g0, rng, nBlocks, e)
  {
    n := g0.nDraws;
    block := map[];
    for e := 0 to g0.maxE + 1
      invariant n == g0.nDraws + |Below(g0.es, e)| && BlocksBelow(g0, rng, nBlocks, block, e)
    {
      BelowStep(g0.es, e);
      var b := BlockOf(Uniform(rng, n), nBlocks, EtOf(g0.e2et, e));
      DrawnAt(g0, rng, nBlocks, e, n);
      BlocksBelowStep(g0, rng, nBlocks, block, e, b);
      if e in g0.es {
        block := block[e := b];
        n := n + 1;
      }
    }
    BelowAll(g0.es, g0.maxE);
  }

  /** `init_links`, first half of the block model, which makes one draw per
   *  entity in use and changes nothing else. */
  method DrawBlocks(w: World, nBlocks: map<EntityType, int>) returns (block: map<Entity, int>)
    requires w.Valid()
    modifies w
    ensures w.Valid() && w.g == old(w.g).(nDraws := old(w.g.nDraws) + |old(w.g.es)|)
    ensures block.Keys == w.g.es
    ensures forall e :: e in block ==> block[e] == DrawnBlock(old(w.g), w.rng, nBlocks, e)
  {
    var n;
    block, n := DrawBlocksFrom(w.g, w.rng, nBlocks);
    CountersFree(w.g, w.g.(nDraws := n), w.tb, w.rng, None);
    w.g := w.g.(nDraws := n);
  }

  /** Whether the pair (e1, e3) is tried for relationship `r`: never an
   *  entity with itself, and for a symmetric relationship only with e1
   *  below e3. */
  predicate PairTried(tb: Tables, e1: Entity, r: Rat, e3: Entity) {
    e3 != e1 && (e3 > e1 || InverseRat(tb, r) != r)
  }

  /** For a symmetric relationship exactly one order of each pair of
   *  distinct entities is tried; otherwise both are, and an entity is
   *  never tried with itself. */
  lemma PairTriedOnce(tb: Tables, e1: Entity, r: Rat, e3: Entity)
    ensures !PairTried(tb, e1, r, e1)
    ensures e1 != e3 && InverseRat(tb, r) == r ==> PairTried(tb, e1, r, e3) != PairTried(tb, e3, r, e1)
    ensures e1 != e3 && InverseRat(tb, r) != r ==> PairTried(tb, e1, r, e3) && PairTried(tb, e3, r, e1)
  {
  }

  /** `e2block[e]`: a missing entity reads as block zero. */
  function BlockAt(block: map<Entity, int>, e: Entity): int {
    if e in block then block[e] else 0
  }

  /** The relationship types random links of link types `lts` may need:
   *  theirs and their inverses. */
  function LinkRats(tb: Tables, lts: set<LinkType>): set<Rat> {
    (set lt | lt in lts :: lt.rat13) + (set lt | lt in lts :: InverseRat(tb, lt.rat13))
  }

  /** The link types with a positive probability within blocks. */
  function Positive(within: map<LinkType, real>): set<LinkType> {
    set lt | lt in within && within[lt] > 0.0
  }

  /** Links were only added, and only with a relationship type in `rats`. */
  ghost predicate AddedWith(g0: Globals, g: Globals, rats: set<Rat>) {
    && OnlyAdds(g0, g)
    && (forall m :: LinkExists(g, m) ==> LinkExists(g0, m) || m.rat13 in rats)
  }

  lemma RandomLinkedAdds(g0: Globals, g: Globals, tb: Tables, rng: Rng, p: real, l: Link, rats: set<Rat>)
    requires GlobalsOk(g, tb, rng, None) && AddedWith(g0, g, rats)
    requires l.rat13 in rats && InverseRat(tb, l.rat13) in rats
    ensures var r := RandomLinked(g, tb, rng, p, l);
      r.Some? ==> GlobalsOk(r.value, tb, rng, None) && AddedWith(g0, r.value, rats)
  {
    RandomLinkedOk(g, tb, rng, p, l);
    RandomLinkedOnlyAdds(g, tb, rng, p, l);
  }

  /** The block model's parameters: the probabilities within and between
   *  blocks per link type, and the drawn block of each entity. */
  datatype BlockModel = BlockModel(within: map<LinkType, real>, between: map<LinkType, real>, block: map<Entity, int>)

  /** The probability of the pair (e1, e3): within blocks when both are in
   *  the same block, between blocks otherwise (a missing entry reading as
   *  zero). */
  function PairProbability(bm: BlockModel, lt: LinkType, e1: Entity, e3: Entity): real
    requires lt in bm.within
  {
    if BlockAt(bm.block, e1) == BlockAt(bm.block, e3) then bm.within[lt]
    else if lt in bm.between then bm.between[lt] else 0.0
  }

  /** One pair of the inner loop: a tried pair is linked at random with its
   *  probability; any other pair leaves the state. */
  ghost function PairLinked(g: Globals, tb: Tables, rng: Rng, bm: BlockModel, lt: LinkType, e1: Entity, e3: Entity): (r: Option<Globals>)
    requires GlobalsOk(g, tb, rng, None) && lt in bm.within
    ensures r.Some? ==> GlobalsOk(r.value, tb, rng, None)
  {
    if PairTried(tb, e1, lt.rat13, e3) then
      RandomLinkedOk(g, tb, rng, PairProbability(bm, lt, e1, e3), Link(e1, lt.rat13, e3));
      RandomLinked(g, tb, rng, PairProbability(bm, lt, e1, e3), Link(e1, lt.rat13, e3))
    else Some(g)
  }

  /** The pairs (e1, e3) the inner loop visits for one e1. */
  function Row(e1: Entity, es3: seq<Entity>): (row: seq<(Entity, Entity)>)
    ensures |row| == |es3| && forall k :: 0 <= k < |es3| ==> row[k] == (e1, es3[k])
  {
    seq(|es3|, k requires 0 <= k < |es3| => (e1, es3[k]))
  }

  /** The pairs the two inner loops visit, row by row. */
  function Pairs(es1: seq<Entity>, es3: seq<Entity>): seq<(Entity, Entity)> {
    if es1 == [] then [] else Pairs(es1[..|es1| - 1], es3) + Row(es1[|es1| - 1], es3)
  }

  /** The pairs `ps` linked one after the other, stopping at the first
   *  failure. */
  ghost function PairsLinked(g: Globals, tb: Tables, rng: Rng, bm: BlockModel, lt: LinkType, ps: seq<(Entity, Entity)>): (r: Option<Globals>)
    requires GlobalsOk(g, tb, rng, None) && lt in bm.within
    ensures r.Some? ==> GlobalsOk(r.value, tb, rng, None)
    decreases |ps|
  {
    if ps == [] then Some(g)
    else
      match PairsLinked(g, tb, rng, bm, lt, ps[..|ps| - 1])
      case None => None
      case Some(g1) => PairLinked(g1, tb, rng, bm, lt, ps[|ps| - 1].0, ps[|ps| - 1].1)
  }

  /** The two inner loops for link type `lt`: every pair of an entity of
   *  its first type and one of its second type, in list order. */
  ghost function LinkTypeLinked(g: Globals, tb: Tables, rng: Rng, bm: BlockModel, lt: LinkType): (r: Option<Globals>)
    requires GlobalsOk(g, tb, rng, None) && lt in bm.within
    ensures r.Some? ==> GlobalsOk(r.value, tb, rng, None)
  {
    PairsLinked(g, tb, rng, bm, lt, Pairs(ListOf(g.et2es, lt.et1), ListOf(g.et2es, lt.et3)))
  }

  /** The link types `lts` handled one after the other. */
  ghost function TypesLinked(g: Globals, tb: Tables, rng: Rng, bm: BlockModel, lts: seq<LinkType>): (r: Option<Globals>)
    requires GlobalsOk(g, tb, rng, None) && forall k :: 0 <= k < |lts| ==> lts[k] in bm.within
    ensures r.Some? ==> GlobalsOk(r.value, tb, rng, None)
    decreases |lts|
  {
    if lts == [] then Some(g)
    else
      match TypesLinked(g, tb, rng, bm, lts[..|lts| - 1])
      case None => None
      case Some(g1) => LinkTypeLinked(g1, tb, rng, bm, lts[|lts| - 1])
  }

  lemma PairsLinkedSnoc(g: Globals, tb: Tables, rng: Rng, bm: BlockModel, lt: LinkType, ps: seq<(Entity, Entity)>, p: (Entity, Entity))
    requires GlobalsOk(g, tb, rng, None) && lt in bm.within
    ensures PairsLinked(g, tb, rng, bm, lt, ps + [p]) ==
      match PairsLinked(g, tb, rng, bm, lt, ps)
      case None => None
      case Some(g1) => PairLinked(g1, tb, rng, bm, lt, p.0, p.1)
  {
    assert (ps + [p])[..|ps|] == ps;
  }

  lemma TypesLinkedSnoc(g: Globals, tb: Tables, rng: Rng, bm: BlockModel, lts: seq<LinkType>, lt: LinkType)
    requires GlobalsOk(g, tb, rng, None) && lt in bm.within && forall k :: 0 <= k < |lts| ==> lts[k] in bm.within
    ensures TypesLinked(g, tb, rng, bm, lts + [lt]) ==
      match TypesLinked(g, tb, rng, bm, lts)
      case None => None
      case Some(g1) => LinkTypeLinked(g1, tb, rng, bm, lt)
  {
    assert (lts + [lt])[..|lts|] == lts;
  }

  /** Once a pair fails, every longer run of pairs fails. */
  lemma {:induction false} PairsLinkedStops(g: Globals, tb: Tables, rng: Rng, bm: BlockModel, lt: LinkType, ps: seq<(Entity, Entity)>, qs: seq<(Entity, Entity)>)
    requires GlobalsOk(g, tb, rng, None) && lt in bm.within
    requires ps <= qs && PairsLinked(g, tb, rng, bm, lt, ps).None?
    ensures PairsLinked(g, tb, rng, bm, lt, qs).None?
    decreases |qs|
  {
    if |qs| > |ps| {
      assert ps <= qs[..|qs| - 1];
      PairsLinkedStops(g, tb, rng, bm, lt, ps, qs[..|qs| - 1]);
    } else {
      assert ps == qs;
    }
  }

  /** The pairs of the first `i` rows come first. */
  lemma {:induction false} PairsPrefix(es1: seq<Entity>, es3: seq<Entity>, i: nat)
    requires i <= |es1|
    ensures Pairs(es1[..i], es3) <= Pairs(es1, es3)
    decreases |es1|
  {
    if i < |es1| {
      var n := |es1| - 1;
      PairsPrefix(es1[..n], es3, i);
      assert es1[..n][..i] == es1[..i];
    } else {
      assert es1[..i] == es1;
    }
  }

  /** One more row. */
  lemma PairsStep(es1: seq<Entity>, es3: seq<Entity>, i: nat)
    requires i < |es1|
    ensures Pairs(es1[..i + 1], es3) == Pairs(es1[..i], es3) + Row(es1[i], es3)
  {
    assert es1[..i + 1][..i] == es1[..i];
  }

  /** One pair of a row: the run extends by the pair's result, and a
   *  failure fails the whole row. */
  lemma PairStepped(gs: Globals, tb: Tables, rng: Rng, bm: BlockModel, lt: LinkType,
                    done: seq<(Entity, Entity)>, row: seq<(Entity, Entity)>, j: nat, g1: Globals)
    requires GlobalsOk(gs, tb, rng, None) && lt in bm.within && j < |row|
    requires PairsLinked(gs, tb, rng, bm, lt, done + row[..j]) == Some(g1)
    ensures PairsLinked(gs, tb, rng, bm, lt, done + row[..j + 1]) == PairLinked(g1, tb, rng, bm, lt, row[j].0, row[j].1)
    ensures PairLinked(g1, tb, rng, bm, lt, row[j].0, row[j].1).None? ==> PairsLinked(gs, tb, rng, bm, lt, done + row).None?
  {
    assert done + row[..j + 1] == (done + row[..j]) + [row[j]];
    PairsLinkedSnoc(gs, tb, rng, bm, lt, done + row[..j], row[j]);
    if PairLinked(g1, tb, rng, bm, lt, row[j].0, row[j].1).None? {
      assert done + row[..j + 1] <= done + row;
      PairsLinkedStops(gs, tb, rng, bm, lt, done + row[..j + 1], done + row);
    }
  }

  /** One row of the pairs: the run extends by the row, and a failure fails
   *  all the pairs. */
  lemma RowStepped(gs: Globals, tb: Tables, rng: Rng, bm: BlockModel, lt: LinkType,
                   es1: seq<Entity>, es3: seq<Entity>, i: nat)
    requires GlobalsOk(gs, tb, rng, None) && lt in bm.within && i < |es1|
    ensures PairsLinked(gs, tb, rng, bm, lt, Pairs(es1[..i + 1], es3)) ==
      PairsLinked(gs, tb, rng, bm, lt, Pairs(es1[..i], es3) + Row(es1[i], es3))
    ensures PairsLinked(gs, tb, rng, bm, lt, Pairs(es1[..i + 1], es3)).None? ==>
      PairsLinked(gs, tb, rng, bm, lt, Pairs(es1, es3)).None?
  {
    PairsStep(es1, es3, i);
    PairsPrefix(es1, es3, i + 1);
    if PairsLinked(gs, tb, rng, bm, lt, Pairs(es1[..i + 1], es3)).None? {
      PairsLinkedStops(gs, tb, rng, bm, lt, Pairs(es1[..i + 1], es3), Pairs(es1, es3));
    }
  }

  /** The body of the inner loop of the block model: a tried pair is linked
   *  at random, with the probability within blocks when both entities are
   *  in the same block and between blocks otherwise (a missing entry
   *  reading as zero). */
  method TryPair(w: World, lt: LinkType, within: map<LinkType, real>, between: map<LinkType, real>,
                 block: map<Entity, int>, e1: Entity, e3: Entity, ghost g0: Globals, ghost rats: set<Rat>)
    returns (ok: bool)
    requires w.Valid() && AddedWith(g0, w.g, rats) && lt in within
    requires lt.rat13 in rats && InverseRat(w.tb, lt.rat13) in rats
    modifies w
    ensures ok == PairLinked(old(w.g), w.tb, w.rng, BlockModel(within, between, block), lt, e1, e3).Some?
    ensures ok ==> w.g == PairLinked(old(w.g), w.tb, w.rng, BlockModel(within, between, block), lt, e1, e3).value
    ensures ok ==> w.Valid() && AddedWith(g0, w.g, rats)
  {
    ok := true;
    if PairTried(w.tb, e1, lt.rat13, e3) {
      var p := if BlockAt(block, e1) == BlockAt(block, e3) then within[lt]
               else if lt in between then between[lt] else 0.0;
      assert p == PairProbability(BlockModel(within, between, block), lt, e1, e3);
      var l := Link(e1, lt.rat13, e3);
      RandomLinkedAdds(g0, w.g, w.tb, w.rng, p, l, rats);
      ok := DoRandomLink(w, p, l);
    }
  }

  /** The innermost loop of the block model: the pairs (e1, e3) for every
   *  e3 of `es3`, after the pairs `done` from `gs`. */
  method RowLinks(w: World, lt: LinkType, within: map<LinkType, real>, between: map<LinkType, real>,
                  block: map<Entity, int>, e1: Entity, es3: seq<Entity>,
                  ghost gs: Globals, ghost done: seq<(Entity, Entity)>, ghost g0: Globals, ghost rats: set<Rat>)
    returns (ok: bool)
    requires w.Valid() && AddedWith(g0, w.g, rats) && lt in within
    requires lt.rat13 in rats && InverseRat(w.tb, lt.rat13) in rats
    requires GlobalsOk(gs, w.tb, w.rng, None)
    requires PairsLinked(gs, w.tb, w.rng, BlockModel(within, between, block), lt, done) == Some(w.g)
    modifies w
    ensures ok == PairsLinked(gs, w.tb, w.rng, BlockModel(within, between, block), lt, done + Row(e1, es3)).Some?
    ensures ok ==> w.g == PairsLinked(gs, w.tb, w.rng, BlockModel(within, between, block), lt, done + Row(e1, es3)).value
    ensures ok ==> w.Valid() && AddedWith(g0, w.g, rats)
  {
    ghost var bm := BlockModel(within, between, block);
    ghost var row := Row(e1, es3);
    assert done + row[..0] == done;
    for j := 0 to |es3|
      invariant w.Valid() && AddedWith(g0, w.g, rats)
      invariant PairsLinked(gs, w.tb, w.rng, bm, lt, done + row[..j]) == Some(w.g)
    {
      PairStepped(gs, w.tb, w.rng, bm, lt, done, row, j, w.g);
      ok := TryPair(w, lt, within, between, block, e1, es3[j], g0, rats);
      if !ok {
        return;
      }
    }
    assert row[..|es3|] == row;
    ok := true;
  }

  /** The two inner loops of the block model for one link type, over the
   *  entities of its two entity types. */
  method LinkTypeLinks(w: World, lt: LinkType, within: map<LinkType, real>, between: map<LinkType, real>,
                       block: map<Entity, int>, ghost g0: Globals, ghost rats: set<Rat>)
    returns (ok: bool)
    requires w.Valid() && AddedWith(g0, w.g, rats) && lt in within
    requires lt.rat13 in rats && InverseRat(w.tb, lt.rat13) in rats
    modifies w
    ensures ok == LinkTypeLinked(old(w.g), w.tb, w.rng, BlockModel(within, between, block), lt).Some?
    ensures ok ==> w.g == LinkTypeLinked(old(w.g), w.tb, w.rng, BlockModel(within, between, block), lt).value
    ensures ok ==> w.Valid() && AddedWith(g0, w.g, rats)
  {
    ghost var bm := BlockModel(within, between, block);
    ghost var gs := w.g;
    var es1 := ListOf(w.g.et2es, lt.et1);
    var es3 := ListOf(w.g.et2es, lt.et3);
    for i := 0 to |es1|
      invariant w.Valid() && AddedWith(g0, w.g, rats)
      invariant PairsLinked(gs, w.tb, w.rng, bm, lt, Pairs(es1[..i], es3)) == Some(w.g)
    {
      RowStepped(gs, w.tb, w.rng, bm, lt, es1, es3, i);
      ok := RowLinks(w, lt, within, between, block, es1[i], es3, gs, Pairs(es1[..i], es3), g0, rats);
      if !ok {
        return;
      }
    }
    assert es1[..|es1|] == es1;
    ok := true;
  }

  /** `init_links`, second half of the block model: the link types with a
   *  positive probability within blocks are handled in some order `order`
   *  (`unordered_map` fixes none). None may be the identity (the source
   *  asserts it), and each has all its pairs linked at random as
   *  `LinkTypeLinked` gives. Afterwards every link present before is still
   *  present, and every new link has the relationship type of such a link
   *  type or its inverse. */
  method BlockLinks(w: World, within: map<LinkType, real>, between: map<LinkType, real>,
                    block: map<Entity, int>) returns (ok: bool, ghost order: seq<LinkType>)
    requires w.Valid()
    modifies w
    ensures ok ==> forall lt :: lt in Positive(within) ==> lt.rat13 != RT_ID
    ensures ok ==> forall lt :: lt in order <==> lt in Positive(within)
    ensures ok ==> forall a, b :: 0 <= a < b < |order| ==> order[a] != order[b]
    ensures ok ==> forall k :: 0 <= k < |order| ==> order[k] in within
    ensures ok ==> TypesLinked(old(w.g), w.tb, w.rng, BlockModel(within, between, block), order) == Some(w.g)
    ensures ok ==> w.Valid() && AddedWith(old(w.g), w.g, LinkRats(w.tb, Positive(within)))
  {
    ghost var g0 := w.g;
    ghost var all := LinkRats(w.tb, Positive(within));
    ghost var bm := BlockModel(within, between, block);
    order := [];
    var done: set<LinkType> := {};
    while done != within.Keys
      invariant done <= within.Keys && w.Valid() && AddedWith(g0, w.g, all)
      invariant forall lt :: lt in done && lt in Positive(within) ==> lt.rat13 != RT_ID
      invariant forall lt :: lt in order <==> lt in done && lt in Positive(within)
      invariant forall a, b :: 0 <= a < b < |order| ==> order[a] != order[b]
      invariant forall k :: 0 <= k < |order| ==> order[k] in within
      invariant TypesLinked(g0, w.tb, w.rng, bm, order) == Some(w.g)
      decreases within.Keys - done
    {
      var lt := PickNew(within.Keys, done);
      if within[lt] > 0.0 {
        if lt.rat13 == RT_ID {
          return false, order;
        }
        assert lt in Positive(within);
        assert lt.rat13 in all && InverseRat(w.tb, lt.rat13) in all;
        ok := LinkTypeLinks(w, lt, within, between, block, g0, all);
        if !ok {
          return;
        }
        TypesLinkedSnoc(g0, w.tb, w.rng, bm, order, lt);
        order := order + [lt];
      }
      done := done + {lt};
    }
    ok := true;
  }

  /** `init_links` without the random geometric model. Afterwards every
   *  entity in use has its identity link, every configured link exists,
   *  and every link present before is still present. */
  method InitLinks(w: World, links: seq<Link>, nBlocks: map<EntityType, int>,
                   within: map<LinkType, real>, between: map<LinkType, real>) returns (ok: bool)
    requires w.Valid()
    modifies w
    ensures ok ==> w.Valid() && OnlyAdds(old(w.g), w.g)
    ensures ok ==> forall e :: e in old(w.g.es) ==> LinkExists(w.g, IdLink(e))
    ensures ok ==> forall k :: 0 <= k < |links| ==> LinkExists(w.g, links[k])
  {
    ghost var g0 := w.g;
    AddIdentityLegs(w);
    ghost var g1 := w.g;
    ConfiguredOk(g1, w.tb, w.rng, links);
    ok := AddConfiguredLinks(w, links);
    if !ok {
      return;
    }
    ghost var g2 := w.g;
    var block := DrawBlocks(w, nBlocks);
    assert OnlyAdds(g2, w.g);
    ghost var order;
    ok, order := BlockLinks(w, within, between, block);
  }
}
