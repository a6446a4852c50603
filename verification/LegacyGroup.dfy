/** All sending ranks of a group in the token-major layouts: together they fill the tokens of the
    receiving rank they share. */
module LegacyGroup {
  import Arith
  import opened CachePlacement
  import opened Copies
  import opened LayoutPlan
  import opened LegacyParser
  import opened RangeCheck
  import opened TokenStream

  /** Workers of the group in rank order, each with its share of a receiving token. */
  predicate Group(ps: seq<Worker>, d: Worker, tables: seq<seq<nat>>, dst: seq<nat>, ntpb: nat, hi: nat) {
    && |ps| == |tables| > 0
    && forall g :: 0 <= g < |ps| ==>
         Shaped(ps[g], ntpb) && d.tokenSize == ps[g].tokenSize * |ps| && TablesCover(tables[g], dst, ntpb, hi)
  }

  predicate Checks(bounds: seq<Bounds>, n: nat) {
    |bounds| == n && forall g :: 0 <= g < n ==> bounds[g].Valid()
  }

  /** Capacities are those of the tensors and block ids lie in them. */
  predicate InTensors(ps: seq<Worker>, d: Worker, tables: seq<seq<nat>>, dst: seq<nat>, bounds: seq<Bounds>)
    requires |ps| == |tables| == |bounds|
  {
    && IdsBelow(dst, d.numBlocks)
    && forall g :: 0 <= g < |ps| ==> bounds[g] == PlainBounds(ps[g], d) && IdsBelow(tables[g], ps[g].numBlocks)
  }

  function Caches(order: KvOrder, ps: seq<Worker>, tables: seq<seq<nat>>, ntpb: nat): (r: seq<Cache>)
    requires |ps| == |tables|
    ensures |r| == |ps| && forall g :: 0 <= g < |ps| ==> r[g] == CacheOf(order, ps[g], tables[g], ntpb)
  {
    seq(|ps|, g requires 0 <= g < |ps| => CacheOf(order, ps[g], tables[g], ntpb))
  }

  /** Every byte of the tokens [lo, hi) of the cache is written once, and nothing else. */
  ghost predicate Filled(outs: seq<seq<IpcBlock>>, d: Cache, lo: nat, hi: nat) {
    forall x: int :: ListWrites(outs, |outs|, x) == if InTokens(d, lo, hi, x) then 1 else 0
  }

  lemma GroupFills(order: KvOrder, ps: seq<Worker>, d: Worker, tables: seq<seq<nat>>, dst: seq<nat>, ntpb: nat, lo: nat,
                   hi: nat, outs: seq<seq<IpcBlock>>)
    requires Group(ps, d, tables, dst, ntpb, hi)
    requires RanksSend(outs, Caches(order, ps, tables, ntpb), CacheOf(order, d, dst, ntpb), lo, hi)
    requires CacheOf(order, d, dst, ntpb).Proper()
    ensures Filled(outs, CacheOf(order, d, dst, ntpb), lo, hi)
  {
    hide RanksSend, InTokens, ListWrites, Cache.Proper, Group;
    GroupSome(ps, d, tables, dst, ntpb, hi);
    forall x: int
      ensures ListWrites(outs, |outs|, x) == if InTokens(CacheOf(order, d, dst, ntpb), lo, hi, x) then 1 else 0
    {
      RanksTileTokens(outs, Caches(order, ps, tables, ntpb), CacheOf(order, d, dst, ntpb), lo, hi, x);
    }
  }

  lemma GroupSome(ps: seq<Worker>, d: Worker, tables: seq<seq<nat>>, dst: seq<nat>, ntpb: nat, hi: nat)
    requires Group(ps, d, tables, dst, ntpb, hi)
    ensures |ps| == |tables| > 0
  {
  }

  /** The list performs the copy of rank g of n. */
  ghost predicate RankSends(out: seq<IpcBlock>, p: Cache, d: Cache, n: nat, g: nat, lo: nat, hi: nat) {
    lo <= hi && d.Covers(hi) && p.Covers(hi) && Sizes(p, d, n, g) && SameCopy(out, SliceRecords(p, d, g, false, lo, hi))
  }

  lemma AllRanksSend(outs: seq<seq<IpcBlock>>, ps: seq<Cache>, d: Cache, lo: nat, hi: nat)
    requires |outs| == |ps| > 0 && forall g :: 0 <= g < |ps| ==> RankSends(outs[g], ps[g], d, |ps|, g, lo, hi)
    ensures RanksSend(outs, ps, d, lo, hi)
  {
    hide SameCopy, SliceRecords, Cache.Covers, Sizes;
    assert RankSends(outs[0], ps[0], d, |ps|, 0, lo, hi);
  }

  lemma RaggedRank(p: Worker, d: Worker, pBlocks: seq<nat>, dBlocks: seq<nat>, n: nat, g: nat, ntpb: nat, lo: nat, hi: nat,
                   out: seq<IpcBlock>)
    requires Shaped(p, ntpb) && d.tokenSize == p.tokenSize * n && g < n && lo <= hi && TablesCover(pBlocks, dBlocks, ntpb, hi)
    requires var k := p.tokenSize / 2;
             var s := SliceStream(pBlocks, dBlocks, ntpb, p.tokenSize, d.tokenSize, g, k, false);
             var v := s.Shifted(k, d.tokenSize / 2);
             s.Covers(hi) && v.Covers(hi) && out == Records(s, lo, hi) + Records(v, lo, hi)
    ensures RankSends(out, CacheOf(Inner, p, pBlocks, ntpb), CacheOf(Inner, d, dBlocks, ntpb), n, g, lo, hi)
  {
    hide SameCopy, Records;
    ScaledSizes(Inner, p, d, pBlocks, dBlocks, n, g, ntpb, hi);
    RaggedSliceStreams(p, d, pBlocks, dBlocks, g, ntpb, false);
    SameCopyReflexive(out);
  }

  lemma FlashRank(p: Worker, d: Worker, src: seq<nat>, dst: seq<nat>, n: nat, g: nat, ntpb: nat, lo: nat, hi: nat,
                  out: seq<IpcBlock>)
    requires Shaped(p, ntpb) && d.tokenSize == p.tokenSize * n && g < n && lo <= hi && TablesCover(src, dst, ntpb, hi)
    requires var k, dk := p.tokenSize / 2, d.tokenSize / 2;
             var s := SliceStream(src, dst, ntpb, k, dk, g, k, false);
             var v := s.Shifted(Arith.Times(ntpb * k, p.numBlocks), Arith.Times(ntpb * dk, d.numBlocks));
             s.Covers(hi) && v.Covers(hi) && out == Records(s, lo, hi) + Records(v, lo, hi)
    ensures RankSends(out, CacheOf(Outermost, p, src, ntpb), CacheOf(Outermost, d, dst, ntpb), n, g, lo, hi)
  {
    hide SameCopy, Records;
    ScaledSizes(Outermost, p, d, src, dst, n, g, ntpb, hi);
    FlashSliceStreams(p, d, src, dst, g, ntpb);
    SameCopyReflexive(out);
  }

  /** Token-major pages: the hand-written parser on every rank of the group. */
  method SendRaggedGroup(ps: seq<Worker>, d: Worker, tables: seq<seq<nat>>, dst: seq<nat>, ghost ntpb: nat, seen: nat,
                         count: nat, bounds: seq<Bounds>)
    returns (ok: bool, outs: seq<seq<IpcBlock>>)
    requires Group(ps, d, tables, dst, ntpb, seen + count) && Checks(bounds, |ps|)
    requires forall g :: 0 <= g < |ps| ==> ps[g].tpRank % |ps| == g
    ensures ok && CacheOf(Inner, d, dst, ntpb).Proper() ==> Filled(outs, CacheOf(Inner, d, dst, ntpb), seen, seen + count)
    ensures Shaped(d, ntpb) && InTensors(ps, d, tables, dst, bounds) ==> ok
  {
    hide RankSends, Filled, Cache.Proper, AllInRange, IdsBelow, PlainBounds, TablesCover, Stream.Covers, AllSliced, Records,
         SliceStream;
    outs, ok := [], true;
    ghost var caches, dc := Caches(Inner, ps, tables, ntpb), CacheOf(Inner, d, dst, ntpb);
    for g := 0 to |ps|
      invariant ok && |outs| == g
      invariant forall i :: 0 <= i < g ==> RankSends(outs[i], caches[i], dc, |ps|, i, seen, seen + count)
    {
      var out;
      ok, out := RaggedSlices(ps[g], d, tables[g], dst, |ps|, ntpb, seen, count, bounds[g], false);
      if Shaped(d, ntpb) && InTensors(ps, d, tables, dst, bounds) {
        RaggedSlicesInRange(ps[g], d, tables[g], dst, |ps|, g, ntpb, seen, seen + count, false);
      }
      if !ok {
        return;
      }
      RaggedRank(ps[g], d, tables[g], dst, |ps|, g, ntpb, seen, seen + count, out);
      outs := outs + [out];
    }
    if dc.Proper() {
      AllRanksSend(outs, caches, dc, seen, seen + count);
      GroupFills(Inner, ps, d, tables, dst, ntpb, seen, seen + count, outs);
    }
  }

  /** K and V in halves of the layer: the hand-written parser on every rank of the group. */
  method SendFlashGroup(ps: seq<Worker>, d: Worker, tables: seq<seq<nat>>, dst: seq<nat>, ghost ntpb: nat, seen: nat,
                        count: nat, bounds: seq<Bounds>)
    returns (ok: bool, outs: seq<seq<IpcBlock>>)
    requires Group(ps, d, tables, dst, ntpb, seen + count) && Checks(bounds, |ps|)
    ensures ok && CacheOf(Outermost, d, dst, ntpb).Proper() ==>
              Filled(outs, CacheOf(Outermost, d, dst, ntpb), seen, seen + count)
    ensures Shaped(d, ntpb) && InTensors(ps, d, tables, dst, bounds) ==> ok
  {
    hide RankSends, Filled, Cache.Proper, AllInRange, IdsBelow, PlainBounds, TablesCover, Stream.Covers, AllSliced, Records,
         SliceStream;
    outs, ok := [], true;
    ghost var caches, dc := Caches(Outermost, ps, tables, ntpb), CacheOf(Outermost, d, dst, ntpb);
    for g := 0 to |ps|
      invariant ok && |outs| == g
      invariant forall i :: 0 <= i < g ==> RankSends(outs[i], caches[i], dc, |ps|, i, seen, seen + count)
    {
      var out;
      ok, out := FlashSlices(ps[g], d, tables[g], dst, g, ntpb, seen, count, bounds[g]);
      if Shaped(d, ntpb) && InTensors(ps, d, tables, dst, bounds) {
        FlashSlicesInRange(ps[g], d, tables[g], dst, |ps|, g, ntpb, seen, seen + count);
      }
      if !ok {
        return;
      }
      FlashRank(ps[g], d, tables[g], dst, |ps|, g, ntpb, seen, seen + count, out);
      outs := outs + [out];
    }
    if dc.Proper() {
      AllRanksSend(outs, caches, dc, seen, seen + count);
      GroupFills(Outermost, ps, d, tables, dst, ntpb, seen, seen + count, outs);
    }
  }

  /** The components built for the ranks of a group do the same, for every order of the dimensions. */
  method GenerateGroup(order: KvOrder, ps: seq<Worker>, d: Worker, tables: seq<seq<nat>>, dst: seq<nat>, ghost ntpb: nat,
                       seen: nat, count: nat)
    returns (outs: seq<seq<IpcBlock>>)
    requires Group(ps, d, tables, dst, ntpb, seen + count) && Shaped(d, ntpb) && (order.Between? ==> |ps| > 1)
    ensures CacheOf(order, d, dst, ntpb).Proper() ==> Filled(outs, CacheOf(order, d, dst, ntpb), seen, seen + count)
  {
    hide RankSends, Filled, Cache.Proper, TablesCover, BuildAttnSpec, PlanRecords, LayoutPlan.Covers;
    outs := [];
    ghost var caches, dc := Caches(order, ps, tables, ntpb), CacheOf(order, d, dst, ntpb);
    for g := 0 to |ps|
      invariant |outs| == g
      invariant forall i :: 0 <= i < g ==> RankSends(outs[i], caches[i], dc, |ps|, i, seen, seen + count)
    {
      var p := ps[g];
      var c := BuildAttnSpec(order, p.blockSize, p.tokenSize, d.blockSize, d.tokenSize, g, p.numBlocks, d.numBlocks);
      SpecIsSlices(order, p, d, |ps|, g, ntpb, tables[g], dst, seen, seen + count);
      var out := GenerateAll([c], tables[g], dst, seen, count);
      SpecRank(order, p, d, |ps|, g, ntpb, tables[g], dst, seen, seen + count, out);
      outs := outs + [out];
    }
    if dc.Proper() {
      AllRanksSend(outs, caches, dc, seen, seen + count);
      GroupFills(order, ps, d, tables, dst, ntpb, seen, seen + count, outs);
    }
  }

  lemma SpecRank(order: KvOrder, p: Worker, d: Worker, n: nat, g: nat, ntpb: nat, src: seq<nat>, dst: seq<nat>, lo: nat,
                 hi: nat, out: seq<IpcBlock>)
    requires Shaped(p, ntpb) && Shaped(d, ntpb) && d.tokenSize == p.tokenSize * n && g < n && (order.Between? ==> n > 1)
    requires lo <= hi && TablesCover(src, dst, ntpb, hi)
    requires var c := BuildAttnSpec(order, p.blockSize, p.tokenSize, d.blockSize, d.tokenSize, g, p.numBlocks, d.numBlocks);
             LayoutPlan.Covers(c, src, dst, hi) && SameCopy(out, PlanRecords([c], src, dst, lo, hi))
    ensures RankSends(out, CacheOf(order, p, src, ntpb), CacheOf(order, d, dst, ntpb), n, g, lo, hi)
  {
    hide SameCopy, PlanRecords, BuildAttnSpec, SliceRecords, TablesCover, LayoutPlan.Covers;
    var c := BuildAttnSpec(order, p.blockSize, p.tokenSize, d.blockSize, d.tokenSize, g, p.numBlocks, d.numBlocks);
    SpecIsSlices(order, p, d, n, g, ntpb, src, dst, lo, hi);
    ScaledSizes(order, p, d, src, dst, n, g, ntpb, hi);
    SameCopyTransitive(out, PlanRecords([c], src, dst, lo, hi),
                       SliceRecords(CacheOf(order, p, src, ntpb), CacheOf(order, d, dst, ntpb), g, false, lo, hi));
  }
}
