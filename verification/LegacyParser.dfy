/** The legacy parsers of the token-major layouts. */
module LegacyParser {
  import opened Arith
  import opened CachePlacement
  import opened Copies
  import opened RangeCheck
  import opened TokenStream

  /** One run of equal tensor-parallel sending: the tokens from w to the end of its page. */
  method EmitRun(blocks: seq<IpcBlock>, s: Stream, w: nat, left: nat, bounds: Bounds)
    returns (ok: bool, out: seq<IpcBlock>, tokens: nat)
    requires bounds.Valid() && Contiguous(s) && left > 0 && s.Covers(w + left)
    ensures 0 < tokens <= left && s.Covers(w + tokens)
    ensures ok ==> exists b :: out == blocks + [b] && InRange(bounds, b) && SameCopy([b], Records(s, w, w + tokens))
    ensures !ok ==> out == blocks
    ensures bounds.srcScale == 1 ==> (ok <==> AllInRange(bounds, Records(s, w, w + tokens)))
  {
    hide SameCopy, Records, InRange, AllInRange, Page, Slot, Side.At;
    var n := s.src.ntpb;
    Held(s, w + left, w);
    tokens := Min(n - Slot(w, n), left);
    CoversLess(s, w + tokens, w + left);
    PageRun(s, w, tokens);
    var b := IpcBlock(s.src.At(w), s.dst.At(w), tokens * s.bytes);
    RunIsOneBlock(b.src, b.dst, s.bytes, tokens);
    SameCopySymmetric(Records(s, w, w + tokens), [b]);
    if bounds.srcScale == 1 {
      RunInRange(bounds, b.src, b.dst, s.bytes, tokens);
    }
    ok, out := AppendIpcBlockChecked(blocks, bounds, b.src, b.dst, b.len);
  }

  lemma SameCopyExtends(a: seq<IpcBlock>, b: IpcBlock, s: Stream, lo: nat, w: nat, hi: nat)
    requires lo <= w <= hi && s.Covers(hi) && s.Covers(w)
    requires SameCopy(a, Records(s, lo, w)) && SameCopy([b], Records(s, w, hi))
    ensures SameCopy(a + [b], Records(s, lo, hi))
  {
    hide *;
    SameCopyConcat(a, Records(s, lo, w), [b], Records(s, w, hi));
    RecordsSplit(s, lo, w, hi);
  }

  lemma RangeExtends(bounds: Bounds, s: Stream, lo: nat, w: nat, hi: nat)
    requires lo <= w <= hi && s.Covers(hi) && s.Covers(w)
    ensures AllInRange(bounds, Records(s, lo, hi)) <==> AllInRange(bounds, Records(s, lo, w)) && AllInRange(bounds, Records(s, w, hi))
  {
    hide *;
    RecordsSplit(s, lo, w, hi);
    AllInRangeConcat(bounds, Records(s, lo, w), Records(s, w, hi));
  }

  lemma NoRecords(bounds: Bounds, s: Stream, lo: nat)
    requires s.Covers(lo)
    ensures Records(s, lo, lo) == [] && AllInRange(bounds, [])
  {
  }

  lemma RangeOne(bounds: Bounds, a: seq<IpcBlock>, b: IpcBlock)
    requires AllInRange(bounds, a) && InRange(bounds, b)
    ensures AllInRange(bounds, a + [b])
  {
  }

  /** Equal sides: runs of whole tokens, cut at page boundaries. */
  method ParseEqual(blocks: seq<IpcBlock>, s: Stream, seen: nat, count: nat, bounds: Bounds)
    returns (ok: bool, out: seq<IpcBlock>)
    requires bounds.Valid() && Contiguous(s) && s.Covers(seen + count)
    ensures |out| >= |blocks| && out[..|blocks|] == blocks
    ensures ok ==> AllInRange(bounds, out[|blocks|..]) && SameCopy(out[|blocks|..], Records(s, seen, seen + count))
    ensures bounds.srcScale == 1 ==> (ok <==> AllInRange(bounds, Records(s, seen, seen + count)))
  {
    hide *;
    var wrote, left := seen, count;
    out, ok := blocks, true;
    CoversLess(s, seen, seen + count);
    NoRecords(bounds, s, seen);
    SameCopyReflexive([]);
    ghost var sent: seq<IpcBlock> := [];
    while left > 0
      invariant wrote + left == seen + count && seen <= wrote && s.Covers(wrote) && ok
      invariant out == blocks + sent && AllInRange(bounds, sent) && SameCopy(sent, Records(s, seen, wrote))
      invariant bounds.srcScale == 1 ==> AllInRange(bounds, Records(s, seen, wrote))
    {
      var tokens;
      ghost var was := out;
      ok, out, tokens := EmitRun(out, s, wrote, left, bounds);
      CoversLess(s, wrote + tokens, seen + count);
      RangeExtends(bounds, s, seen, wrote, wrote + tokens);
      RangeExtends(bounds, s, seen, wrote + tokens, seen + count);
      if !ok {
        return;
      }
      ghost var b :| out == was + [b] && InRange(bounds, b) && SameCopy([b], Records(s, wrote, wrote + tokens));
      RangeOne(bounds, sent, b);
      SameCopyExtends(sent, b, s, seen, wrote, wrote + tokens);
      sent := sent + [b];
      wrote := wrote + tokens;
      left := left - tokens;
    }
  }

  /** The narrow side p holds one slice of each token of the wide side d: group slice `groupOff`
      of `bytes` bytes. Swapped, the records go from d to p. */
  function SliceStream(p: seq<nat>, d: seq<nat>, ntpb: nat, pToken: nat, dToken: nat, groupOff: nat, bytes: nat,
                       swap: bool): Stream {
    var narrow := Side(p, ntpb, Times(pToken, ntpb), pToken, 0);
    var wide := Side(d, ntpb, Times(dToken, ntpb), dToken, Times(groupOff, bytes));
    if swap then Stream(wide, narrow, bytes) else Stream(narrow, wide, bytes)
  }

  /** One token of a page. */
  lemma TokenOfPage(x: Side, w: nat, i: nat)
    requires x.ntpb > 0 && Slot(w, x.ntpb) + i < x.ntpb && Page(w, x.ntpb) < |x.blocks|
    ensures Page(w + i, x.ntpb) == Page(w, x.ntpb)
    ensures x.At(w + i) == Times(x.blocks[Page(w, x.ntpb)], x.stride) + Times(Slot(w, x.ntpb) + i, x.token) + x.offset
  {
    hide Slot, Page;
    StepTo(w, i, x.ntpb);
  }

  /** The tokens of one page, one record each. */
  method EmitTokens(blocks: seq<IpcBlock>, s: Stream, w: nat, tokens: nat, bounds: Bounds)
    returns (ok: bool, out: seq<IpcBlock>)
    requires bounds.Valid() && s.src.ntpb == s.dst.ntpb > 0 && s.Covers(w + tokens)
    requires tokens > 0 && Slot(w, s.src.ntpb) + tokens <= s.src.ntpb
    ensures ok <==> AllInRange(bounds, Records(s, w, w + tokens))
    ensures ok ==> out == blocks + Records(s, w, w + tokens)
  {
    hide Slot, Page, Records, InRange, AllInRange, Side.At, Side.Covers;
    var n := s.src.ntpb;
    Held(s, w + tokens, w);
    var page, slot := Page(w, n), Slot(w, n);
    var srcPage, dstPage := Times(s.src.blocks[page], s.src.stride), Times(s.dst.blocks[page], s.dst.stride);
    out, ok := blocks, true;
    CoversLess(s, w, w + tokens);
    NoRecords(bounds, s, w);
    for i := 0 to tokens
      invariant s.Covers(w + i) && out == blocks + Records(s, w, w + i) && ok
      invariant AllInRange(bounds, Records(s, w, w + i))
    {
      var srcOff := srcPage + Times(slot + i, s.src.token) + s.src.offset;
      var dstOff := dstPage + Times(slot + i, s.dst.token) + s.dst.offset;
      assert s.Has(w + i) && s.At(w + i) == IpcBlock(srcOff, dstOff, s.bytes) by {
        TokenOfPage(s.src, w, i);
        TokenOfPage(s.dst, w, i);
      }
      CoversLess(s, w + i + 1, w + tokens);
      OneMore(bounds, s, w, w + i);
      RangeExtends(bounds, s, w, w + i + 1, w + tokens);
      ok, out := AppendIpcBlockChecked(out, bounds, srcOff, dstOff, s.bytes);
      if !ok {
        return;
      }
    }
  }

  lemma OneMore(bounds: Bounds, s: Stream, lo: nat, w: nat)
    requires lo <= w && s.Covers(w + 1) && s.Covers(w) && s.Has(w)
    ensures Records(s, lo, w + 1) == Records(s, lo, w) + [s.At(w)]
    ensures AllInRange(bounds, Records(s, lo, w + 1)) <==> AllInRange(bounds, Records(s, lo, w)) && InRange(bounds, s.At(w))
  {
    hide Slot, Page, InRange, Side.At, Side.Covers;
    AllInRangeConcat(bounds, Records(s, lo, w), [s.At(w)]);
  }

  /** Different tensor-parallel sizes: one record per token. */
  method ParseSlices(blocks: seq<IpcBlock>, s: Stream, seen: nat, count: nat, bounds: Bounds)
    returns (ok: bool, out: seq<IpcBlock>)
    requires bounds.Valid() && s.src.ntpb == s.dst.ntpb > 0 && s.Covers(seen + count)
    ensures ok <==> AllInRange(bounds, Records(s, seen, seen + count))
    ensures ok ==> out == blocks + Records(s, seen, seen + count)
  {
    hide Slot, Page, Records, InRange, AllInRange, Side.At, Side.Covers;
    var wrote, left := seen, count;
    var n := s.src.ntpb;
    out, ok := blocks, true;
    CoversLess(s, seen, seen + count);
    NoRecords(bounds, s, seen);
    while left > 0
      invariant wrote + left == seen + count && seen <= wrote && s.Covers(wrote) && ok
      invariant out == blocks + Records(s, seen, wrote) && AllInRange(bounds, Records(s, seen, wrote))
    {
      var tokens := Min(n - Slot(wrote, n), left);
      CoversLess(s, wrote + tokens, seen + count);
      RangeExtends(bounds, s, seen, wrote, wrote + tokens);
      RangeExtends(bounds, s, seen, wrote + tokens, seen + count);
      RecordsSplit(s, seen, wrote, wrote + tokens);
      ok, out := EmitTokens(out, s, wrote, tokens, bounds);
      if !ok {
        return;
      }
      wrote := wrote + tokens;
      left := left - tokens;
    }
  }

  // ---------------------------------------------------------------------------
  // The second pass: V records from K records
  // ---------------------------------------------------------------------------

  function ShiftAll(bs: seq<IpcBlock>, x: nat, y: nat): (r: seq<IpcBlock>)
    ensures |r| == |bs| && forall i :: 0 <= i < |bs| ==> r[i] == IpcBlock(bs[i].src + x, bs[i].dst + y, bs[i].len)
  {
    seq(|bs|, i requires 0 <= i < |bs| => IpcBlock(bs[i].src + x, bs[i].dst + y, bs[i].len))
  }

  lemma ShiftedCovers(s: Stream, x: nat, y: nat, hi: nat)
    requires s.Covers(hi)
    ensures s.Shifted(x, y).Covers(hi)
  {
  }

  lemma {:induction false} ShiftRecords(s: Stream, lo: nat, hi: nat, x: nat, y: nat)
    requires lo <= hi && s.Covers(hi)
    ensures s.Shifted(x, y).Covers(hi)
    ensures ShiftAll(Records(s, lo, hi), x, y) == Records(s.Shifted(x, y), lo, hi)
    decreases hi
  {
    hide Stream.At, Stream.Has, Stream.Covers, Stream.Shifted;
    ShiftedCovers(s, x, y, hi);
    if lo < hi {
      Held(s, hi, hi - 1);
      CoversLess(s, hi - 1, hi);
      ShiftRecords(s, lo, hi - 1, x, y);
      ShiftedAt(s, x, y, hi - 1);
      ShiftBytes(s, hi - 1);
    }
  }

  lemma ShiftBytes(s: Stream, w: nat)
    requires s.Has(w)
    ensures s.At(w).len == s.bytes
  {
  }

  lemma {:induction false} ShiftCount(bs: seq<IpcBlock>, n: nat, x: nat, y: nat, s: int, d: int)
    requires n <= |bs|
    ensures CountTo(ShiftAll(bs, x, y), n, s, d) == CountTo(bs, n, s - x, d - y)
  {
    if n > 0 { ShiftCount(bs, n - 1, x, y, s, d); }
  }

  lemma ShiftSameCopy(a: seq<IpcBlock>, b: seq<IpcBlock>, x: nat, y: nat)
    requires SameCopy(a, b)
    ensures SameCopy(ShiftAll(a, x, y), ShiftAll(b, x, y))
  {
    forall s: int, d: int ensures Count(ShiftAll(a, x, y), s, d) == Count(ShiftAll(b, x, y), s, d) {
      ShiftCount(a, |a|, x, y, s, d);
      ShiftCount(b, |b|, x, y, s, d);
      assert Count(a, s - x, d - y) == Count(b, s - x, d - y);
    }
  }

  /** Appends every record from index `from` on once more, shifted. */
  method RepeatShifted(blocks: seq<IpcBlock>, from: nat, x: nat, y: nat, bounds: Bounds)
    returns (ok: bool, out: seq<IpcBlock>)
    requires bounds.Valid() && from <= |blocks|
    ensures ok <==> AllInRange(bounds, ShiftAll(blocks[from..], x, y))
    ensures ok ==> out == blocks + ShiftAll(blocks[from..], x, y)
  {
    hide InRange;
    out, ok := blocks, true;
    ghost var shifted := ShiftAll(blocks[from..], x, y);
    for i := from to |blocks|
      invariant ok && out == blocks + shifted[..i - from] && AllInRange(bounds, shifted[..i - from])
    {
      assert out[i] == blocks[i] == blocks[from..][i - from];
      var b := out[i];
      assert shifted[..i + 1 - from] == shifted[..i - from] + [shifted[i - from]];
      ok, out := AppendIpcBlockChecked(out, bounds, b.src + x, b.dst + y, b.len);
      if !ok {
        assert shifted[i - from] in shifted;
        return;
      }
    }
    assert shifted[..|blocks| - from] == shifted;
  }

  // ---------------------------------------------------------------------------
  // The entry points
  // ---------------------------------------------------------------------------

  /** What a worker says about its cache: bytes per token and per page, pages per layer. */
  datatype Worker = Worker(tokenSize: nat, blockSize: nat, numBlocks: nat, tpRank: nat, engineTp: nat)

  /** Pages hold `ntpb` whole tokens, and a token has a K half and a V half. */
  predicate Shaped(w: Worker, ntpb: nat) {
    ntpb > 0 && w.tokenSize > 0 && w.tokenSize % 2 == 0 && w.blockSize == ntpb * w.tokenSize
  }

  function EqualStream(src: seq<nat>, dst: seq<nat>, ntpb: nat, block: nat, token: nat): Stream {
    Stream(Side(src, ntpb, block, token, 0), Side(dst, ntpb, block, token, 0), token)
  }

  /** A request's blocks hold its tokens on both sides. */
  predicate TablesCover(src: seq<nat>, dst: seq<nat>, ntpb: nat, hi: nat) {
    hi <= Times(|src|, ntpb) && hi <= Times(|dst|, ntpb)
  }

  lemma HalfPage(w: Worker, ntpb: nat)
    requires Shaped(w, ntpb)
    ensures w.blockSize / w.tokenSize == ntpb
    ensures var k := w.tokenSize / 2;
            && k > 0 && w.tokenSize == 2 * k && w.blockSize == 2 * (ntpb * k)
            && w.blockSize / 2 == ntpb * k && (w.blockSize / 2) / k == ntpb
  {
    DivMod0(ntpb, w.tokenSize);
    var k := w.tokenSize / 2;
    assert ntpb * (2 * k) == 2 * (ntpb * k);
    DivMod0(ntpb, k);
  }

  /** The cache a worker describes, through a block table. */
  function CacheOf(order: KvOrder, w: Worker, ids: seq<nat>, ntpb: nat): Cache {
    Cache(order, ids, ntpb, w.tokenSize / 2, w.numBlocks)
  }

  lemma RaggedSliceStreams(p: Worker, d: Worker, pBlocks: seq<nat>, dBlocks: seq<nat>, g: nat, ntpb: nat, swap: bool)
    requires Shaped(p, ntpb) && d.tokenSize % 2 == 0
    ensures var pc, dc := CacheOf(Inner, p, pBlocks, ntpb), CacheOf(Inner, d, dBlocks, ntpb);
            var k, dk := p.tokenSize / 2, d.tokenSize / 2;
            var s := SliceStream(pBlocks, dBlocks, ntpb, p.tokenSize, d.tokenSize, g, k, swap);
            && s == SliceOf(pc, dc, g, swap, false)
            && (if swap then s.Shifted(dk, k) else s.Shifted(k, dk)) == SliceOf(pc, dc, g, swap, true)
  {
  }

  lemma FlashSliceStreams(p: Worker, d: Worker, src: seq<nat>, dst: seq<nat>, g: nat, ntpb: nat)
    requires Shaped(p, ntpb)
    ensures var pc, dc := CacheOf(Outermost, p, src, ntpb), CacheOf(Outermost, d, dst, ntpb);
            var k, dk := p.tokenSize / 2, d.tokenSize / 2;
            var s := SliceStream(src, dst, ntpb, k, dk, g, k, false);
            && s == SliceOf(pc, dc, g, false, false)
            && s.Shifted(Times(ntpb * k, p.numBlocks), Times(ntpb * dk, d.numBlocks)) == SliceOf(pc, dc, g, false, true)
  {
  }

  lemma ScaledSizes(order: KvOrder, p: Worker, d: Worker, src: seq<nat>, dst: seq<nat>, n: nat, g: nat, ntpb: nat, hi: nat)
    requires Shaped(p, ntpb) && d.tokenSize == p.tokenSize * n && g < n && TablesCover(src, dst, ntpb, hi)
    ensures var pc, dc := CacheOf(order, p, src, ntpb), CacheOf(order, d, dst, ntpb);
            pc.Covers(hi) && dc.Covers(hi) && Sizes(pc, dc, n, g) && d.tokenSize % 2 == 0
  {
    HalvesScale(p, d, n);
    MulMono(1, n, p.tokenSize / 2);
  }

  /** Token-major pages (K and V of a token adjacent), equal tensor-parallel sizes. */
  method RaggedEqual(w: Worker, src: seq<nat>, dst: seq<nat>, ghost ntpb: nat, seen: nat, count: nat, bounds: Bounds)
    returns (ok: bool, out: seq<IpcBlock>)
    requires bounds.Valid() && Shaped(w, ntpb) && TablesCover(src, dst, ntpb, seen + count)
    ensures var s := EqualStream(src, dst, ntpb, w.blockSize, w.tokenSize);
            && s.Covers(seen + count) && (ok ==> SameCopy(out, Records(s, seen, seen + count)))
            && (bounds.srcScale == 1 ==> (ok <==> AllInRange(bounds, Records(s, seen, seen + count))))
    ensures var pc, dc := CacheOf(Inner, w, src, ntpb), CacheOf(Inner, w, dst, ntpb);
            ok && dc.Proper() ==> AllSliced(out, pc, dc, 0, false, seen, seen + count)
  {
    hide SameCopy, Records, AllInRange, AllSliced, Cache.Proper, SliceRecords;
    HalfPage(w, ntpb);
    var n := w.blockSize / w.tokenSize;
    ok, out := ParseEqual([], EqualStream(src, dst, n, w.blockSize, w.tokenSize), seen, count, bounds);
    assert out[0..] == out;
    ghost var pc, dc := CacheOf(Inner, w, src, ntpb), CacheOf(Inner, w, dst, ntpb);
    if ok && dc.Proper() {
      EqualPlaced(w, w, src, dst, ntpb, seen, seen + count, out);
    }
  }

  lemma EqualIsSlices(p: Worker, d: Worker, src: seq<nat>, dst: seq<nat>, ntpb: nat, lo: nat, hi: nat)
    requires Shaped(p, ntpb) && d.tokenSize == p.tokenSize && lo <= hi && TablesCover(src, dst, ntpb, hi)
    ensures var pc, dc := CacheOf(Inner, p, src, ntpb), CacheOf(Inner, d, dst, ntpb);
            var whole := EqualStream(src, dst, ntpb, p.blockSize, p.tokenSize);
            && pc.Covers(hi) && dc.Covers(hi) && whole.Covers(hi)
            && SameCopy(Records(whole, lo, hi), SliceRecords(pc, dc, 0, false, lo, hi))
  {
    hide SameCopy, Records, SliceRecords;
    var pc, dc := CacheOf(Inner, p, src, ntpb), CacheOf(Inner, d, dst, ntpb);
    ScaledSizes(Inner, p, d, src, dst, 1, 0, ntpb, hi);
    WholeIsSlices(pc, dc, lo, hi);
    assert EqualStream(src, dst, ntpb, p.blockSize, p.tokenSize)
        == Stream(pc.SideAt(false, 0), dc.SideAt(false, 0), 2 * pc.half);
  }

  /** Whole tokens put every byte in its place. */
  lemma EqualPlaced(p: Worker, d: Worker, src: seq<nat>, dst: seq<nat>, ntpb: nat, lo: nat, hi: nat, out: seq<IpcBlock>)
    requires Shaped(p, ntpb) && d.tokenSize == p.tokenSize && lo <= hi && TablesCover(src, dst, ntpb, hi)
    requires CacheOf(Inner, d, dst, ntpb).Proper() && EqualStream(src, dst, ntpb, p.blockSize, p.tokenSize).Covers(hi)
    requires SameCopy(out, Records(EqualStream(src, dst, ntpb, p.blockSize, p.tokenSize), lo, hi))
    ensures AllSliced(out, CacheOf(Inner, p, src, ntpb), CacheOf(Inner, d, dst, ntpb), 0, false, lo, hi)
  {
    hide SameCopy, Records, AllSliced, Cache.Proper, SliceRecords, EqualStream;
    var pc, dc := CacheOf(Inner, p, src, ntpb), CacheOf(Inner, d, dst, ntpb);
    ScaledSizes(Inner, p, d, src, dst, 1, 0, ntpb, hi);
    EqualIsSlices(p, d, src, dst, ntpb, lo, hi);
    SameCopyTransitive(out, Records(EqualStream(src, dst, ntpb, p.blockSize, p.tokenSize), lo, hi),
                       SliceRecords(pc, dc, 0, false, lo, hi));
    AllSlicesPlaced(pc, dc, 1, 0, false, lo, hi, out);
  }

  /** K and V in separate halves of the layer, equal tensor-parallel sizes: the K runs, then the
      same runs shifted into the V half of either side. */
  method FlashEqual(p: Worker, d: Worker, src: seq<nat>, dst: seq<nat>, ghost ntpb: nat, seen: nat, count: nat,
                    bounds: Bounds)
    returns (ok: bool, out: seq<IpcBlock>)
    requires bounds.Valid() && Shaped(p, ntpb) && TablesCover(src, dst, ntpb, seen + count)
    requires p.tokenSize == d.tokenSize && p.blockSize == d.blockSize
    ensures var k := p.tokenSize / 2;
            var s := EqualStream(src, dst, ntpb, ntpb * k, k);
            var v := s.Shifted(Times(ntpb * k, p.numBlocks), Times(ntpb * k, d.numBlocks));
            s.Covers(seen + count) && v.Covers(seen + count)
            && (ok ==> SameCopy(out, Records(s, seen, seen + count) + Records(v, seen, seen + count)))
            && (bounds.srcScale == 1 ==>
                  (ok <==> AllInRange(bounds, Records(s, seen, seen + count)) && AllInRange(bounds, Records(v, seen, seen + count))))
    ensures var pc, dc := CacheOf(Outermost, p, src, ntpb), CacheOf(Outermost, d, dst, ntpb);
            ok && dc.Proper() ==> AllSliced(out, pc, dc, 0, false, seen, seen + count)
  {
    hide SameCopy, Records, AllInRange, Times, AllSliced, Cache.Proper;
    HalfPage(p, ntpb);
    var kToken, kBlock := p.tokenSize / 2, p.blockSize / 2;
    var s := EqualStream(src, dst, kBlock / kToken, kBlock, kToken);
    var x, y := Times(kBlock, p.numBlocks), Times(kBlock, d.numBlocks);
    ok, out := ParseEqual([], s, seen, count, bounds);
    ShiftedCovers(s, x, y, seen + count);
    if !ok {
      return;
    }
    ghost var ks := out;
    assert ks[0..] == ks;
    ok, out := RepeatShifted(out, 0, x, y, bounds);
    ShiftSameCopy(ks, Records(s, seen, seen + count), x, y);
    ShiftRecords(s, seen, seen + count, x, y);
    if bounds.srcScale == 1 {
      ShiftRange(bounds, ks, s, seen, seen + count, x, y);
    }
    if ok {
      SameCopyConcat(ks, Records(s, seen, seen + count), ShiftAll(ks, x, y), Records(s.Shifted(x, y), seen, seen + count));
      ghost var dc := CacheOf(Outermost, d, dst, ntpb);
      if dc.Proper() {
        assert s == SliceStream(src, dst, ntpb, kToken, kToken, 0, kToken, false) by { HalvesAreSlices(src, dst, ntpb, kToken); }
        FlashPlaced(p, d, src, dst, 1, 0, ntpb, seen, seen + count, out);
      }
    }
  }

  lemma HalvesAreSlices(src: seq<nat>, dst: seq<nat>, ntpb: nat, k: nat)
    ensures EqualStream(src, dst, ntpb, ntpb * k, k) == SliceStream(src, dst, ntpb, k, k, 0, k, false)
  {
  }

  /** The slices of K and V halves of a layer put every byte in its place. */
  lemma FlashPlaced(p: Worker, d: Worker, src: seq<nat>, dst: seq<nat>, n: nat, g: nat, ntpb: nat, lo: nat, hi: nat,
                    out: seq<IpcBlock>)
    requires Shaped(p, ntpb) && d.tokenSize == p.tokenSize * n && g < n && lo <= hi && TablesCover(src, dst, ntpb, hi)
    requires var k, dk := p.tokenSize / 2, d.tokenSize / 2;
             var s := SliceStream(src, dst, ntpb, k, dk, g, k, false);
             var v := s.Shifted(Times(ntpb * k, p.numBlocks), Times(ntpb * dk, d.numBlocks));
             && s.Covers(hi) && v.Covers(hi) && SameCopy(out, Records(s, lo, hi) + Records(v, lo, hi))
    requires CacheOf(Outermost, d, dst, ntpb).Proper()
    ensures AllSliced(out, CacheOf(Outermost, p, src, ntpb), CacheOf(Outermost, d, dst, ntpb), g, false, lo, hi)
  {
    hide SameCopy, Records, AllSliced, Cache.Proper, Times, Stream.Covers, SliceStream;
    FlashSliceStreams(p, d, src, dst, g, ntpb);
    ScaledSizes(Outermost, p, d, src, dst, n, g, ntpb, hi);
    AllSlicesPlaced(CacheOf(Outermost, p, src, ntpb), CacheOf(Outermost, d, dst, ntpb), n, g, false, lo, hi, out);
  }

  lemma RaggedPlaced(p: Worker, d: Worker, pBlocks: seq<nat>, dBlocks: seq<nat>, n: nat, g: nat, ntpb: nat, lo: nat,
                     hi: nat, swap: bool, out: seq<IpcBlock>)
    requires Shaped(p, ntpb) && d.tokenSize == p.tokenSize * n && g < n && lo <= hi && TablesCover(pBlocks, dBlocks, ntpb, hi)
    requires var k, dk := p.tokenSize / 2, d.tokenSize / 2;
             var s := SliceStream(pBlocks, dBlocks, ntpb, p.tokenSize, d.tokenSize, g, k, swap);
             var v := if swap then s.Shifted(dk, k) else s.Shifted(k, dk);
             && s.Covers(hi) && v.Covers(hi) && SameCopy(out, Records(s, lo, hi) + Records(v, lo, hi))
    requires if swap then CacheOf(Inner, p, pBlocks, ntpb).Proper() else CacheOf(Inner, d, dBlocks, ntpb).Proper()
    ensures AllSliced(out, CacheOf(Inner, p, pBlocks, ntpb), CacheOf(Inner, d, dBlocks, ntpb), g, swap, lo, hi)
  {
    hide SameCopy, Records, AllSliced, Cache.Proper, Times, Stream.Covers, SliceStream;
    ScaledSizes(Inner, p, d, pBlocks, dBlocks, n, g, ntpb, hi);
    RaggedSliceStreams(p, d, pBlocks, dBlocks, g, ntpb, swap);
    AllSlicesPlaced(CacheOf(Inner, p, pBlocks, ntpb), CacheOf(Inner, d, dBlocks, ntpb), n, g, swap, lo, hi, out);
  }

  lemma NonEmpty(bounds: Bounds, bs: seq<IpcBlock>)
    requires AllInRange(bounds, bs)
    ensures forall i :: 0 <= i < |bs| ==> bs[i].len > 0
  {
    hide InRange;
    forall i | 0 <= i < |bs| ensures bs[i].len > 0 {
      LenPositive(bounds, bs[i]);
    }
  }

  lemma LenPositive(bounds: Bounds, b: IpcBlock)
    requires InRange(bounds, b)
    ensures b.len > 0
  {
  }

  lemma RecordsLength(s: Stream, lo: nat, hi: nat)
    requires lo <= hi && s.Covers(hi) && s.bytes > 0
    ensures forall i :: 0 <= i < |Records(s, lo, hi)| ==> Records(s, lo, hi)[i].len > 0
  {
    hide Records, Stream.Covers, Side.At;
    forall i | 0 <= i < |Records(s, lo, hi)| ensures Records(s, lo, hi)[i].len > 0 {
      RecordsCount(s, lo, hi);
      RecordsAt(s, lo, hi, i);
    }
  }

  lemma {:induction false} RecordsCount(s: Stream, lo: nat, hi: nat)
    requires lo <= hi && s.Covers(hi)
    ensures |Records(s, lo, hi)| == hi - lo
    decreases hi
  {
    hide Stream.Covers, Stream.At, Stream.Has;
    if lo < hi {
      CoversLess(s, hi - 1, hi);
      RecordsCount(s, lo, hi - 1);
    }
  }

  /** The shifted runs are in range exactly when the shifted tokens are. */
  lemma ShiftRange(bounds: Bounds, ks: seq<IpcBlock>, s: Stream, lo: nat, hi: nat, x: nat, y: nat)
    requires bounds.srcScale == 1 && lo <= hi && s.Covers(hi) && s.bytes > 0
    requires SameCopy(ks, Records(s, lo, hi)) && AllInRange(bounds, ks)
    ensures s.Shifted(x, y).Covers(hi)
    ensures AllInRange(bounds, ShiftAll(ks, x, y)) <==> AllInRange(bounds, Records(s.Shifted(x, y), lo, hi))
  {
    hide SameCopy, Records, AllInRange, Times, Stream.Covers;
    var r := Records(s, lo, hi);
    ShiftSameCopy(ks, r, x, y);
    ShiftRecords(s, lo, hi, x, y);
    NonEmpty(bounds, ks);
    RecordsLength(s, lo, hi);
    SameCopySymmetric(ShiftAll(ks, x, y), ShiftAll(r, x, y));
    if AllInRange(bounds, ShiftAll(ks, x, y)) {
      CopyInRange(bounds, ShiftAll(r, x, y), ShiftAll(ks, x, y));
    }
    if AllInRange(bounds, ShiftAll(r, x, y)) {
      CopyInRange(bounds, ShiftAll(ks, x, y), ShiftAll(r, x, y));
    }
  }

  /** Token-major pages, one side with more ranks: rank slices of K, then of V. */
  method RaggedSlices(p: Worker, d: Worker, pBlocks: seq<nat>, dBlocks: seq<nat>, groupN: nat, ghost ntpb: nat,
                      seen: nat, count: nat, bounds: Bounds, swap: bool)
    returns (ok: bool, out: seq<IpcBlock>)
    requires bounds.Valid() && Shaped(p, ntpb) && groupN > 0 && TablesCover(pBlocks, dBlocks, ntpb, seen + count)
    requires d.tokenSize == p.tokenSize * groupN
    ensures var k, g := p.tokenSize / 2, p.tpRank % groupN;
            var s := SliceStream(pBlocks, dBlocks, ntpb, p.tokenSize, d.tokenSize, g, k, swap);
            var v := if swap then s.Shifted(d.tokenSize / 2, k) else s.Shifted(k, d.tokenSize / 2);
            s.Covers(seen + count) && v.Covers(seen + count)
            && (ok <==> AllInRange(bounds, Records(s, seen, seen + count)) && AllInRange(bounds, Records(v, seen, seen + count)))
            && (ok ==> out == Records(s, seen, seen + count) + Records(v, seen, seen + count))
    ensures var pc, dc := CacheOf(Inner, p, pBlocks, ntpb), CacheOf(Inner, d, dBlocks, ntpb);
            ok && (if swap then pc.Proper() else dc.Proper()) ==>
              AllSliced(out, pc, dc, p.tpRank % groupN, swap, seen, seen + count)
  {
    hide Records, AllInRange, Times, SameCopy, AllSliced, Cache.Proper;
    HalfPage(p, ntpb);
    var n, k, dk := p.blockSize / p.tokenSize, p.tokenSize / 2, d.tokenSize / 2;
    var s := SliceStream(pBlocks, dBlocks, n, p.tokenSize, d.tokenSize, p.tpRank % groupN, k, swap);
    ok, out := ParseSlices([], s, seen, count, bounds);
    var x, y := if swap then dk else k, if swap then k else dk;
    ShiftedCovers(s, x, y, seen + count);
    if !ok {
      return;
    }
    assert out[0..] == out == Records(s, seen, seen + count);
    ShiftRecords(s, seen, seen + count, x, y);
    ok, out := RepeatShifted(out, 0, x, y, bounds);
    ghost var pc, dc := CacheOf(Inner, p, pBlocks, ntpb), CacheOf(Inner, d, dBlocks, ntpb);
    if ok && (if swap then pc.Proper() else dc.Proper()) {
      SameCopyReflexive(out);
      RaggedPlaced(p, d, pBlocks, dBlocks, groupN, p.tpRank % groupN, ntpb, seen, seen + count, swap, out);
    }
  }

  /** K and V in separate halves of the layer, more sending ranks. */
  method FlashSlices(p: Worker, d: Worker, src: seq<nat>, dst: seq<nat>, groupOff: nat, ghost ntpb: nat,
                     seen: nat, count: nat, bounds: Bounds)
    returns (ok: bool, out: seq<IpcBlock>)
    requires bounds.Valid() && Shaped(p, ntpb) && TablesCover(src, dst, ntpb, seen + count)
    ensures var k, dk := p.tokenSize / 2, d.tokenSize / 2;
            var s := SliceStream(src, dst, ntpb, k, dk, groupOff, k, false);
            var v := s.Shifted(Times(ntpb * k, p.numBlocks), Times(ntpb * dk, d.numBlocks));
            s.Covers(seen + count) && v.Covers(seen + count)
            && (ok <==> AllInRange(bounds, Records(s, seen, seen + count)) && AllInRange(bounds, Records(v, seen, seen + count)))
            && (ok ==> out == Records(s, seen, seen + count) + Records(v, seen, seen + count))
    ensures var pc, dc := CacheOf(Outermost, p, src, ntpb), CacheOf(Outermost, d, dst, ntpb);
            ok && dc.Proper() && d.tokenSize % p.tokenSize == 0 && groupOff < d.tokenSize / p.tokenSize ==>
              AllSliced(out, pc, dc, groupOff, false, seen, seen + count)
  {
    hide Records, AllInRange, Times, SameCopy, AllSliced, Cache.Proper;
    HalfPage(p, ntpb);
    var n, k, dk := p.blockSize / p.tokenSize, p.tokenSize / 2, d.tokenSize / 2;
    var s := SliceStream(src, dst, n, k, dk, groupOff, k, false);
    ok, out := ParseSlices([], s, seen, count, bounds);
    var x, y := Times(n * k, p.numBlocks), Times(n * dk, d.numBlocks);
    ShiftedCovers(s, x, y, seen + count);
    if !ok {
      return;
    }
    assert out[0..] == out == Records(s, seen, seen + count);
    ShiftRecords(s, seen, seen + count, x, y);
    ok, out := RepeatShifted(out, 0, x, y, bounds);
    ghost var dc, groupN := CacheOf(Outermost, d, dst, ntpb), d.tokenSize / p.tokenSize;
    if ok && dc.Proper() && d.tokenSize % p.tokenSize == 0 && groupOff < groupN {
      SameCopyReflexive(out);
      assert d.tokenSize == p.tokenSize * groupN;
      FlashPlaced(p, d, src, dst, groupN, groupOff, ntpb, seen, seen + count, out);
    }
  }

  // ---------------------------------------------------------------------------
  // The parsers stay inside the tensors
  // ---------------------------------------------------------------------------

  /** Pages lie in the layer from `base` on, records in their tokens. */
  predicate Fits(x: Side, bytes: nat, base: nat, num: nat, cap: nat) {
    && x.ntpb > 0 && base <= x.offset && x.offset - base + bytes <= x.token && Times(x.ntpb, x.token) <= x.stride
    && base + Times(num, x.stride) <= cap && forall i :: 0 <= i < |x.blocks| ==> x.blocks[i] < num
  }

  lemma FitsAt(x: Side, bytes: nat, base: nat, num: nat, cap: nat, w: nat)
    requires Fits(x, bytes, base, num, cap) && Page(w, x.ntpb) < |x.blocks|
    ensures x.At(w) + bytes <= cap
  {
    hide Page;
    var id, slot := x.blocks[Page(w, x.ntpb)], Slot(w, x.ntpb);
    assert Times(slot, x.token) + x.token <= Times(x.ntpb, x.token) by { NextBelow(slot, x.ntpb, x.token); }
    assert Times(id, x.stride) + x.stride <= Times(num, x.stride) by { NextBelow(id, num, x.stride); }
  }

  lemma NextBelow(a: nat, b: nat, m: nat)
    requires a < b
    ensures Times(a, m) + m <= Times(b, m)
  {
    MulMono(a + 1, b, m);
    Distribute(a, 1, m);
  }

  /** A stream whose sides fit passes the range check, record by record. */
  lemma {:induction false} StreamInRange(s: Stream, lo: nat, hi: nat, srcBase: nat, dstBase: nat, srcNum: nat,
                                         dstNum: nat, bounds: Bounds)
    requires lo <= hi && s.Covers(hi) && s.bytes > 0 && bounds.srcScale == 1
    requires Fits(s.src, s.bytes, srcBase, srcNum, bounds.srcCapacity)
    requires Fits(s.dst, s.bytes, dstBase, dstNum, bounds.dstCapacity)
    ensures AllInRange(bounds, Records(s, lo, hi))
    decreases hi
  {
    hide Fits, Side.At, Page, InRange, Side.Covers;
    if lo < hi {
      CoversLess(s, hi - 1, hi);
      StreamInRange(s, lo, hi - 1, srcBase, dstBase, srcNum, dstNum, bounds);
      Held(s, hi, hi - 1);
      FitsAt(s.src, s.bytes, srcBase, srcNum, bounds.srcCapacity, hi - 1);
      FitsAt(s.dst, s.bytes, dstBase, dstNum, bounds.dstCapacity, hi - 1);
      PlainRange(bounds, s.At(hi - 1));
    }
  }

  predicate IdsBelow(ids: seq<nat>, num: nat) {
    forall i :: 0 <= i < |ids| ==> ids[i] < num
  }

  /** Capacities of the two tensors, without conversion. */
  function PlainBounds(p: Worker, d: Worker): Bounds {
    Bounds(Times(p.numBlocks, p.blockSize), Times(d.numBlocks, d.blockSize), 1)
  }

  lemma RaggedEqualInRange(p: Worker, d: Worker, src: seq<nat>, dst: seq<nat>, ntpb: nat, lo: nat, hi: nat)
    requires Shaped(p, ntpb) && d.tokenSize == p.tokenSize && d.blockSize == p.blockSize
    requires IdsBelow(src, p.numBlocks) && IdsBelow(dst, d.numBlocks) && lo <= hi && TablesCover(src, dst, ntpb, hi)
    ensures var s := EqualStream(src, dst, ntpb, p.blockSize, p.tokenSize);
            s.Covers(hi) && AllInRange(PlainBounds(p, d), Records(s, lo, hi))
  {
    hide Records, AllInRange;
    StreamInRange(EqualStream(src, dst, ntpb, p.blockSize, p.tokenSize), lo, hi, 0, 0, p.numBlocks, d.numBlocks, PlainBounds(p, d));
  }

  lemma LayerHalves(w: Worker, ntpb: nat)
    requires Shaped(w, ntpb)
    ensures var k := w.tokenSize / 2;
            && k > 0 && Times(ntpb, k) == ntpb * k == Times(k, ntpb)
            && Times(w.numBlocks, w.blockSize) == Times(ntpb * k, w.numBlocks) + Times(w.numBlocks, ntpb * k)
  {
    HalfPage(w, ntpb);
    var half := ntpb * (w.tokenSize / 2);
    Distribute(half, half, w.numBlocks);
  }

  lemma FlashEqualInRange(p: Worker, d: Worker, src: seq<nat>, dst: seq<nat>, ntpb: nat, lo: nat, hi: nat)
    requires Shaped(p, ntpb) && d.tokenSize == p.tokenSize && d.blockSize == p.blockSize
    requires IdsBelow(src, p.numBlocks) && IdsBelow(dst, d.numBlocks) && lo <= hi && TablesCover(src, dst, ntpb, hi)
    ensures var k := p.tokenSize / 2;
            var s := EqualStream(src, dst, ntpb, ntpb * k, k);
            var v := s.Shifted(Times(ntpb * k, p.numBlocks), Times(ntpb * k, d.numBlocks));
            && s.Covers(hi) && AllInRange(PlainBounds(p, d), Records(s, lo, hi))
            && v.Covers(hi) && AllInRange(PlainBounds(p, d), Records(v, lo, hi))
  {
    hide Records, AllInRange, Times;
    var k := p.tokenSize / 2;
    LayerHalves(p, ntpb);
    LayerHalves(d, ntpb);
    var s := EqualStream(src, dst, ntpb, ntpb * k, k);
    var x, y := Times(ntpb * k, p.numBlocks), Times(ntpb * k, d.numBlocks);
    StreamInRange(s, lo, hi, 0, 0, p.numBlocks, d.numBlocks, PlainBounds(p, d));
    StreamInRange(s.Shifted(x, y), lo, hi, x, y, p.numBlocks, d.numBlocks, PlainBounds(p, d));
  }

  lemma SliceInToken(g: nat, groupN: nat, k: nat)
    requires g < groupN
    ensures Times(g, k) + k <= k * groupN
  {
    NextBelow(g, groupN, k);
  }

  lemma HalvesScale(p: Worker, d: Worker, groupN: nat)
    requires p.tokenSize % 2 == 0 && d.tokenSize == p.tokenSize * groupN
    ensures d.tokenSize / 2 == p.tokenSize / 2 * groupN && d.tokenSize % 2 == 0
  {
    var k := p.tokenSize / 2;
    assert d.tokenSize == 2 * (k * groupN);
  }

  /** Slices of token-major pages, in either direction. */
  lemma RaggedSlicesInRange(p: Worker, d: Worker, pBlocks: seq<nat>, dBlocks: seq<nat>, groupN: nat, g: nat,
                            ntpb: nat, lo: nat, hi: nat, swap: bool)
    requires Shaped(p, ntpb) && Shaped(d, ntpb) && g < groupN && d.tokenSize == p.tokenSize * groupN
    requires IdsBelow(pBlocks, p.numBlocks) && IdsBelow(dBlocks, d.numBlocks) && lo <= hi && TablesCover(pBlocks, dBlocks, ntpb, hi)
    ensures var k := p.tokenSize / 2;
            var s := SliceStream(pBlocks, dBlocks, ntpb, p.tokenSize, d.tokenSize, g, k, swap);
            var v := if swap then s.Shifted(d.tokenSize / 2, k) else s.Shifted(k, d.tokenSize / 2);
            var bounds := if swap then PlainBounds(d, p) else PlainBounds(p, d);
            && s.Covers(hi) && AllInRange(bounds, Records(s, lo, hi))
            && v.Covers(hi) && AllInRange(bounds, Records(v, lo, hi))
  {
    hide Records, AllInRange, Times;
    var k, dk := p.tokenSize / 2, d.tokenSize / 2;
    HalvesScale(p, d, groupN);
    SliceInToken(g, groupN, k);
    PageBytes(p, ntpb);
    PageBytes(d, ntpb);
    var s := SliceStream(pBlocks, dBlocks, ntpb, p.tokenSize, d.tokenSize, g, k, swap);
    var v := if swap then s.Shifted(dk, k) else s.Shifted(k, dk);
    var bounds := if swap then PlainBounds(d, p) else PlainBounds(p, d);
    var sn, dn := if swap then d.numBlocks else p.numBlocks, if swap then p.numBlocks else d.numBlocks;
    StreamInRange(s, lo, hi, 0, 0, sn, dn, bounds);
    StreamInRange(v, lo, hi, 0, 0, sn, dn, bounds);
  }

  lemma PageBytes(w: Worker, ntpb: nat)
    requires Shaped(w, ntpb)
    ensures Times(w.tokenSize, ntpb) == Times(ntpb, w.tokenSize) == w.blockSize
  {
  }

  lemma FlashSlicesInRange(p: Worker, d: Worker, src: seq<nat>, dst: seq<nat>, groupN: nat, g: nat, ntpb: nat,
                           lo: nat, hi: nat)
    requires Shaped(p, ntpb) && Shaped(d, ntpb) && g < groupN && d.tokenSize == p.tokenSize * groupN
    requires IdsBelow(src, p.numBlocks) && IdsBelow(dst, d.numBlocks) && lo <= hi && TablesCover(src, dst, ntpb, hi)
    ensures var k, dk := p.tokenSize / 2, d.tokenSize / 2;
            var s := SliceStream(src, dst, ntpb, k, dk, g, k, false);
            var v := s.Shifted(Times(ntpb * k, p.numBlocks), Times(ntpb * dk, d.numBlocks));
            && s.Covers(hi) && AllInRange(PlainBounds(p, d), Records(s, lo, hi))
            && v.Covers(hi) && AllInRange(PlainBounds(p, d), Records(v, lo, hi))
  {
    hide Records, AllInRange, Times;
    var k, dk := p.tokenSize / 2, d.tokenSize / 2;
    HalvesScale(p, d, groupN);
    SliceInToken(g, groupN, k);
    LayerHalves(p, ntpb);
    LayerHalves(d, ntpb);
    var s := SliceStream(src, dst, ntpb, k, dk, g, k, false);
    var x, y := Times(ntpb * k, p.numBlocks), Times(ntpb * dk, d.numBlocks);
    StreamInRange(s, lo, hi, 0, 0, p.numBlocks, d.numBlocks, PlainBounds(p, d));
    StreamInRange(s.Shifted(x, y), lo, hi, x, y, p.numBlocks, d.numBlocks, PlainBounds(p, d));
  }
}
