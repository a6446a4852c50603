/** Padding of the last receiving page when several ranks feed one: after the tokens of a request,
    every rank clears its slice of the slots left in that page. */
module LastFill {
  import opened Arith
  import opened AttnParser
  import opened Copies
  import opened PageLayout
  import opened RangeCheck
  import opened Reshard
  import opened Schedule
  import opened Sequences
  import opened ZeroFill
  import HndParser
  import TailFill

  /** Where a round of the fill writes: the slice of each token and pack member. */
  datatype Spot = Spot(off: nat, kernel: nat, slot: nat, step: nat, shift: nat, len: nat) {
    function At(i: nat, sub: nat, v: bool): nat {
      var k := off + Times(sub, kernel) + Times(slot + i, step) + shift;
      if v then k + kernel / 2 else k
    }
  }

  /** The record of the token has the spot as its target. */
  ghost predicate Hits(f: PacketFn, w: nat, s: Spot, i: nat, sub: nat) {
    forall v: bool :: f(w + i, sub, v).dst == s.At(i, sub, v) && f(w + i, sub, v).len == s.len
  }

  /** All targets of the tokens [lo, hi) lie below cap. */
  ghost predicate TargetsFit(f: PacketFn, lo: nat, hi: nat, k: nat, cap: nat) {
    forall t: nat, sub: nat, v: bool :: lo <= t < hi && sub < k ==> f(t, sub, v).dst + f(t, sub, v).len <= cap
  }

  /** The padding of the slices of tokens [lo, hi) and the subs [from, k) passes the range check. */
  ghost predicate SlicesFit(f: PacketFn, lo: nat, hi: nat, from: nat, k: nat, zeroSrc: nat, maxSeg: nat, bounds: Bounds) {
    forall t: nat, sub: nat, v: bool :: lo <= t < hi && from <= sub < k ==>
      FillInRange(bounds, zeroSrc, f(t, sub, v).dst, f(t, sub, v).len, maxSeg)
  }

  lemma FitsWhole(f: PacketFn, lo: nat, hi: nat, cut: nat, k: nat, zeroSrc: nat, maxSeg: nat, bounds: Bounds)
    requires TailFill.ZeroBlockFits(bounds, zeroSrc, maxSeg) && TargetsFit(f, lo, hi, k, bounds.dstCapacity) && cut <= hi
    ensures SlicesFit(f, lo, cut, 0, k, zeroSrc, maxSeg, bounds)
  {
    hide FillInRange, TailFill.ZeroBlockFits;
    forall t: nat, sub: nat, v: bool | lo <= t < cut && sub < k
      ensures FillInRange(bounds, zeroSrc, f(t, sub, v).dst, f(t, sub, v).len, maxSeg)
    {
      TailFill.SegmentFits(bounds, zeroSrc, f(t, sub, v).dst, f(t, sub, v).len, maxSeg);
    }
  }

  lemma FitsJoinTokens(f: PacketFn, lo: nat, mid: nat, hi: nat, from: nat, k: nat, zeroSrc: nat, maxSeg: nat, bounds: Bounds)
    requires lo <= mid <= hi
    ensures SlicesFit(f, lo, hi, from, k, zeroSrc, maxSeg, bounds)
       <==> SlicesFit(f, lo, mid, from, k, zeroSrc, maxSeg, bounds) && SlicesFit(f, mid, hi, from, k, zeroSrc, maxSeg, bounds)
    ensures SlicesFit(f, lo, lo, from, k, zeroSrc, maxSeg, bounds)
  {
    hide FillInRange;
  }

  lemma FitsJoinSubs(f: PacketFn, lo: nat, hi: nat, from: nat, mid: nat, k: nat, zeroSrc: nat, maxSeg: nat, bounds: Bounds)
    requires from <= mid <= k
    ensures SlicesFit(f, lo, hi, from, k, zeroSrc, maxSeg, bounds)
       <==> SlicesFit(f, lo, hi, from, mid, zeroSrc, maxSeg, bounds) && SlicesFit(f, lo, hi, mid, k, zeroSrc, maxSeg, bounds)
    ensures SlicesFit(f, lo, hi, from, from, zeroSrc, maxSeg, bounds)
  {
    hide FillInRange;
  }

  lemma FitsOne(f: PacketFn, t: nat, sub: nat, zeroSrc: nat, maxSeg: nat, bounds: Bounds)
    ensures SlicesFit(f, t, t + 1, sub, sub + 1, zeroSrc, maxSeg, bounds)
       <==> && FillInRange(bounds, zeroSrc, f(t, sub, false).dst, f(t, sub, false).len, maxSeg)
            && FillInRange(bounds, zeroSrc, f(t, sub, true).dst, f(t, sub, true).len, maxSeg)
  {
    hide FillInRange;
  }

  function SpotOf(j: Job, w: nat): Spot {
    Spot(j.d.PageBase(w) + Times(Times(j.d.CellOf(w), j.k), KernelBytes(j.d)), KernelBytes(j.d), j.d.SlotOf(w),
         j.d.row, Times(j.groupOff, j.p.row), j.p.row)
  }

  lemma SpotMatch(j: Job, w: nat, i: nat, sub: nat)
    requires j.d.layout == TokenMajor && j.d.Valid(j.k) && !j.swap && j.d.SlotOf(w) + i < j.d.kernel
    ensures Hits(j.Packets(), w, SpotOf(j, w), i, sub)
  {
    hide Side.Offset, Side.PageBase, Side.CellOf, Side.SlotOf, KernelBytes, Times, Side.Valid;
    OffsetAsParsed(j.d, j.k, w, i, sub, false);
    OffsetAsParsed(j.d, j.k, w, i, sub, true);
  }

  /** One pack member of a round: the K and V slices of consecutive tokens. */
  method FillLayer(s: Spot, sub: nat, tokens: nat, zeroSrc: nat, maxSeg: nat, bounds: Bounds, before: seq<IpcBlock>,
                   ghost f: PacketFn, ghost w: nat)
    returns (ok: bool, out: seq<IpcBlock>)
    requires bounds.Valid() && maxSeg > 0 && ReadsZeroBlock(before, 0, zeroSrc, maxSeg)
    requires forall i: nat :: i < tokens ==> Hits(f, w, s, i, sub)
    ensures ok ==> ReadsZeroBlock(out, 0, zeroSrc, maxSeg)
    ensures ok ==> forall x: int :: Writes(out, x) == Writes(before, x) + Writes(LayerPackets(f, w, w + tokens, sub), x)
    ensures ok <==> SlicesFit(f, w, w + tokens, sub, sub + 1, zeroSrc, maxSeg, bounds)
  {
    hide *;
    out := before;
    NoLayer(f, w, sub);
    FitsJoinTokens(f, w, w, w + tokens, sub, sub + 1, zeroSrc, maxSeg, bounds);
    var idx := 0;
    while idx < tokens
      invariant idx <= tokens && ReadsZeroBlock(out, 0, zeroSrc, maxSeg)
      invariant SlicesFit(f, w, w + idx, sub, sub + 1, zeroSrc, maxSeg, bounds)
      invariant forall x: int :: Writes(out, x) == Writes(before, x) + Writes(LayerPackets(f, w, w + idx, sub), x)
    {
      var dk, dv := s.At(idx, sub, false), s.At(idx, sub, true);
      HitsAt(f, w, s, idx, sub);
      FitsOne(f, w + idx, sub, zeroSrc, maxSeg, bounds);
      FitsJoinTokens(f, w, w + idx, w + idx + 1, sub, sub + 1, zeroSrc, maxSeg, bounds);
      FitsJoinTokens(f, w, w + idx + 1, w + tokens, sub, sub + 1, zeroSrc, maxSeg, bounds);
      ghost var was := out;
      ok, out := EmitZeroFillSegments(zeroSrc, dk, s.len, maxSeg, bounds, out);
      if !ok { return; }
      TailFill.StillZeroBlock(was, out, zeroSrc, maxSeg);
      ghost var mid := out;
      ok, out := EmitZeroFillSegments(zeroSrc, dv, s.len, maxSeg, bounds, out);
      if !ok { return; }
      TailFill.StillZeroBlock(mid, out, zeroSrc, maxSeg);
      forall x: int ensures Writes(out, x) == Writes(before, x) + Writes(LayerPackets(f, w, w + idx + 1, sub), x) {
        NextToken(f, w, w + idx, sub, x);
      }
      idx := idx + 1;
    }
    ok := true;
  }

  lemma NoLayer(f: PacketFn, w: nat, sub: nat)
    ensures LayerPackets(f, w, w, sub) == [] && forall x: int :: Writes([], x) == 0
  {
  }

  lemma HitsAt(f: PacketFn, w: nat, s: Spot, i: nat, sub: nat)
    requires Hits(f, w, s, i, sub)
    ensures f(w + i, sub, false).dst == s.At(i, sub, false) && f(w + i, sub, false).len == s.len
    ensures f(w + i, sub, true).dst == s.At(i, sub, true) && f(w + i, sub, true).len == s.len
  {
  }

  lemma FitsAt(f: PacketFn, lo: nat, hi: nat, k: nat, cap: nat, t: nat, sub: nat)
    requires TargetsFit(f, lo, hi, k, cap) && lo <= t < hi && sub < k
    ensures f(t, sub, false).dst + f(t, sub, false).len <= cap && f(t, sub, true).dst + f(t, sub, true).len <= cap
  {
  }

  lemma NextToken(f: PacketFn, w: nat, t: nat, sub: nat, x: int)
    requires w <= t
    ensures Writes(LayerPackets(f, w, t + 1, sub), x) ==
            Writes(LayerPackets(f, w, t, sub), x)
            + (if f(t, sub, false).dst <= x < f(t, sub, false).dst + f(t, sub, false).len then 1 else 0)
            + (if f(t, sub, true).dst <= x < f(t, sub, true).dst + f(t, sub, true).len then 1 else 0)
  {
    hide WritesToCount, CountTo;
    var a, b := f(t, sub, false), f(t, sub, true);
    var l := LayerPackets(f, w, t, sub);
    assert LayerPackets(f, w, t + 1, sub) == l + [a] + [b];
    Push(l + [a], b, 0, x);
    Push(l, a, 0, x);
  }

  /** One round: every pack member. */
  method FillMembers(s: Spot, pack: nat, tokens: nat, zeroSrc: nat, maxSeg: nat, bounds: Bounds, before: seq<IpcBlock>,
                     ghost f: PacketFn, ghost w: nat)
    returns (ok: bool, out: seq<IpcBlock>)
    requires bounds.Valid() && maxSeg > 0 && ReadsZeroBlock(before, 0, zeroSrc, maxSeg)
    requires forall i: nat, sub: nat :: i < tokens && sub < pack ==> Hits(f, w, s, i, sub)
    ensures ok ==> ReadsZeroBlock(out, 0, zeroSrc, maxSeg)
    ensures ok ==> forall x: int :: Writes(out, x) == Writes(before, x) + Writes(RoundPackets(f, w, w + tokens, pack), x)
    ensures ok <==> SlicesFit(f, w, w + tokens, 0, pack, zeroSrc, maxSeg, bounds)
  {
    hide *;
    out := before;
    NoMembers(f, w, w + tokens);
    FitsJoinSubs(f, w, w + tokens, 0, 0, pack, zeroSrc, maxSeg, bounds);
    var sub := 0;
    while sub < pack
      invariant sub <= pack && ReadsZeroBlock(out, 0, zeroSrc, maxSeg)
      invariant SlicesFit(f, w, w + tokens, 0, sub, zeroSrc, maxSeg, bounds)
      invariant forall x: int :: Writes(out, x) == Writes(before, x) + Writes(RoundPackets(f, w, w + tokens, sub), x)
    {
      FitsJoinSubs(f, w, w + tokens, 0, sub, sub + 1, zeroSrc, maxSeg, bounds);
      FitsJoinSubs(f, w, w + tokens, 0, sub + 1, pack, zeroSrc, maxSeg, bounds);
      ok, out := FillLayer(s, sub, tokens, zeroSrc, maxSeg, bounds, out, f, w);
      if !ok { return; }
      forall x: int ensures Writes(out, x) == Writes(before, x) + Writes(RoundPackets(f, w, w + tokens, sub + 1), x) {
        NextMember(f, w, w + tokens, sub, x);
      }
      sub := sub + 1;
    }
    ok := true;
  }

  lemma NoMembers(f: PacketFn, w: nat, hi: nat)
    requires w <= hi
    ensures RoundPackets(f, w, hi, 0) == [] && forall x: int :: Writes([], x) == 0
  {
  }

  lemma NextMember(f: PacketFn, w: nat, hi: nat, sub: nat, x: int)
    requires w <= hi
    ensures Writes(RoundPackets(f, w, hi, sub + 1), x)
         == Writes(RoundPackets(f, w, hi, sub), x) + Writes(LayerPackets(f, w, hi, sub), x)
  {
    hide WritesToCount, CountTo, LayerPackets;
    WritesConcat(RoundPackets(f, w, hi, sub), LayerPackets(f, w, hi, sub), x);
  }

  // ---------------------------------------------------------------------------
  // The whole fill
  // ---------------------------------------------------------------------------

  datatype Outcome = AssertionFails | OutOfRange | Filled(records: seq<IpcBlock>)

  /** Source cells do not straddle pages: a cursor that has not passed a page stays within it. */
  lemma CellInPage(p: Side, pos: nat, step: nat)
    requires p.kernel > 0 && p.pageTokens == p.cells * p.kernel && pos < p.pageTokens && pos % p.kernel + step <= p.kernel
    ensures pos + step <= p.pageTokens
  {
    var q, r := pos / p.kernel, pos % p.kernel;
    assert pos == q * p.kernel + r;
    if p.cells <= q { MulMono(p.cells, q, p.kernel); }
    MulMono(q + 1, p.cells, p.kernel);
    Distribute(q, 1, p.kernel);
  }

  /** Clears this rank's slice of the slots left in the last page, reading only the request's
      block 0. The walk over the source side serves only an assertion. The outcome is determined:
      the slices of as many slots as a source page has are tried first; if one of them is out of
      range the fill throws, otherwise the assertion fails exactly when more slots are left. */
  method FillLastAttn(p: Side, d: Side, totalTokens: nat, groupOff: nat, attnPackSize: nat, bounds: Bounds,
                      ghost n: nat)
    returns (r: Outcome)
    requires bounds.Valid() && Parsable(p, Pack(attnPackSize), 0) && Parsable(d, Pack(attnPackSize), totalTokens)
    requires Left(d.pageTokens, totalTokens) > 0 ==> p.blocks != []
    ensures var j := Job(p, d, Pack(attnPackSize), n, groupOff, false);
            var left := Left(d.pageTokens, totalTokens);
            var end := totalTokens + left;
            && (left == 0 ==> r == Filled([]))
            && (left > 0 ==>
                  var zeroSrc, tried := Times(p.blocks[0], p.blockSize), totalTokens + Min(left, p.pageTokens);
                  && (r.OutOfRange? <==> !SlicesFit(j.Packets(), totalTokens, tried, 0, j.k, zeroSrc, p.blockSize, bounds))
                  && (r.AssertionFails? ==> left > p.pageTokens)
                  && (r.Filled? ==> left <= p.pageTokens && ReadsZeroBlock(r.records, 0, zeroSrc, p.blockSize)))
            && (r.Filled? ==> forall x: int :: Writes(r.records, x) == Writes(j.Reference(totalTokens, end), x))
  {
    hide Times, SpotOf, Hits, SlicesFit, RoundPackets, RangePackets, LayerPackets, Side.Offset, KernelBytes, ReadsZeroBlock,
         WritesToCount;
    var pack := Pack(attnPackSize);
    ghost var j := Job(p, d, pack, n, groupOff, false);
    ghost var f := j.Packets();
    TailFill.NothingFilled(f, totalTokens, pack, 0, 0);
    assert j.Reference(totalTokens, totalTokens) == RangePackets(f, totalTokens, totalTokens, pack);
    if totalTokens == 0 {
      return Filled([]);
    }
    var filled := totalTokens % d.pageTokens;
    if filled == 0 {
      return Filled([]);
    }
    var toFill := d.pageTokens - filled;
    ghost var left, end := toFill, totalTokens + toFill;
    LeftCovered(d.pageTokens, totalTokens, |d.blocks|);
    PageBytesPositive(p, pack);
    var zeroSrc := Times(p.blocks[0], p.blockSize);
    TailFill.NothingFilled(f, totalTokens, pack, zeroSrc, p.blockSize);
    ghost var tried := totalTokens + Min(left, p.pageTokens);
    FitsJoinTokens(f, totalTokens, totalTokens, tried, 0, pack, zeroSrc, p.blockSize, bounds);
    var dstPos, srcPos := totalTokens, 0;
    var out: seq<IpcBlock> := [];
    while toFill > 0
      invariant 0 <= toFill && dstPos + toFill == end && srcPos + toFill == left && srcPos <= p.pageTokens
      invariant dstPos <= tried && SlicesFit(f, totalTokens, dstPos, 0, pack, zeroSrc, p.blockSize, bounds)
      invariant ReadsZeroBlock(out, 0, zeroSrc, p.blockSize)
      invariant forall x: int :: Writes(out, x) == Writes(RangePackets(f, totalTokens, dstPos, pack), x)
      decreases toFill
    {
      if srcPos / p.pageTokens != 0 {
        SourceDone(srcPos, p.pageTokens);
        return AssertionFails;
      }
      InPage(srcPos, p.pageTokens);
      HeldIndex(d, pack, end, dstPos);
      CellBelow(d, pack, dstPos);
      var page, cell, slot, cellOff := Cursor(d, pack, dstPos);
      var spot := Spot(Times(d.blocks[page], d.blockSize) + cellOff, KernelBytes(d), slot, TokenSize(d) / 2,
                       Times(groupOff, TokenSize(p) / 2), TokenSize(p) / 2);
      var tokens := Min(p.kernel - srcPos % p.kernel, Min(d.kernel - slot, toFill));
      CellInPage(p, srcPos, tokens);
      SpotIs(j, dstPos, page, spot);
      forall i: nat, sub: nat | i < tokens && sub < pack ensures Hits(f, dstPos, spot, i, sub) {
        SpotMatch(j, dstPos, i, sub);
      }
      FitsJoinTokens(f, totalTokens, dstPos, dstPos + tokens, 0, pack, zeroSrc, p.blockSize, bounds);
      FitsJoinTokens(f, totalTokens, dstPos + tokens, tried, 0, pack, zeroSrc, p.blockSize, bounds);
      var ok;
      ok, out := FillMembers(spot, pack, tokens, zeroSrc, p.blockSize, bounds, out, f, dstPos);
      if !ok {
        return OutOfRange;
      }
      forall x: int ensures Writes(out, x) == Writes(RangePackets(f, totalTokens, dstPos + tokens, pack), x) {
        TailFill.TailRoundDone(f, totalTokens, dstPos, dstPos + tokens, pack, x);
      }
      srcPos, dstPos, toFill := srcPos + tokens, dstPos + tokens, toFill - tokens;
    }
    assert j.Reference(totalTokens, end) == RangePackets(f, totalTokens, end, pack);
    r := Filled(out);
  }

  /** Such pages exist: a source page of one token feeding pages of three. */
  lemma SmallSourcePage()
    ensures var p := Side(TokenMajor, 1, 1, 1, 1, 2, [0]);
            var d := Side(TokenMajor, 3, 1, 3, 2, 12, [0]);
            Parsable(p, 1, 1) && Parsable(d, 1, 1) && Job(p, d, 1, 2, 0, false).Valid() && Left(d.pageTokens, 1) > p.pageTokens
  {
  }

  lemma SourceDone(pos: nat, n: nat)
    requires n > 0 && pos / n != 0
    ensures pos >= n
  {
  }

  lemma InPage(pos: nat, n: nat)
    requires n > 0 && pos / n == 0
    ensures pos < n
  {
  }

  lemma SpotIs(j: Job, w: nat, page: nat, s: Spot)
    requires j.d.pageTokens > 0 && page == w / j.d.pageTokens < |j.d.blocks|
    requires s == Spot(Times(j.d.blocks[page], j.d.blockSize) + Times(Times(j.d.CellOf(w), j.k), KernelBytes(j.d)), KernelBytes(j.d),
                       j.d.SlotOf(w), TokenSize(j.d) / 2, Times(j.groupOff, TokenSize(j.p) / 2), TokenSize(j.p) / 2)
    ensures s == SpotOf(j, w)
  {
  }

  // ---------------------------------------------------------------------------
  // Head-major pages
  // ---------------------------------------------------------------------------

  lemma NextHead(f: PacketFn, w: nat, n: nat, h: nat, x: int)
    ensures RoundRuns(f, w, n, 0) == [] && Writes([], x) == 0
    ensures var a, b := Long(f(w, h, false), n), Long(f(w, h, true), n);
            Writes(RoundRuns(f, w, n, h + 1), x) == Writes(RoundRuns(f, w, n, h), x)
              + (if a.dst <= x < a.dst + a.len then 1 else 0) + (if b.dst <= x < b.dst + b.len then 1 else 0)
  {
    hide WritesToCount, CountTo, Long;
    EmptyWrites();
    var a, b := Long(f(w, h, false), n), Long(f(w, h, true), n);
    var l := RoundRuns(f, w, n, h);
    assert RoundRuns(f, w, n, h + 1) == l + [a] + [b];
    Push(l + [a], b, 0, x);
    Push(l, a, 0, x);
  }

  lemma RunsAreRange(f: PacketFn, w: nat, n: nat, k: nat, x: int)
    requires forall i: nat, sub: nat :: i < n && sub < k ==> Adjacent(f, w, i, sub)
    ensures Writes(RoundRuns(f, w, n, k), x) == Writes(RangePackets(f, w, w + n, k), x)
  {
    hide WritesToCount, CountTo, RoundRuns, RoundPackets, RangePackets, Adjacent;
    forall s: int, d: int ensures Count(RoundRuns(f, w, n, k), s, d) == Count(RoundPackets(f, w, w + n, k), s, d) {
      RunsAreRound(f, w, n, k, s, d);
    }
    SameCopySameWrites(RoundRuns(f, w, n, k), RoundPackets(f, w, w + n, k), x);
    RoundSameWrites(f, w, w + n, k, x);
  }

  /** The targets of a rank's records, as records onto themselves. */
  function TargetFn(j: Job): PacketFn {
    (t: nat, sub: nat, v: bool) => IpcBlock(j.WideOffset(t, sub, v), j.WideOffset(t, sub, v), j.p.row)
  }

  lemma TargetAdjacent(j: Job, w: nat, i: nat, sub: nat)
    requires j.Valid() && j.d.layout == HeadMajor && j.d.SlotOf(w) + i < j.d.kernel
    ensures Adjacent(TargetFn(j), w, i, sub)
  {
    hide Side.Offset, Side.SlotOf, Side.Valid, Job.WideSub, Job.WideSubs;
    forall v: bool ensures j.WideOffset(w + i, sub, v) == j.WideOffset(w, sub, v) + i * j.p.row {
      RowAt(j.d, j.WideSubs(), w, i, j.WideSub(sub), v);
    }
  }

  lemma TargetsOf(j: Job, lo: nat, hi: nat, x: int)
    requires !j.swap && lo <= hi
    ensures Writes(RangePackets(TargetFn(j), lo, hi, j.k), x) == Writes(j.Reference(lo, hi), x)
  {
    hide Job.WideOffset, RangePackets, WritesToCount;
    assert SameTargets(TargetFn(j), j.Packets(), lo, hi, j.k, x);
    RangeSameTargets(TargetFn(j), j.Packets(), lo, hi, j.k, x);
  }

  /** Starts of the K and V tails of a head, by the formulas of the fill. */
  lemma HeadStart(j: Job, w: nat, page: nat, h: nat)
    requires j.Valid() && !j.swap && j.d.layout == HeadMajor && j.d.cells == 1
    requires page == w / j.d.pageTokens < |j.d.blocks|
    ensures var k := Times(j.d.blocks[page], j.d.blockSize) + Times(j.groupOff, Times(j.k, Times(j.d.pageTokens, j.p.row)))
                     + Times(h, Times(j.d.pageTokens, j.p.row)) + Times(w % j.d.pageTokens, j.p.row);
            && j.d.SlotOf(w) == w % j.d.pageTokens
            && j.WideOffset(w, h, false) == k
            && j.WideOffset(w, h, true) == k + HndParser.KernelBytes(j.d, j.WideSubs()) / 2
  {
    hide Side.Offset, Times, HndParser.KernelBytes, Job.WideOffset;
    OneCell(j.d, w);
    HndParser.StartsMatch(j, w, h, false);
    HndParser.StartsMatch(j, w, h, true);
  }

  lemma OneCell(g: Side, w: nat)
    requires g.kernel > 0 && g.pageTokens == g.cells * g.kernel && g.cells == 1
    ensures g.pageTokens == g.kernel && g.CellOf(w) == 0 && forall m: nat :: Times(0, m) == 0
  {
  }

  /** The K and V tails of n slots of the first m heads pass the range check. */
  ghost predicate HeadsFit(j: Job, w: nat, n: nat, m: nat, zeroSrc: nat, maxSeg: nat, bounds: Bounds) {
    forall h: nat, v: bool :: h < m ==> FillInRange(bounds, zeroSrc, j.WideOffset(w, h, v), Times(n, j.p.row), maxSeg)
  }

  lemma HeadsNext(j: Job, w: nat, n: nat, h: nat, m: nat, zeroSrc: nat, maxSeg: nat, bounds: Bounds)
    ensures HeadsFit(j, w, n, 0, zeroSrc, maxSeg, bounds)
    ensures HeadsFit(j, w, n, h + 1, zeroSrc, maxSeg, bounds)
       <==> && HeadsFit(j, w, n, h, zeroSrc, maxSeg, bounds)
            && FillInRange(bounds, zeroSrc, j.WideOffset(w, h, false), Times(n, j.p.row), maxSeg)
            && FillInRange(bounds, zeroSrc, j.WideOffset(w, h, true), Times(n, j.p.row), maxSeg)
    ensures h < m && HeadsFit(j, w, n, m, zeroSrc, maxSeg, bounds) ==> HeadsFit(j, w, n, h + 1, zeroSrc, maxSeg, bounds)
  {
    hide FillInRange, Job.WideOffset;
  }

  /** With the zero block and the targets inside their tensors every tail is. */
  lemma HeadsFitAll(j: Job, w: nat, n: nat, zeroSrc: nat, maxSeg: nat, bounds: Bounds)
    requires j.Valid() && !j.swap && j.d.layout == HeadMajor && j.d.cells == 1
    requires n > 0 && w % j.d.pageTokens + n <= j.d.pageTokens
    requires TailFill.ZeroBlockFits(bounds, zeroSrc, maxSeg) && TargetsFit(j.Packets(), w, w + n, j.k, bounds.dstCapacity)
    ensures HeadsFit(j, w, n, j.k, zeroSrc, maxSeg, bounds)
  {
    hide FillInRange, Job.WideOffset, TargetsFit, TailFill.ZeroBlockFits;
    forall h: nat, v: bool | h < j.k
      ensures FillInRange(bounds, zeroSrc, j.WideOffset(w, h, v), Times(n, j.p.row), maxSeg)
    {
      OneCell(j.d, w);
      TailTargetFits(j, w, n, h, v, bounds.dstCapacity);
      TailFill.SegmentFits(bounds, zeroSrc, j.WideOffset(w, h, v), Times(n, j.p.row), maxSeg);
    }
  }

  /** Clears the K and V tails of this rank's heads in the last page, one run each; throws exactly when
      one of them is out of range. */
  method FillLastHnd(p: Side, d: Side, totalTokens: nat, attnGroupN: nat, groupOff: nat, heads: nat, bounds: Bounds)
    returns (ok: bool, out: seq<IpcBlock>)
    requires bounds.Valid() && Job(p, d, heads, attnGroupN, groupOff, false).Valid() && d.layout == HeadMajor
    requires d.cells == 1 && d.Holds(totalTokens)
    requires Left(d.pageTokens, totalTokens) > 0 ==> p.blocks != []
    ensures var j := Job(p, d, heads, attnGroupN, groupOff, false);
            var end := totalTokens + Left(d.pageTokens, totalTokens);
            && (Left(d.pageTokens, totalTokens) == 0 ==> ok && out == [])
            && (Left(d.pageTokens, totalTokens) > 0 ==>
                  var zeroSrc := Times(p.blocks[0], p.blockSize);
                  && (ok <==> HeadsFit(j, totalTokens, Left(d.pageTokens, totalTokens), heads, zeroSrc, p.blockSize, bounds))
                  && (ok ==> ReadsZeroBlock(out, 0, zeroSrc, p.blockSize)))
            && (ok ==> forall x: int :: Writes(out, x) == Writes(j.Reference(totalTokens, end), x))
  {
    hide HeadsFit, FillInRange, Times, RoundRuns, RangePackets, WritesToCount, Side.Offset,
         Job.WideOffset, HndParser.KernelBytes, ReadsZeroBlock, Adjacent, Long;
    ghost var j := Job(p, d, heads, attnGroupN, groupOff, false);
    ghost var f := TargetFn(j);
    ok, out := true, [];
    TailFill.NothingFilled(j.Packets(), totalTokens, heads, 0, 0);
    assert j.Reference(totalTokens, totalTokens) == RangePackets(j.Packets(), totalTokens, totalTokens, heads);
    if totalTokens == 0 {
      return;
    }
    var filled := totalTokens % d.pageTokens;
    if filled == 0 {
      return;
    }
    var remaining := d.pageTokens - filled;
    LeftCovered(d.pageTokens, totalTokens, |d.blocks|);
    HeldIndex(d, j.WideSubs(), totalTokens + remaining, totalTokens);
    PageBytesPositive(p, heads);
    var page := totalTokens / d.pageTokens;
    var headSection := Times(d.pageTokens, p.row);
    var perGroup := Times(heads, headSection);
    var kvSection := HndParser.KernelBytes(d, Times(attnGroupN, heads)) / 2;
    var length := Times(remaining, p.row);
    var zeroSrc := Times(p.blocks[0], p.blockSize);
    var start := Times(d.blocks[page], d.blockSize);
    TailFill.NothingFilled(f, totalTokens, heads, zeroSrc, p.blockSize);
    forall x: int ensures Writes([], x) == Writes(RoundRuns(f, totalTokens, remaining, 0), x) {
      NextHead(f, totalTokens, remaining, 0, x);
    }
    HeadsNext(j, totalTokens, remaining, 0, heads, zeroSrc, p.blockSize, bounds);
    for h := 0 to heads
      invariant ReadsZeroBlock(out, 0, zeroSrc, p.blockSize)
      invariant HeadsFit(j, totalTokens, remaining, h, zeroSrc, p.blockSize, bounds)
      invariant forall x: int :: Writes(out, x) == Writes(RoundRuns(f, totalTokens, remaining, h), x)
    {
      var dk := start + Times(groupOff, perGroup) + Times(h, headSection) + Times(filled, p.row);
      var dv := dk + kvSection;
      HeadStart(j, totalTokens, page, h);
      HeadsNext(j, totalTokens, remaining, h, heads, zeroSrc, p.blockSize, bounds);
      ghost var was := out;
      ok, out := EmitZeroFillSegments(zeroSrc, dk, length, p.blockSize, bounds, out);
      if !ok { return; }
      TailFill.StillZeroBlock(was, out, zeroSrc, p.blockSize);
      ghost var mid := out;
      ok, out := EmitZeroFillSegments(zeroSrc, dv, length, p.blockSize, bounds, out);
      if !ok { return; }
      TailFill.StillZeroBlock(mid, out, zeroSrc, p.blockSize);
      LongIs(f(totalTokens, h, false), remaining);
      LongIs(f(totalTokens, h, true), remaining);
      forall x: int ensures Writes(out, x) == Writes(RoundRuns(f, totalTokens, remaining, h + 1), x) {
        NextHead(f, totalTokens, remaining, h, x);
      }
    }
    ok := true;
    HeadStart(j, totalTokens, page, 0);
    forall i: nat, sub: nat | i < remaining && sub < heads ensures Adjacent(f, totalTokens, i, sub) {
      OneCell(d, totalTokens);
      TargetAdjacent(j, totalTokens, i, sub);
    }
    forall x: int ensures Writes(out, x) == Writes(j.Reference(totalTokens, totalTokens + remaining), x) {
      RunsAreRange(f, totalTokens, remaining, heads, x);
      TargetsOf(j, totalTokens, totalTokens + remaining, x);
    }
  }

  lemma TailTargetFits(j: Job, w: nat, n: nat, h: nat, v: bool, cap: nat)
    requires j.Valid() && !j.swap && j.d.layout == HeadMajor && n > 0 && j.d.SlotOf(w) + n <= j.d.kernel && h < j.k
    requires TargetsFit(j.Packets(), w, w + n, j.k, cap)
    ensures j.WideOffset(w, h, v) + Times(n, j.p.row) <= cap
  {
    hide Side.Offset, Side.SlotOf, Side.Valid, Job.WideSub, Job.WideSubs;
    RowAt(j.d, j.WideSubs(), w, n - 1, j.WideSub(h), v);
    FitsAt(j.Packets(), w, w + n, j.k, cap, w + (n - 1), h);
    Distribute(n - 1, 1, j.p.row);
  }

  lemma LongIs(b: IpcBlock, n: nat)
    ensures Long(b, n) == IpcBlock(b.src, b.dst, Times(n, b.len))
  {
  }

  // ---------------------------------------------------------------------------
  // Tokens and padding of all ranks together
  // ---------------------------------------------------------------------------

  /** Writes to byte x by the first m ranks, tokens and padding. */
  function SentWrites(tokens: seq<seq<IpcBlock>>, fills: seq<seq<IpcBlock>>, m: nat, x: int): nat
    requires m <= |tokens| && m <= |fills|
  {
    if m == 0 then 0 else SentWrites(tokens, fills, m - 1, x) + Writes(tokens[m - 1] + fills[m - 1], x)
  }

  lemma RankTotal(j: Job, seen: nat, total: nat, end: nat, tokens: seq<IpcBlock>, fill: seq<IpcBlock>, x: int)
    requires seen <= total <= end && SameCopy(tokens, j.Reference(seen, total))
    requires Writes(fill, x) == Writes(j.Reference(total, end), x)
    ensures Writes(tokens + fill, x) == Writes(j.Reference(seen, end), x)
  {
    hide WritesToCount, CountTo, RangePackets;
    WritesConcat(tokens, fill, x);
    SameCopySameWrites(tokens, j.Reference(seen, total), x);
    RangeSplit(j.Packets(), seen, total, end, j.k);
    WritesConcat(j.Reference(seen, total), j.Reference(total, end), x);
  }

  lemma {:induction false} SentIsGroup(ranks: seq<Job>, seen: nat, total: nat, end: nat,
                                       tokens: seq<seq<IpcBlock>>, fills: seq<seq<IpcBlock>>, m: nat, x: int)
    requires m <= |ranks| == |tokens| == |fills| && seen <= total <= end
    requires forall i :: 0 <= i < |ranks| ==> SameCopy(tokens[i], ranks[i].Reference(seen, total))
    requires forall i :: 0 <= i < |ranks| ==> Writes(fills[i], x) == Writes(ranks[i].Reference(total, end), x)
    ensures SentWrites(tokens, fills, m, x) == GroupWrites(ranks, m, seen, end, x)
  {
    hide WritesToCount, CountTo, RangePackets, SameCopy;
    if m > 0 {
      SentIsGroup(ranks, seen, total, end, tokens, fills, m - 1, x);
      RankTotal(ranks[m - 1], seen, total, end, tokens[m - 1], fills[m - 1], x);
    }
  }

  /** On completion the ranks of a group have together written every row byte from the first
      token to the end of the last page exactly once, and nothing else. */
  lemma GroupComplete(ranks: seq<Job>, d: Side, wideSubs: nat, seen: nat, total: nat,
                      tokens: seq<seq<IpcBlock>>, fills: seq<seq<IpcBlock>>, x: int)
    requires d.pageTokens > 0 && seen <= total && |ranks| == |tokens| == |fills|
    requires Group(ranks, d, wideSubs, total + Left(d.pageTokens, total)) && Distinct(d.blocks)
    requires forall i :: 0 <= i < |ranks| ==> SameCopy(tokens[i], ranks[i].Reference(seen, total))
    requires forall i :: 0 <= i < |ranks| ==>
               Writes(fills[i], x) == Writes(ranks[i].Reference(total, total + Left(d.pageTokens, total)), x)
    ensures SentWrites(tokens, fills, |ranks|, x)
         == if InRows(d, wideSubs, seen, total + Left(d.pageTokens, total), x) then 1 else 0
  {
    hide *;
    var end := total + Left(d.pageTokens, total);
    SentIsGroup(ranks, seen, total, end, tokens, fills, |ranks|, x);
    GroupTilesRows(ranks, d, wideSubs, seen, end, x);
  }

  /** With block ids inside the tensors the padding is never out of range, so it is complete if
      and only if no more slots are left than a source page has. */
  lemma PaddingFits(j: Job, total: nat, bounds: Bounds, narrowPages: nat, widePages: nat)
    requires j.Valid() && !j.swap && j.d.Holds(total) && j.p.blocks != []
    requires TablesInTensors(j, bounds, narrowPages, widePages)
    ensures TailFill.ZeroBlockFits(bounds, Times(j.p.blocks[0], j.p.blockSize), j.p.blockSize)
    ensures TargetsFit(j.Packets(), total, total + Left(j.d.pageTokens, total), j.k, bounds.dstCapacity)
  {
    hide Side.Offset, Side.Valid, Times;
    Positive(j.d, j.WideSubs());
    var end := total + Left(j.d.pageTokens, total);
    LeftCovered(j.d.pageTokens, total, |j.d.blocks|);
    forall t: nat, sub: nat, v: bool | total <= t < end && sub < j.k
      ensures j.Packets()(t, sub, v).dst + j.Packets()(t, sub, v).len <= bounds.dstCapacity
    {
      WideEnd(j, end, t, sub, v, bounds, narrowPages, widePages);
    }
    ZeroBlockInside(j, bounds, narrowPages, widePages);
  }

  lemma WideEnd(j: Job, hi: nat, t: nat, sub: nat, v: bool, bounds: Bounds, narrowPages: nat, widePages: nat)
    requires j.Valid() && !j.swap && j.d.Holds(hi) && t < hi && sub < j.k
    requires TablesInTensors(j, bounds, narrowPages, widePages)
    ensures j.WideOffset(t, sub, v) + j.p.row <= bounds.dstCapacity
  {
    hide Side.Offset, Times, Side.Valid, Job.WideSub, Job.WideSubs, Job.Shift;
    Positive(j.p, j.k);
    WideCoordinates(j, sub, j.p.row - 1);
    RowEnd(j.d, j.WideSubs(), hi, t, j.WideSub(sub), v, widePages);
  }

  lemma ZeroBlockInside(j: Job, bounds: Bounds, narrowPages: nat, widePages: nat)
    requires !j.swap && j.p.blocks != [] && TablesInTensors(j, bounds, narrowPages, widePages)
    ensures TailFill.ZeroBlockFits(bounds, Times(j.p.blocks[0], j.p.blockSize), j.p.blockSize)
  {
    MulMono(j.p.blocks[0] + 1, narrowPages, j.p.blockSize);
    Distribute(j.p.blocks[0], 1, j.p.blockSize);
  }
}
