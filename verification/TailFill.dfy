/** Completion of a sliced P < D transfer: the token copy followed by the tail fill. */
module TailFill {
  import opened Arith
  import opened Copies
  import opened RangeCheck
  import opened Schedule
  import opened Sequences
  import opened ZeroFill
  import opened PageLayout
  import opened Reshard
  import AttnParser
  import HndParser

  // ---------------------------------------------------------------------------
  // Runs of rows
  // ---------------------------------------------------------------------------

  /** Inside a kernel block the K rows (and the V rows) of consecutive tokens are one run. */
  lemma {:induction false} RunWrites(g: Side, k: nat, w: nat, n: nat, sub: nat, x: int)
    requires g.Valid(k) && g.SlotOf(w) + n <= g.kernel
    ensures var ko, vo, len := g.Offset(k, w, sub, false), g.Offset(k, w, sub, true), Times(n, g.row);
            Writes(LayerPackets(Rows(g, k), w, w + n, sub), x)
            == (if ko <= x < ko + len then 1 else 0) + (if vo <= x < vo + len then 1 else 0)
  {
    hide Side.Offset, Side.SlotOf, WritesToCount;
    if n == 0 {
      CountEmpty(0, x);
    } else {
      RunWrites(g, k, w, n - 1, sub, x);
      RowAt(g, k, w, n - 1, sub, false);
      RowAt(g, k, w, n - 1, sub, true);
      Distribute(n - 1, 1, g.row);
      var f := Rows(g, k);
      var rest, a, b := LayerPackets(f, w, w + n - 1, sub), f(w + n - 1, sub, false), f(w + n - 1, sub, true);
      assert LayerPackets(f, w, w + n, sub) == (rest + [a]) + [b];
      Push(rest, a, 0, x);
      Push(rest + [a], b, 0, x);
    }
  }

  lemma RoundRunWrites(g: Side, k: nat, w: nat, n: nat, sub: nat, x: int)
    requires g.Valid(k) && g.SlotOf(w) + n <= g.kernel
    ensures var ko, vo, len := g.Offset(k, w, sub, false), g.Offset(k, w, sub, true), Times(n, g.row);
            Writes(RoundPackets(Rows(g, k), w, w + n, sub + 1), x)
            == Writes(RoundPackets(Rows(g, k), w, w + n, sub), x)
               + (if ko <= x < ko + len then 1 else 0) + (if vo <= x < vo + len then 1 else 0)
  {
    hide Side.Offset, Side.SlotOf, Side.Valid, WritesToCount, Times, LayerPackets, Rows;
    RunWrites(g, k, w, n, sub, x);
    WritesConcat(RoundPackets(Rows(g, k), w, w + n, sub), LayerPackets(Rows(g, k), w, w + n, sub), x);
  }

  /** The rows of tokens [lo, hi) end inside the destination tensor. */
  ghost predicate RowsFit(g: Side, k: nat, lo: nat, hi: nat, cap: nat) {
    forall t: nat, sub: nat, v: bool :: lo <= t < hi && sub < k ==> g.Offset(k, t, sub, v) + g.row <= cap
  }

  lemma RunFits(g: Side, k: nat, w: nat, n: nat, sub: nat, v: bool, cap: nat)
    requires g.Valid(k) && g.SlotOf(w) + n <= g.kernel && 0 < n && sub < k
    requires RowsFit(g, k, w, w + n, cap)
    ensures g.Offset(k, w, sub, v) + Times(n, g.row) <= cap
  {
    hide Side.Offset;
    RowAt(g, k, w, n - 1, sub, v);
    Distribute(n - 1, 1, g.row);
    assert g.Offset(k, w + (n - 1), sub, v) + g.row <= cap;
  }

  lemma SubRowsFit(g: Side, k: nat, lo: nat, hi: nat, lo': nat, hi': nat, cap: nat)
    requires RowsFit(g, k, lo, hi, cap) && lo <= lo' && hi' <= hi
    ensures RowsFit(g, k, lo', hi', cap)
  {
    hide Side.Offset;
  }

  ghost predicate ZeroBlockFits(bounds: Bounds, zeroSrc: nat, maxSeg: nat) {
    bounds.srcScale > 0 && zeroSrc + maxSeg * bounds.srcScale <= bounds.srcCapacity
  }

  lemma SegmentFits(bounds: Bounds, zeroSrc: nat, dst: nat, length: nat, maxSeg: nat)
    requires ZeroBlockFits(bounds, zeroSrc, maxSeg) && dst + length <= bounds.dstCapacity
    ensures FillInRange(bounds, zeroSrc, dst, length, maxSeg)
  {
    MulMono(Min(maxSeg, length), maxSeg, bounds.srcScale);
  }

  /** The K and V runs of n tokens from w on, for the subs [from, to), pass the range check. */
  ghost predicate RunsFit(g: Side, k: nat, w: nat, n: nat, from: nat, to: nat, zeroSrc: nat, maxSeg: nat, bounds: Bounds) {
    forall sub: nat, v: bool :: from <= sub < to ==>
      FillInRange(bounds, zeroSrc, g.Offset(k, w, sub, v), Times(n, g.row), maxSeg)
  }

  lemma RunsJoin(g: Side, k: nat, w: nat, n: nat, from: nat, mid: nat, to: nat, zeroSrc: nat, maxSeg: nat, bounds: Bounds)
    requires from <= mid <= to
    ensures RunsFit(g, k, w, n, from, to, zeroSrc, maxSeg, bounds)
       <==> RunsFit(g, k, w, n, from, mid, zeroSrc, maxSeg, bounds) && RunsFit(g, k, w, n, mid, to, zeroSrc, maxSeg, bounds)
    ensures RunsFit(g, k, w, n, from, from, zeroSrc, maxSeg, bounds)
  {
    hide FillInRange, Side.Offset;
  }

  lemma RunFitsOne(g: Side, k: nat, w: nat, n: nat, sub: nat, zeroSrc: nat, maxSeg: nat, bounds: Bounds)
    ensures RunsFit(g, k, w, n, sub, sub + 1, zeroSrc, maxSeg, bounds)
       <==> && FillInRange(bounds, zeroSrc, g.Offset(k, w, sub, false), Times(n, g.row), maxSeg)
            && FillInRange(bounds, zeroSrc, g.Offset(k, w, sub, true), Times(n, g.row), maxSeg)
  {
    hide FillInRange, Side.Offset;
  }

  /** A run of the tail that begins at `total` starts there or at a kernel block, and ends with its
      kernel block. */
  ghost predicate RunAt(g: Side, total: nat, t: nat) {
    t == total || g.SlotOf(t) == 0
  }

  function RunLength(g: Side, t: nat): nat {
    if g.kernel > g.SlotOf(t) then g.kernel - g.SlotOf(t) else 0
  }

  /** All runs of the tail that start in [lo, hi) pass the range check. */
  ghost predicate TailInRange(g: Side, k: nat, total: nat, lo: nat, hi: nat, zeroSrc: nat, maxSeg: nat, bounds: Bounds) {
    forall t: nat :: lo <= t < hi && RunAt(g, total, t) ==> RunsFit(g, k, t, RunLength(g, t), 0, k, zeroSrc, maxSeg, bounds)
  }

  lemma TailJoin(g: Side, k: nat, total: nat, lo: nat, mid: nat, hi: nat, zeroSrc: nat, maxSeg: nat, bounds: Bounds)
    requires lo <= mid <= hi
    ensures TailInRange(g, k, total, lo, hi, zeroSrc, maxSeg, bounds)
       <==> && TailInRange(g, k, total, lo, mid, zeroSrc, maxSeg, bounds)
            && TailInRange(g, k, total, mid, hi, zeroSrc, maxSeg, bounds)
    ensures TailInRange(g, k, total, lo, lo, zeroSrc, maxSeg, bounds)
  {
    hide RunsFit, RunAt, RunLength;
  }

  lemma SlotsOfRun(g: Side, k: nat, w: nat, i: nat)
    requires g.Valid(k) && i <= RunLength(g, w)
    ensures 0 < RunLength(g, w) == g.kernel - g.SlotOf(w)
    ensures g.SlotOf(w + i) == if i == RunLength(g, w) then 0 else g.SlotOf(w) + i
  {
    StepTo(w, i, g.kernel);
  }

  /** Inside a run no other one starts, and after it the next one does. */
  lemma OneRun(g: Side, k: nat, total: nat, w: nat, zeroSrc: nat, maxSeg: nat, bounds: Bounds)
    requires g.Valid(k) && total <= w && RunAt(g, total, w)
    ensures RunLength(g, w) > 0 && RunAt(g, total, w + RunLength(g, w))
    ensures TailInRange(g, k, total, w, w + RunLength(g, w), zeroSrc, maxSeg, bounds)
       <==> RunsFit(g, k, w, RunLength(g, w), 0, k, zeroSrc, maxSeg, bounds)
  {
    hide RunsFit, RunLength, Side.SlotOf, Side.Valid;
    var n := RunLength(g, w);
    SlotsOfRun(g, k, w, n);
    forall t: nat | w < t < w + n ensures !RunAt(g, total, t) {
      SlotsOfRun(g, k, w, t - w);
    }
  }

  /** With the zero block and the rows inside their tensors every run is. */
  lemma TailFitsAll(g: Side, k: nat, total: nat, zeroSrc: nat, maxSeg: nat, bounds: Bounds)
    requires g.Valid(k) && ZeroBlockFits(bounds, zeroSrc, maxSeg) && RowsFit(g, k, total, g.Capacity(), bounds.dstCapacity)
    ensures TailInRange(g, k, total, total, g.Capacity(), zeroSrc, maxSeg, bounds)
  {
    hide FillInRange, Side.Offset, ZeroBlockFits, RowsFit;
    forall t: nat | total <= t < g.Capacity() && RunAt(g, total, t)
      ensures RunsFit(g, k, t, RunLength(g, t), 0, k, zeroSrc, maxSeg, bounds)
    {
      RunInside(g, k, t);
      SubRowsFit(g, k, total, g.Capacity(), t, t + RunLength(g, t), bounds.dstCapacity);
      forall sub: nat, v: bool | sub < k
        ensures FillInRange(bounds, zeroSrc, g.Offset(k, t, sub, v), Times(RunLength(g, t), g.row), maxSeg)
      {
        RunFits(g, k, t, RunLength(g, t), sub, v, bounds.dstCapacity);
        SegmentFits(bounds, zeroSrc, g.Offset(k, t, sub, v), Times(RunLength(g, t), g.row), maxSeg);
      }
    }
  }

  /** The kernel block of a held token is held. */
  lemma RunInside(g: Side, k: nat, t: nat)
    requires g.Valid(k) && t < g.Capacity()
    ensures 0 < RunLength(g, t) == g.kernel - g.SlotOf(t) && t + RunLength(g, t) <= g.Capacity()
  {
    var n, q := g.kernel, t / g.kernel;
    assert t == q * n + t % n;
    var c := |g.blocks| * g.cells;
    assert g.Capacity() == c * n by { assert |g.blocks| * (g.cells * n) == (|g.blocks| * g.cells) * n; }
    if c <= q { MulMono(c, q, n); }
    MulMono(q + 1, c, n);
    Distribute(q, 1, n);
  }

  // ---------------------------------------------------------------------------
  // The fill loops
  // ---------------------------------------------------------------------------

  /** Starts of the K and V runs of one sub, by the formulas of the two fill functions: layers
      of a pack are whole kernel blocks apart, heads are sections of a K half. */
  method RunStarts(g: Side, k: nat, w: nat, page: nat, slot: nat, cell: nat, sub: nat) returns (dk: nat, dv: nat)
    requires g.Valid(k) && (g.layout == HeadMajor ==> g.cells == 1)
    requires page < |g.blocks| && g.PageBase(w) == Times(g.blocks[page], g.blockSize)
    requires cell == g.CellOf(w) && slot == g.SlotOf(w)
    ensures dk == g.Offset(k, w, sub, false) && dv == g.Offset(k, w, sub, true)
  {
    hide Side.PageBase, Side.CellOf, Side.SlotOf, AttnParser.KernelBytes, HndParser.KernelBytes, Times, Side.Valid;
    var base := Times(g.blocks[page], g.blockSize);
    if g.layout == TokenMajor {
      var kernelBytes := AttnParser.KernelBytes(g);
      dk := base + Times(Times(cell, k), kernelBytes) + Times(sub, kernelBytes) + Times(slot, g.row);
      dv := dk + kernelBytes / 2;
      SlotInside(g, k, w);
      AttnParser.OffsetAsParsed(g, k, w, 0, sub, false);
      AttnParser.OffsetAsParsed(g, k, w, 0, sub, true);
    } else {
      OnlyCell(g, k, w);
      dk := base + Times(sub, Times(g.kernel, g.row)) + Times(slot, g.row);
      dv := dk + g.blockSize / 2;
      HndParser.OffsetAsParsed(g, k, w, sub, false);
      HndParser.OffsetAsParsed(g, k, w, sub, true);
    }
  }

  lemma SlotInside(g: Side, k: nat, w: nat)
    requires g.Valid(k)
    ensures g.SlotOf(w) + 0 < g.kernel
  {
  }

  lemma OnlyCell(g: Side, k: nat, w: nat)
    requires g.Valid(k) && g.cells == 1
    ensures Times(g.CellOf(w), HndParser.KernelBytes(g, k)) == 0 && g.blockSize == HndParser.KernelBytes(g, k)
  {
    CellBelow(g, k, w);
    HndParser.SectionSizes(g, k);
    assert g.CellOf(w) == 0;
    assert Times(1, 2 * k) == 2 * k;
    assert 2 * k * g.UnitBytes() == 2 * (k * g.UnitBytes());
  }

  /** One kernel block of the tail: for every sub, the K run and the V run of n tokens. */
  method FillRound(g: Side, k: nat, w: nat, n: nat, page: nat, slot: nat, cell: nat, zeroSrc: nat, maxSeg: nat,
                   bounds: Bounds, before: seq<IpcBlock>)
    returns (ok: bool, out: seq<IpcBlock>)
    requires bounds.Valid() && maxSeg > 0 && g.Valid(k) && 0 < n && g.SlotOf(w) + n <= g.kernel
    requires g.layout == HeadMajor ==> g.cells == 1
    requires page < |g.blocks| && g.PageBase(w) == Times(g.blocks[page], g.blockSize)
    requires cell == g.CellOf(w) && slot == g.SlotOf(w)
    requires ReadsZeroBlock(before, 0, zeroSrc, maxSeg)
    ensures ok ==> ReadsZeroBlock(out, 0, zeroSrc, maxSeg)
    ensures ok ==> forall x: int :: Writes(out, x) == Writes(before, x) + Writes(RoundPackets(Rows(g, k), w, w + n, k), x)
    ensures ok <==> RunsFit(g, k, w, n, 0, k, zeroSrc, maxSeg, bounds)
  {
    hide *;
    out := before;
    var length := Times(n, g.row);
    var sub := 0;
    NoRuns(g, k, w, n);
    RunsJoin(g, k, w, n, 0, 0, k, zeroSrc, maxSeg, bounds);
    while sub < k
      invariant sub <= k && RunsFit(g, k, w, n, 0, sub, zeroSrc, maxSeg, bounds)
      invariant ReadsZeroBlock(out, 0, zeroSrc, maxSeg)
      invariant forall x: int :: Writes(out, x) == Writes(before, x) + Writes(RoundPackets(Rows(g, k), w, w + n, sub), x)
    {
      var dk, dv := RunStarts(g, k, w, page, slot, cell, sub);
      ghost var prev := out;
      RunFitsOne(g, k, w, n, sub, zeroSrc, maxSeg, bounds);
      RunsJoin(g, k, w, n, 0, sub, sub + 1, zeroSrc, maxSeg, bounds);
      RunsJoin(g, k, w, n, 0, sub + 1, k, zeroSrc, maxSeg, bounds);
      ok, out := EmitZeroFillSegments(zeroSrc, dk, length, maxSeg, bounds, out);
      if !ok { return; }
      StillZeroBlock(prev, out, zeroSrc, maxSeg);
      ghost var mid := out;
      ok, out := EmitZeroFillSegments(zeroSrc, dv, length, maxSeg, bounds, out);
      if !ok { return; }
      StillZeroBlock(mid, out, zeroSrc, maxSeg);
      forall x: int
        ensures Writes(out, x) == Writes(before, x) + Writes(RoundPackets(Rows(g, k), w, w + n, sub + 1), x)
      {
        RoundRunWrites(g, k, w, n, sub, x);
      }
      sub := sub + 1;
    }
    ok := true;
  }

  lemma NoRuns(g: Side, k: nat, w: nat, n: nat)
    ensures RoundPackets(Rows(g, k), w, w + n, 0) == [] && forall x: int :: Writes([], x) == 0
  {
  }

  lemma StillZeroBlock(prev: seq<IpcBlock>, out: seq<IpcBlock>, zeroSrc: nat, maxSeg: nat)
    requires |prev| <= |out| && out[..|prev|] == prev
    requires ReadsZeroBlock(prev, 0, zeroSrc, maxSeg) && ReadsZeroBlock(out, |prev|, zeroSrc, maxSeg)
    ensures ReadsZeroBlock(out, 0, zeroSrc, maxSeg)
  {
    forall i | 0 <= i < |out|
      ensures out[i].src == zeroSrc && 0 < out[i].len <= maxSeg
    {
      if i < |prev| { assert out[i] == out[..|prev|][i]; }
    }
  }

  /** One iteration of the fill: the part of the tail inside the kernel block of `pos`. */
  method FillCell(g: Side, k: nat, pos: nat, end: nat, zeroSrc: nat, maxSeg: nat, bounds: Bounds, before: seq<IpcBlock>)
    returns (ok: bool, out: seq<IpcBlock>, tokens: nat)
    requires bounds.Valid() && maxSeg > 0 && g.Valid(k) && pos < end == g.Capacity()
    requires g.layout == HeadMajor ==> g.cells == 1
    requires ReadsZeroBlock(before, 0, zeroSrc, maxSeg)
    ensures 0 < tokens <= end - pos && tokens == RunLength(g, pos)
    ensures ok ==> ReadsZeroBlock(out, 0, zeroSrc, maxSeg)
    ensures ok ==> forall x: int :: Writes(out, x) == Writes(before, x) + Writes(RoundPackets(Rows(g, k), pos, pos + tokens, k), x)
    ensures ok <==> RunsFit(g, k, pos, tokens, 0, k, zeroSrc, maxSeg, bounds)
  {
    hide *;
    AllHeld(g);
    var page, cell, slot := HndParser.Cursor(g, k, pos, end);
    tokens := Min(g.kernel - slot, end - pos);
    RunInside(g, k, pos);
    ok, out := FillRound(g, k, pos, tokens, page, slot, cell, zeroSrc, maxSeg, bounds, before);
  }

  lemma AllHeld(g: Side)
    ensures g.Holds(g.Capacity())
  {
  }

  /** Overwrites every row of the tokens from totalTokens to the end of the block table once,
      reading only the request's block 0. */
  method FillTail(srcBlocks: seq<nat>, pBlockSize: nat, g: Side, k: nat, totalTokens: nat, bounds: Bounds)
    returns (ok: bool, out: seq<IpcBlock>)
    requires bounds.Valid() && pBlockSize > 0 && g.Valid(k)
    requires g.layout == HeadMajor ==> g.cells == 1
    requires totalTokens < g.Capacity() ==> srcBlocks != []
    ensures totalTokens >= g.Capacity() ==> ok && out == []
    ensures ok && totalTokens < g.Capacity() ==>
              && ReadsZeroBlock(out, 0, Times(srcBlocks[0], pBlockSize), pBlockSize)
              && forall x: int :: Writes(out, x) == Writes(RangePackets(Rows(g, k), totalTokens, g.Capacity(), k), x)
    ensures totalTokens < g.Capacity() ==>
              var zeroSrc := Times(srcBlocks[0], pBlockSize);
              (ok <==> TailInRange(g, k, totalTokens, totalTokens, g.Capacity(), zeroSrc, pBlockSize, bounds))
  {
    hide *;
    var endTokens := g.Capacity();
    out := [];
    ok := true;
    if totalTokens >= endTokens { return; }
    var zeroSrc := Times(srcBlocks[0], pBlockSize);
    ghost var f := Rows(g, k);
    var pos := totalTokens;
    NothingFilled(f, totalTokens, k, zeroSrc, pBlockSize);
    TailJoin(g, k, totalTokens, totalTokens, totalTokens, endTokens, zeroSrc, pBlockSize, bounds);
    FirstRun(g, totalTokens);
    while pos < endTokens
      invariant totalTokens <= pos <= endTokens && ok && (pos < endTokens ==> RunAt(g, totalTokens, pos))
      invariant TailInRange(g, k, totalTokens, totalTokens, pos, zeroSrc, pBlockSize, bounds)
      invariant ReadsZeroBlock(out, 0, zeroSrc, pBlockSize)
      invariant forall x: int :: Writes(out, x) == Writes(RangePackets(f, totalTokens, pos, k), x)
    {
      OneRun(g, k, totalTokens, pos, zeroSrc, pBlockSize, bounds);
      var tokens;
      ok, out, tokens := FillCell(g, k, pos, endTokens, zeroSrc, pBlockSize, bounds, out);
      TailJoin(g, k, totalTokens, totalTokens, pos, pos + tokens, zeroSrc, pBlockSize, bounds);
      TailJoin(g, k, totalTokens, totalTokens, pos + tokens, endTokens, zeroSrc, pBlockSize, bounds);
      if !ok { return; }
      forall x: int
        ensures Writes(out, x) == Writes(RangePackets(f, totalTokens, pos + tokens, k), x)
      {
        TailRoundDone(f, totalTokens, pos, pos + tokens, k, x);
      }
      pos := pos + tokens;
    }
  }

  lemma FirstRun(g: Side, total: nat)
    ensures RunAt(g, total, total)
  {
  }

  lemma NothingFilled(f: PacketFn, lo: nat, k: nat, zeroSrc: nat, maxSeg: nat)
    ensures ReadsZeroBlock([], 0, zeroSrc, maxSeg)
    ensures forall x: int :: Writes([], x) == Writes(RangePackets(f, lo, lo, k), x)
  {
  }

  lemma TailRoundDone(f: PacketFn, lo: nat, mid: nat, hi: nat, k: nat, x: int)
    requires lo <= mid <= hi
    ensures Writes(RangePackets(f, lo, hi, k), x)
         == Writes(RangePackets(f, lo, mid, k), x) + Writes(RoundPackets(f, mid, hi, k), x)
  {
    hide *;
    RoundSameWrites(f, mid, hi, k, x);
    RangeSplit(f, lo, mid, hi, k);
    WritesConcat(RangePackets(f, lo, mid, k), RangePackets(f, mid, hi, k), x);
  }

  // ---------------------------------------------------------------------------
  // Token packets and tail fill together
  // ---------------------------------------------------------------------------

  /** Token packets for [seen, total) and the fill from total to the end of the block table
      together write every row byte of [seen, end) once, and nothing else. */
  lemma TokensAndTail(j: Job, seen: nat, total: nat, tokens: seq<IpcBlock>, fill: seq<IpcBlock>, x: int)
    requires j.p.Valid(j.k) && j.swap && Distinct(j.p.blocks) && seen <= total <= j.p.Capacity()
    requires SameCopy(tokens, j.Reference(seen, total))
    requires Writes(fill, x) == Writes(RangePackets(Rows(j.p, j.k), total, j.p.Capacity(), j.k), x)
    ensures Writes(tokens + fill, x) == if InRows(j.p, j.k, seen, j.p.Capacity(), x) then 1 else 0
  {
    hide *;
    var end := j.p.Capacity();
    AllHeld(j.p);
    var f := Rows(j.p, j.k);
    WritesConcat(tokens, fill, x);
    SameCopySameWrites(tokens, j.Reference(seen, total), x);
    MirroredTargets(j, seen, total, x);
    RangeSplit(f, seen, total, end, j.k);
    WritesConcat(RangePackets(f, seen, total, j.k), RangePackets(f, total, end, j.k), x);
    RowsWrites(j.p, j.k, seen, end, x);
  }

  lemma Completed(j: Job, seen: nat, total: nat, tokens: seq<IpcBlock>, fill: seq<IpcBlock>)
    requires j.p.Valid(j.k) && j.swap && Distinct(j.p.blocks) && seen <= total <= j.p.Capacity()
    requires SameCopy(tokens, j.Reference(seen, total))
    requires total == j.p.Capacity() ==> fill == []
    requires total < j.p.Capacity() ==>
               forall x: int :: Writes(fill, x) == Writes(RangePackets(Rows(j.p, j.k), total, j.p.Capacity(), j.k), x)
    ensures forall x: int :: Writes(tokens + fill, x) == if InRows(j.p, j.k, seen, j.p.Capacity(), x) then 1 else 0
  {
    hide *;
    NothingFilled(Rows(j.p, j.k), total, j.k, 0, 0);
    forall x: int
      ensures Writes(tokens + fill, x) == if InRows(j.p, j.k, seen, j.p.Capacity(), x) then 1 else 0
    {
      TokensAndTail(j, seen, total, tokens, fill, x);
    }
  }

  lemma TailFits(j: Job, total: nat, bounds: Bounds, narrowPages: nat, widePages: nat)
    requires j.Valid() && j.swap && j.d.blocks != [] && TablesInTensors(j, bounds, narrowPages, widePages)
    ensures TailInRange(j.p, j.k, total, total, j.p.Capacity(), Times(j.d.blocks[0], j.d.blockSize), j.d.blockSize, bounds)
  {
    hide Side.Offset;
    MulStrict(j.d.blocks[0], widePages, if j.d.blockSize > 0 then j.d.blockSize else 1);
    PageBytesPositive(j.d, j.WideSubs());
    forall t: nat, sub: nat, v: bool | total <= t < j.p.Capacity() && sub < j.k
      ensures j.p.Offset(j.k, t, sub, v) + j.p.row <= bounds.dstCapacity
    {
      RowEnd(j.p, j.k, j.p.Capacity(), t, sub, v, narrowPages);
    }
    TailFitsAll(j.p, j.k, total, Times(j.d.blocks[0], j.d.blockSize), j.d.blockSize, bounds);
  }
}
