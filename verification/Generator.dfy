/** The generator for every kind of component: attention streams with padding of the last page,
    whole pages, and recurrent state. */
module Generator {
  import opened Arith
  import opened BlockAligned
  import opened Copies
  import opened LayoutPlan
  import opened LegacyParser
  import opened TokenStream
  import opened StatePlan
  import opened Wrappers
  import StateDriver

  // ---------------------------------------------------------------------------
  // Padding of the last page
  // ---------------------------------------------------------------------------

  /** Token a + i of the first source block onto the slot of token b + i. */
  function FillAt(x: Stream, a: nat, b: nat): IpcBlock
    requires x.src.blocks != [] && x.src.ntpb > 0 && a < x.src.ntpb
    requires x.dst.ntpb > 0 && Page(b, x.dst.ntpb) < |x.dst.blocks|
  {
    IpcBlock(Times(x.src.blocks[0], x.src.stride) + Times(a, x.src.token) + x.src.offset, x.dst.At(b), x.bytes)
  }

  predicate FillsFrom(x: Stream, a: nat, b: nat, n: nat) {
    x.src.blocks != [] && x.src.ntpb > 0 && a + n <= x.src.ntpb && x.dst.Covers(b + n)
  }

  /** n padding records from source token a and destination token b on. */
  function FillList(x: Stream, a: nat, b: nat, n: nat): seq<IpcBlock>
    requires FillsFrom(x, a, b, n)
  {
    if n == 0 then []
    else
      InTable(b + n - 1, x.dst.ntpb, |x.dst.blocks|);
      FillList(x, a, b, n - 1) + [FillAt(x, a + n - 1, b + n - 1)]
  }

  /** The padding of one head for one round. */
  method FillHead(blocks: seq<IpcBlock>, x: Stream, srcPos: nat, dstPos: nat, tokens: nat) returns (out: seq<IpcBlock>)
    requires FillsFrom(x, srcPos, dstPos, tokens) && tokens > 0 && Slot(dstPos, x.dst.ntpb) + tokens <= x.dst.ntpb
    ensures out == blocks + FillList(x, srcPos, dstPos, tokens)
  {
    hide Slot, Page, Side.At;
    InTable(dstPos, x.dst.ntpb, |x.dst.blocks|);
    var srcPage := Times(x.src.blocks[0], x.src.stride);
    var dstPage := Times(x.dst.blocks[Page(dstPos, x.dst.ntpb)], x.dst.stride);
    out := blocks;
    for i := 0 to tokens
      invariant FillsFrom(x, srcPos, dstPos, i) && out == blocks + FillList(x, srcPos, dstPos, i)
    {
      var srcOff := srcPage + Times(srcPos + i, x.src.token) + x.src.offset;
      var dstOff := dstPage + Times(Slot(dstPos, x.dst.ntpb) + i, x.dst.token) + x.dst.offset;
      TokenOfPage(x.dst, dstPos, i);
      out := out + [IpcBlock(srcOff, dstOff, x.bytes)];
    }
  }

  /** The targets of a stream, as a stream onto itself. */
  function Onto(x: Stream): Stream {
    Stream(x.dst, x.dst, x.bytes)
  }

  /** Padding writes the slots that the tokens themselves would. */
  lemma {:induction false} FillTargets(x: Stream, a: nat, b: nat, n: nat, y: int)
    requires FillsFrom(x, a, b, n)
    ensures Onto(x).Covers(b + n)
    ensures Writes(FillList(x, a, b, n), y) == Writes(Records(Onto(x), b, b + n), y)
  {
    hide WritesToCount, CountTo, Side.At;
    if n > 0 {
      CoversLess(Onto(x), b + n - 1, b + n);
      FillTargets(x, a, b, n - 1, y);
      Held(Onto(x), b + n, b + n - 1);
      Push(FillList(x, a, b, n - 1), FillAt(x, a + n - 1, b + n - 1), 0, y);
      Push(Records(Onto(x), b, b + n - 1), Onto(x).At(b + n - 1), 0, y);
    }
  }

  function OntoSpec(c: AttnSpec): AttnSpec {
    c.(srcNtpb := c.dstNtpb, srcBlockStride := c.dstBlockStride, srcTokenStride := c.dstTokenStride)
  }

  function OntoPath(p: Path): Path {
    p.(srcBase := p.dstBase, srcGlobal := p.dstGlobal, srcHead := p.dstHead)
  }

  /** The records of the tokens [lo, hi) of a component, as far as their targets go. */
  function TargetRecords(c: AttnSpec, p: Path, dst: seq<nat>, lo: nat, hi: nat, n: nat): seq<IpcBlock>
    requires lo <= hi && Covers(OntoSpec(c), dst, dst, hi)
  {
    HeadRecords(OntoSpec(c), OntoPath(p), dst, dst, lo, hi, n)
  }

  /** The first source block holds as many tokens as the last receiving page has slots left. */
  predicate CanPad(c: AttnSpec, src: seq<nat>, dst: seq<nat>, total: nat) {
    Covers(c, src, dst, total) && Left(c.dstNtpb, total) <= c.srcNtpb
  }

  lemma PadCovers(c: AttnSpec, p: Path, src: seq<nat>, dst: seq<nat>, total: nat, h: nat)
    requires CanPad(c, src, dst, total)
    ensures Left(c.dstNtpb, total) > 0 ==> FillsFrom(StreamOf(c, p, src, dst, h), 0, total, Left(c.dstNtpb, total))
    ensures Covers(OntoSpec(c), dst, dst, total + Left(c.dstNtpb, total)) && Covers(OntoSpec(c), dst, dst, total)
  {
    LeftCovered(c.dstNtpb, total, |dst|);
  }

  /** The padding of one stream: for every head below n, token i of the first source block onto the slot
      of token total + i, for every slot left. */
  function PadRecords(c: AttnSpec, p: Path, src: seq<nat>, dst: seq<nat>, total: nat, n: nat): seq<IpcBlock>
    requires CanPad(c, src, dst, total)
  {
    var left := Left(c.dstNtpb, total);
    if n == 0 || left == 0 then []
    else
      PadCovers(c, p, src, dst, total, n - 1);
      PadRecords(c, p, src, dst, total, n - 1) + FillList(StreamOf(c, p, src, dst, n - 1), 0, total, left)
  }

  lemma NextPad(c: AttnSpec, p: Path, src: seq<nat>, dst: seq<nat>, total: nat, h: nat)
    requires CanPad(c, src, dst, total) && Left(c.dstNtpb, total) > 0
    ensures FillsFrom(StreamOf(c, p, src, dst, h), 0, total, Left(c.dstNtpb, total))
    ensures PadRecords(c, p, src, dst, total, 0) == []
    ensures PadRecords(c, p, src, dst, total, h + 1)
         == PadRecords(c, p, src, dst, total, h) + FillList(StreamOf(c, p, src, dst, h), 0, total, Left(c.dstNtpb, total))
  {
    PadCovers(c, p, src, dst, total, h);
  }

  lemma {:induction false} FillListAt(x: Stream, a: nat, b: nat, n: nat, i: nat)
    requires FillsFrom(x, a, b, n) && i < n
    ensures |FillList(x, a, b, n)| == n && Page(b + i, x.dst.ntpb) < |x.dst.blocks|
    ensures FillList(x, a, b, n)[i] == FillAt(x, a + i, b + i)
  {
    hide FillAt, Page;
    InTable(b + n - 1, x.dst.ntpb, |x.dst.blocks|);
    if i < n - 1 {
      FillListAt(x, a, b, n - 1, i);
    } else if n > 1 {
      FillListAt(x, a, b, n - 1, 0);
    }
  }

  lemma FillAddress(c: AttnSpec, p: Path, src: seq<nat>, dst: seq<nat>, h: nat, total: nat, i: nat)
    requires src != [] && i < c.srcNtpb && c.dstNtpb > 0 && (total + i) / c.dstNtpb < |dst|
    ensures FillAt(StreamOf(c, p, src, dst, h), i, total + i) ==
            IpcBlock(src[0] * c.srcBlockStride + i * c.srcTokenStride + p.srcBase + p.srcGlobal + h * p.srcHead,
                     HeadAddress(dst, c.dstNtpb, c.dstBlockStride, c.dstTokenStride, p.dstBase, p.dstGlobal, p.dstHead, h,
                                 total + i),
                     c.bytesPerToken)
  {
  }

  lemma {:induction false} PadLength(c: AttnSpec, p: Path, src: seq<nat>, dst: seq<nat>, total: nat, n: nat)
    requires CanPad(c, src, dst, total)
    ensures |PadRecords(c, p, src, dst, total, n)| == n * Left(c.dstNtpb, total)
  {
    hide StreamOf, FillAt, FillsFrom;
    var left := Left(c.dstNtpb, total);
    if n > 0 && left > 0 {
      PadLength(c, p, src, dst, total, n - 1);
      NextPad(c, p, src, dst, total, n - 1);
      FillListAt(StreamOf(c, p, src, dst, n - 1), 0, total, left, 0);
      RowBelow(n - 1, n, left, 0);
    }
  }

  /** Slot total + i of head h is padded from token i of the first source block, same head. */
  lemma {:induction false} PadRecord(c: AttnSpec, p: Path, src: seq<nat>, dst: seq<nat>, total: nat, n: nat, h: nat, i: nat)
    requires CanPad(c, src, dst, total) && h < n && i < Left(c.dstNtpb, total)
    ensures src != [] && (total + i) / c.dstNtpb < |dst|
    ensures |PadRecords(c, p, src, dst, total, n)| == n * Left(c.dstNtpb, total)
    ensures Nest(h, Left(c.dstNtpb, total), i) < n * Left(c.dstNtpb, total)
    ensures PadRecords(c, p, src, dst, total, n)[Nest(h, Left(c.dstNtpb, total), i)] ==
            IpcBlock(src[0] * c.srcBlockStride + i * c.srcTokenStride + p.srcBase + p.srcGlobal + h * p.srcHead,
                     HeadAddress(dst, c.dstNtpb, c.dstBlockStride, c.dstTokenStride, p.dstBase, p.dstGlobal, p.dstHead, h,
                                 total + i),
                     c.bytesPerToken)
  {
    hide FillAt, HeadAddress, Left;
    var left := Left(c.dstNtpb, total);
    var x := StreamOf(c, p, src, dst, n - 1);
    PadLength(c, p, src, dst, total, n);
    PadLength(c, p, src, dst, total, n - 1);
    NextPad(c, p, src, dst, total, n - 1);
    FillListAt(x, 0, total, left, i);
    RowBelow(h, n, left, i);
    if h < n - 1 {
      PadRecord(c, p, src, dst, total, n - 1, h, i);
    } else {
      FillAddress(c, p, src, dst, h, total, i);
    }
  }

  /** The padding writes exactly what the missing tokens of the last page would. */
  lemma {:induction false} PadWrites(c: AttnSpec, p: Path, src: seq<nat>, dst: seq<nat>, total: nat, n: nat, y: int)
    requires CanPad(c, src, dst, total)
    ensures Covers(OntoSpec(c), dst, dst, total + Left(c.dstNtpb, total))
    ensures Writes(PadRecords(c, p, src, dst, total, n), y)
         == Writes(TargetRecords(c, p, dst, total, total + Left(c.dstNtpb, total), n), y)
  {
    hide Covers, Left, StreamOf, FillsFrom, Records, WritesToCount, CountTo;
    PadCovers(c, p, src, dst, total, 0);
    var left, cd, pd := Left(c.dstNtpb, total), OntoSpec(c), OntoPath(p);
    if left == 0 {
      NoHeads(cd, pd, dst, dst, total, n);
    } else if n > 0 {
      PadWrites(c, p, src, dst, total, n - 1, y);
      var x := StreamOf(c, p, src, dst, n - 1);
      NextPad(c, p, src, dst, total, n - 1);
      NextHead(cd, pd, dst, dst, total, total + left, n - 1);
      OntoStream(c, p, src, dst, n - 1);
      FillTargets(x, 0, total, left, y);
      WritesConcat(PadRecords(c, p, src, dst, total, n - 1), FillList(x, 0, total, left), y);
      WritesConcat(TargetRecords(c, p, dst, total, total + left, n - 1), Records(Onto(x), total, total + left), y);
    }
  }

  lemma OntoStream(c: AttnSpec, p: Path, src: seq<nat>, dst: seq<nat>, h: nat)
    ensures StreamOf(OntoSpec(c), OntoPath(p), dst, dst, h) == Onto(StreamOf(c, p, src, dst, h))
  {
  }

  /** Pads one stream, in rounds that end at a page boundary of either side; `ok` is false when a
      round leaves the first source block. */
  method GenerateKBlockFill(blocks: seq<IpcBlock>, c: AttnSpec, p: Path, src: seq<nat>, dst: seq<nat>, total: nat)
    returns (ok: bool, out: seq<IpcBlock>)
    requires Covers(c, src, dst, total)
    ensures ok <==> CanPad(c, src, dst, total)
    ensures ok ==> out == blocks + PadRecords(c, p, src, dst, total, c.headNum)
  {
    hide PadRecords, FillList, StreamOf, Covers, Page;
    out, ok := blocks, true;
    PageSizes(c, p, src, dst, total);
    if total == 0 {
      NoPadding(c, p, src, dst, total);
      return;
    }
    var filled := Slot(total, c.dstNtpb);
    if filled == 0 {
      NoPadding(c, p, src, dst, total);
      return;
    }
    var toFill := c.dstNtpb - filled;
    var srcPos, dstPos, done := 0, total, 0;
    while done < toFill
      invariant done == srcPos && dstPos == total + done && (done == 0 || done == Min(c.srcNtpb, toFill))
      invariant done == 0 ==> out == blocks
      invariant done > 0 && toFill <= c.srcNtpb ==> out == blocks + PadRecords(c, p, src, dst, total, c.headNum)
      decreases toFill - done
    {
      if Page(srcPos, c.srcNtpb) != 0 {
        FirstPageOnly(srcPos, c.srcNtpb);
        return false, out;
      }
      FirstPageOnly(srcPos, c.srcNtpb);
      var tokens := Min(Min(c.srcNtpb - Slot(srcPos, c.srcNtpb), c.dstNtpb - Slot(dstPos, c.dstNtpb)), toFill - done);
      for h := 0 to c.headNum
        invariant toFill <= c.srcNtpb ==> out == blocks + PadRecords(c, p, src, dst, total, h)
      {
        RoundFills(c, p, src, dst, total, h, tokens);
        if toFill <= c.srcNtpb { NextPad(c, p, src, dst, total, h); }
        out := FillHead(out, StreamOf(c, p, src, dst, h), srcPos, dstPos, tokens);
      }
      srcPos, dstPos, done := srcPos + tokens, dstPos + tokens, done + tokens;
    }
  }

  lemma PageSizes(c: AttnSpec, p: Path, src: seq<nat>, dst: seq<nat>, total: nat)
    requires Covers(c, src, dst, total)
    ensures c.srcNtpb > 0 && c.dstNtpb > 0
    ensures CanPad(c, src, dst, total) ==> PadRecords(c, p, src, dst, total, 0) == []
  {
  }

  lemma NoPadding(c: AttnSpec, p: Path, src: seq<nat>, dst: seq<nat>, total: nat)
    requires Covers(c, src, dst, total) && Left(c.dstNtpb, total) == 0
    ensures CanPad(c, src, dst, total) && PadRecords(c, p, src, dst, total, c.headNum) == []
  {
  }

  lemma FirstPageOnly(w: nat, n: nat)
    requires n > 0
    ensures Page(w, n) == 0 <==> w < n
    ensures w < n ==> Slot(w, n) == w
  {
    assert w == w / n * n + w % n;
    if w < n { DivMod(0, n, w); }
  }

  lemma RoundFills(c: AttnSpec, p: Path, src: seq<nat>, dst: seq<nat>, total: nat, h: nat, tokens: nat)
    requires Covers(c, src, dst, total) && 0 < tokens <= Left(c.dstNtpb, total) && tokens <= c.srcNtpb
    ensures FillsFrom(StreamOf(c, p, src, dst, h), 0, total, tokens)
    ensures StreamOf(c, p, src, dst, h).dst.ntpb == c.dstNtpb
  {
    LeftCovered(c.dstNtpb, total, |dst|);
  }

  /** The padding of a component: K stream, then V stream. */
  function SpecPads(c: AttnSpec, src: seq<nat>, dst: seq<nat>, total: nat): seq<IpcBlock>
    requires CanPad(c, src, dst, total)
  {
    PadRecords(c, c.k, src, dst, total, c.headNum)
    + if c.v.Some? then PadRecords(c, c.v.value, src, dst, total, c.headNum) else []
  }

  method GenerateAttnFill(blocks: seq<IpcBlock>, c: AttnSpec, src: seq<nat>, dst: seq<nat>, total: nat)
    returns (ok: bool, out: seq<IpcBlock>)
    requires Covers(c, src, dst, total)
    ensures ok <==> CanPad(c, src, dst, total)
    ensures ok ==> out == blocks + SpecPads(c, src, dst, total)
  {
    hide PadRecords, CanPad, Covers;
    ok, out := GenerateKBlockFill(blocks, c, c.k, src, dst, total);
    if ok && c.v.Some? {
      ok, out := GenerateKBlockFill(out, c, c.v.value, src, dst, total);
    }
  }

  /** The tokens of a component onto itself: K stream, then V stream. */
  function SpecTargets(c: AttnSpec, dst: seq<nat>, lo: nat, hi: nat): seq<IpcBlock>
    requires lo <= hi && Covers(OntoSpec(c), dst, dst, hi)
  {
    TargetRecords(c, c.k, dst, lo, hi, c.headNum)
    + if c.v.Some? then TargetRecords(c, c.v.value, dst, lo, hi, c.headNum) else []
  }

  /** A stream writes what the stream of its targets onto themselves writes. */
  lemma {:induction false} RecordTargets(x: Stream, lo: nat, hi: nat, y: int)
    requires lo <= hi && x.Covers(hi)
    ensures Onto(x).Covers(hi) && Writes(Records(x, lo, hi), y) == Writes(Records(Onto(x), lo, hi), y)
    decreases hi
  {
    hide WritesToCount, CountTo, Side.At;
    if lo < hi {
      CoversLess(x, hi - 1, hi);
      CoversLess(Onto(x), hi - 1, hi);
      RecordTargets(x, lo, hi - 1, y);
      Held(x, hi, hi - 1);
      Push(Records(x, lo, hi - 1), x.At(hi - 1), 0, y);
      Push(Records(Onto(x), lo, hi - 1), Onto(x).At(hi - 1), 0, y);
    }
  }

  lemma {:induction false} HeadTargets(c: AttnSpec, p: Path, src: seq<nat>, dst: seq<nat>, lo: nat, hi: nat, n: nat, y: int)
    requires lo <= hi && Covers(c, src, dst, hi)
    ensures Covers(OntoSpec(c), dst, dst, hi)
    ensures Writes(HeadRecords(c, p, src, dst, lo, hi, n), y) == Writes(TargetRecords(c, p, dst, lo, hi, n), y)
  {
    hide StreamOf, Records, WritesToCount, CountTo;
    if n > 0 {
      HeadTargets(c, p, src, dst, lo, hi, n - 1, y);
      var x := StreamOf(c, p, src, dst, n - 1);
      NextHead(c, p, src, dst, lo, hi, n - 1);
      NextHead(OntoSpec(c), OntoPath(p), dst, dst, lo, hi, n - 1);
      OntoStream(c, p, src, dst, n - 1);
      RecordTargets(x, lo, hi, y);
      WritesConcat(HeadRecords(c, p, src, dst, lo, hi, n - 1), Records(x, lo, hi), y);
      WritesConcat(TargetRecords(c, p, dst, lo, hi, n - 1), Records(Onto(x), lo, hi), y);
    }
  }

  lemma TargetsJoin(c: AttnSpec, p: Path, dst: seq<nat>, lo: nat, mid: nat, hi: nat, y: int)
    requires lo <= mid <= hi && Covers(OntoSpec(c), dst, dst, hi) && Covers(OntoSpec(c), dst, dst, mid)
    ensures Writes(TargetRecords(c, p, dst, lo, hi, c.headNum), y)
         == Writes(TargetRecords(c, p, dst, lo, mid, c.headNum), y) + Writes(TargetRecords(c, p, dst, mid, hi, c.headNum), y)
  {
    hide HeadRecords, WritesToCount, CountTo, SameCopy, Covers;
    var a, b := TargetRecords(c, p, dst, lo, mid, c.headNum), TargetRecords(c, p, dst, mid, hi, c.headNum);
    SameCopyReflexive(a);
    HeadRounds(OntoSpec(c), OntoPath(p), dst, dst, lo, mid, hi, c.headNum, a);
    SameCopySameWrites(a + b, TargetRecords(c, p, dst, lo, hi, c.headNum), y);
    WritesConcat(a, b, y);
  }

  /** One stream: tokens and padding together. */
  lemma PathComplete(c: AttnSpec, p: Path, src: seq<nat>, dst: seq<nat>, lo: nat, total: nat, y: int)
    requires lo <= total && CanPad(c, src, dst, total)
    ensures Covers(OntoSpec(c), dst, dst, total + Left(c.dstNtpb, total))
    ensures Writes(HeadRecords(c, p, src, dst, lo, total, c.headNum), y) + Writes(PadRecords(c, p, src, dst, total, c.headNum), y)
         == Writes(TargetRecords(c, p, dst, lo, total + Left(c.dstNtpb, total), c.headNum), y)
  {
    hide Covers, Left, PadRecords, HeadRecords, TargetRecords, WritesToCount, CountTo;
    PadCovers(c, p, src, dst, total, 0);
    PadWrites(c, p, src, dst, total, c.headNum, y);
    HeadTargets(c, p, src, dst, lo, total, c.headNum, y);
    TargetsJoin(c, p, dst, lo, total, total + Left(c.dstNtpb, total), y);
  }

  /** The last task of a padded component writes, byte by byte, what the tokens up to the end of the
      last page would. */
  lemma LastPageComplete(c: AttnSpec, src: seq<nat>, dst: seq<nat>, lo: nat, total: nat, y: int)
    requires lo <= total && CanPad(c, src, dst, total)
    ensures Covers(OntoSpec(c), dst, dst, total + Left(c.dstNtpb, total))
    ensures Writes(SpecRecords(c, src, dst, lo, total) + SpecPads(c, src, dst, total), y)
         == Writes(SpecTargets(c, dst, lo, total + Left(c.dstNtpb, total)), y)
  {
    hide Covers, Left, PadRecords, HeadRecords, TargetRecords, WritesToCount, CountTo;
    PageSizes(c, c.k, src, dst, total);
    var end := total + Left(c.dstNtpb, total);
    PathComplete(c, c.k, src, dst, lo, total, y);
    WritesConcat(SpecRecords(c, src, dst, lo, total), SpecPads(c, src, dst, total), y);
    if c.v.Some? {
      var v := c.v.value;
      PathComplete(c, v, src, dst, lo, total, y);
      WritesConcat(HeadRecords(c, c.k, src, dst, lo, total, c.headNum), HeadRecords(c, v, src, dst, lo, total, c.headNum), y);
      WritesConcat(PadRecords(c, c.k, src, dst, total, c.headNum), PadRecords(c, v, src, dst, total, c.headNum), y);
      WritesConcat(TargetRecords(c, c.k, dst, lo, end, c.headNum), TargetRecords(c, v, dst, lo, end, c.headNum), y);
    } else {
      assert SpecRecords(c, src, dst, lo, total) == HeadRecords(c, c.k, src, dst, lo, total, c.headNum);
      assert SpecPads(c, src, dst, total) == PadRecords(c, c.k, src, dst, total, c.headNum);
      assert SpecTargets(c, dst, lo, end) == TargetRecords(c, c.k, dst, lo, end, c.headNum);
    }
  }

  // ---------------------------------------------------------------------------
  // Whole pages
  // ---------------------------------------------------------------------------

  predicate AlignedCovered(c: AttnSpec, t: Task, src: seq<nat>, dst: seq<nat>) {
    c.srcNtpb == c.dstNtpb && Covered(t, c.srcNtpb, |src|) && Covered(t, c.srcNtpb, |dst|)
  }

  /** The pages a block-aligned component sends for a task: those whose last token is there and, on
      completion, the page of the last token. */
  function AlignedRecords(c: AttnSpec, t: Task, src: seq<nat>, dst: seq<nat>): seq<IpcBlock>
    requires AlignedCovered(c, t, src, dst)
  {
    MarkInTables(c, t, src, dst);
    if c.srcBlockStride == 0 then []
    else MlaRecords(src, dst, c.srcBlockStride, c.dstBlockStride, c.srcBlockStride,
                    Page(t.seen, c.srcNtpb), Mark(t, t.End(), c.srcNtpb))
  }

  lemma MarkInTables(c: AttnSpec, t: Task, src: seq<nat>, dst: seq<nat>)
    requires AlignedCovered(c, t, src, dst)
    ensures Page(t.seen, c.srcNtpb) <= Mark(t, t.End(), c.srcNtpb) <= |src|
    ensures Mark(t, t.End(), c.srcNtpb) <= |dst|
  {
    hide Page, Slot, CeilDiv;
    PageBelow(t.End(), c.srcNtpb, |src|);
    PageBelow(t.End(), c.srcNtpb, |dst|);
    PageMono(t.seen, t.End(), c.srcNtpb);
    CeilStep(t.End(), c.srcNtpb);
  }

  method GenerateBlockAligned(blocks: seq<IpcBlock>, c: AttnSpec, t: Task, src: seq<nat>, dst: seq<nat>)
    returns (out: seq<IpcBlock>)
    requires AlignedCovered(c, t, src, dst)
    ensures out == blocks + AlignedRecords(c, t, src, dst)
  {
    hide Page, Slot, CeilDiv, Mark, Times, Covered;
    var ntpb := c.srcNtpb;
    PositivePage(t, ntpb, |src|);
    MarkInTables(c, t, src, dst);
    MarkStart(t, ntpb);
    ghost var first := Page(t.seen, ntpb);
    ghost var pages := MlaRecords(src, dst, c.srcBlockStride, c.dstBlockStride, c.srcBlockStride, first, Mark(t, t.End(), ntpb));
    var done := 0;
    out := blocks;
    while done < t.new_
      invariant done <= t.new_ && (done == 0 || Slot(t.seen + done, ntpb) == 0 || done == t.new_)
      invariant first <= Mark(t, t.seen + done, ntpb) <= first + |pages|
      invariant out == blocks + if c.srcBlockStride == 0 then [] else pages[..Mark(t, t.seen + done, ntpb) - first]
    {
      var cur := t.seen + done;
      var blkIdx, tokenIdx := Page(cur, ntpb), Slot(cur, ntpb);
      InsideTable(t, cur, ntpb, |src|);
      InsideTable(t, cur, ntpb, |dst|);
      var tokens := Min(ntpb - tokenIdx, t.new_ - done);
      WalkStep(t, cur, tokens, t.new_ - done, ntpb);
      MarkBelow(t, cur + tokens, ntpb);
      var length := 0;
      if tokens != ntpb {
        if t.reachLast {
          length := c.srcBlockStride;
        } else if tokenIdx == 0 {
          length := 0;
        } else if tokenIdx + tokens == ntpb {
          length := c.srcBlockStride;
        } else {
          length := 0;
        }
      } else {
        length := c.srcBlockStride;
      }
      if length > 0 {
        out := out + [IpcBlock(Times(src[blkIdx], c.srcBlockStride), Times(dst[blkIdx], c.dstBlockStride), length)];
      }
      done := done + tokens;
    }
    assert t.seen + done == t.End();
    assert pages[..|pages|] == pages;
  }

  lemma MarkStart(t: Task, ntpb: nat)
    requires ntpb > 0
    ensures Mark(t, t.seen, ntpb) == Page(t.seen, ntpb)
  {
  }

  lemma MarkBelow(t: Task, wrote: nat, ntpb: nat)
    requires ntpb > 0 && t.seen < wrote <= t.End()
    ensures Mark(t, wrote, ntpb) <= Mark(t, t.End(), ntpb)
  {
    hide Page, Slot;
    PageMono(wrote, t.End(), ntpb);
    PageMono(wrote + ntpb - 1, t.End() + ntpb - 1, ntpb);
    CeilIsPage(wrote, ntpb);
    CeilIsPage(t.End(), ntpb);
  }

  lemma CeilIsPage(w: nat, n: nat)
    requires n > 0
    ensures CeilDiv(w, n) == Page(w + n - 1, n)
  {
  }

  lemma WholePages(src: seq<nat>, dst: seq<nat>, size: nat, lo: nat, hi: nat)
    requires lo <= hi <= |src| && hi <= |dst|
    ensures MlaRecords(src, dst, size, size, size, lo, hi) == PageRecords(src, dst, size, lo, hi)
  {
  }

  /** Against the block-aligned parser: it sends in addition the allocated pages after the last
      token, so both send the same pages exactly when there are none or a later chunk follows. */
  lemma AlignedAgainstParser(c: AttnSpec, t: Task, src: seq<nat>, dst: seq<nat>)
    requires AlignedCovered(c, t, src, dst) && (t.reachLast ==> |src| == |dst|) && c.srcBlockStride == c.dstBlockStride > 0
    ensures var ntpb, size := c.srcNtpb, c.srcBlockStride;
            && FirstPage(t, ntpb) <= EndPage(t, ntpb, |src|) <= |src| && EndPage(t, ntpb, |src|) <= |dst|
            && CeilDiv(t.End(), ntpb) <= |src|
            && var sent := PageRecords(src, dst, size, FirstPage(t, ntpb), EndPage(t, ntpb, |src|));
            && sent == AlignedRecords(c, t, src, dst)
                       + (if t.reachLast then PageRecords(src, dst, size, CeilDiv(t.End(), ntpb), |src|) else [])
            && (sent == AlignedRecords(c, t, src, dst) <==> t.reachLast ==> CeilDiv(t.End(), ntpb) == |src|)
  {
    hide Page, Slot, CeilDiv, PageRecords, MlaRecords, Covered;
    var ntpb, size := c.srcNtpb, c.srcBlockStride;
    PositivePage(t, ntpb, |src|);
    BothTables(t, ntpb, |src|, |dst|);
    EndInTable(t, ntpb, |src|);
    MarkInTables(c, t, src, dst);
    CeilStep(t.End(), ntpb);
    WholePages(src, dst, size, Page(t.seen, ntpb), Mark(t, t.End(), ntpb));
    if t.reachLast {
      if t.new_ > 0 {
        PagesJoin(src, dst, size, Page(t.seen, ntpb), CeilDiv(t.End(), ntpb), |src|);
      }
    }
  }

  /** One token and two allocated pages: the parser sends the second page as well. */
  lemma SparePage()
    ensures var c, t, table := AttnSpec(2, 2, 2, 2, 1, 1, 1, 1, NO_OFFSET, None), Task(0, 1, true), [0, 1];
            && AlignedCovered(c, t, table, table) && EndPage(t, 2, 2) == 2 && FirstPage(t, 2) == 0
            && PageRecords(table, table, 2, 0, 2) != AlignedRecords(c, t, table, table)
  {
    AlignedAgainstParser(AttnSpec(2, 2, 2, 2, 1, 1, 1, 1, NO_OFFSET, None), Task(0, 1, true), [0, 1], [0, 1]);
  }

  lemma EndInTable(t: Task, ntpb: nat, num: nat)
    requires Covered(t, ntpb, num)
    ensures CeilDiv(t.End(), ntpb) <= num
  {
    PageBelow(t.End(), ntpb, num);
  }

  // ---------------------------------------------------------------------------
  // One tensor: every component of its plan
  // ---------------------------------------------------------------------------

  datatype Component =
    | Attn(spec: AttnSpec, group: nat, aligned: bool, fillLast: bool)
    | Gdn(state: GdnSpec)

  /** What the generator asserts of the block tables of a task. */
  ghost predicate Fits(x: Component, t: Task, src: seq<seq<nat>>, dst: seq<seq<nat>>) {
    match x
    case Attn(c, g, aligned, _) =>
      && g < |src| && g < |dst|
      && if aligned then AlignedCovered(c, t, src[g], dst[g]) else Covers(c, src[g], dst[g], t.End())
    case Gdn(state) => t.reachLast ==> TablesAgree(src, dst, state.groups)
  }

  /** The component is padded by this task. */
  predicate Padded(x: Component, t: Task) {
    x.Attn? && !x.aligned && x.fillLast && t.reachLast
  }

  /** The assertion of the padding loop holds for the component. */
  ghost predicate Sendable(x: Component, t: Task, src: seq<seq<nat>>, dst: seq<seq<nat>>)
    requires Fits(x, t, src, dst)
  {
    Padded(x, t) ==> Left(x.spec.dstNtpb, t.End()) <= x.spec.srcNtpb
  }

  ghost function ComponentRecords(x: Component, t: Task, src: seq<seq<nat>>, dst: seq<seq<nat>>): seq<IpcBlock>
    requires Fits(x, t, src, dst) && Sendable(x, t, src, dst)
  {
    match x
    case Attn(c, g, aligned, _) =>
      if aligned then AlignedRecords(c, t, src[g], dst[g])
      else SpecRecords(c, src[g], dst[g], t.seen, t.End())
           + if Padded(x, t) then SpecPads(c, src[g], dst[g], t.End()) else []
    case Gdn(state) =>
      if t.reachLast then StateRecords(state, StateDriver.Pages(src, dst, state.groups)) else []
  }

  method GenerateComponent(blocks: seq<IpcBlock>, x: Component, t: Task, src: seq<seq<nat>>, dst: seq<seq<nat>>)
    returns (ok: bool, out: seq<IpcBlock>)
    requires Fits(x, t, src, dst)
    ensures ok <==> Sendable(x, t, src, dst)
    ensures ok ==> |out| >= |blocks| && out[..|blocks|] == blocks
    ensures ok ==> SameCopy(out[|blocks|..], ComponentRecords(x, t, src, dst))
  {
    hide SameCopy, AlignedRecords, SpecRecords, SpecPads, StateRecords, AlignedCovered, Covers, StateDriver.Pages, Left;
    ok := true;
    match x
    case Attn(c, g, aligned, fillLast) =>
      if aligned {
        out := GenerateBlockAligned(blocks, c, t, src[g], dst[g]);
        SameCopyReflexive(AlignedRecords(c, t, src[g], dst[g]));
        assert out[|blocks|..] == AlignedRecords(c, t, src[g], dst[g]);
      } else {
        out := GenerateAttn(blocks, c, src[g], dst[g], t.seen, t.new_);
        ghost var tokens := out;
        ghost var ref := SpecRecords(c, src[g], dst[g], t.seen, t.End());
        if fillLast && t.reachLast {
          ok, out := GenerateAttnFill(out, c, src[g], dst[g], t.seen + t.new_);
          if ok {
            ghost var pads := SpecPads(c, src[g], dst[g], t.End());
            SameCopyReflexive(pads);
            SameCopyConcat(tokens[|blocks|..], ref, pads, pads);
            assert out[|blocks|..] == tokens[|blocks|..] + pads;
          }
        } else {
          assert ref + [] == ref;
        }
      }
    case Gdn(state) =>
      out := blocks;
      SameCopyReflexive([]);
      assert out[|blocks|..] == [];
      if t.reachLast {
        out := GenerateGdn(blocks, state, src, dst);
        SameCopyReflexive(StateRecords(state, StateDriver.Pages(src, dst, state.groups)));
        assert out[|blocks|..] == StateRecords(state, StateDriver.Pages(src, dst, state.groups));
      }
  }

  ghost predicate AllSendable(xs: seq<Component>, t: Task, src: seq<seq<nat>>, dst: seq<seq<nat>>) {
    forall i :: 0 <= i < |xs| ==> Fits(xs[i], t, src, dst) && Sendable(xs[i], t, src, dst)
  }

  ghost function TensorRecords(xs: seq<Component>, t: Task, src: seq<seq<nat>>, dst: seq<seq<nat>>): seq<IpcBlock>
    requires AllSendable(xs, t, src, dst)
  {
    if xs == [] then []
    else TensorRecords(xs[..|xs| - 1], t, src, dst) + ComponentRecords(xs[|xs| - 1], t, src, dst)
  }

  /** All components of a tensor, in order. The generator fails exactly when a component has to be
      padded with more tokens than its first source block holds. */
  method GenerateIpcBlocks(valid: bool, xs: seq<Component>, t: Task, src: seq<seq<nat>>, dst: seq<seq<nat>>)
    returns (ok: bool, out: seq<IpcBlock>)
    requires forall i :: 0 <= i < |xs| ==> Fits(xs[i], t, src, dst)
    ensures ok <==> valid ==> AllSendable(xs, t, src, dst)
    ensures ok && valid ==> SameCopy(out, TensorRecords(xs, t, src, dst))
    ensures !valid ==> out == []
  {
    hide SameCopy, ComponentRecords, Fits, Sendable;
    ok, out := true, [];
    if !valid {
      return;
    }
    SameCopyReflexive([]);
    for k := 0 to |xs|
      invariant ok && AllSendable(xs[..k], t, src, dst) && SameCopy(out, TensorRecords(xs[..k], t, src, dst))
    {
      ghost var was := out;
      ok, out := GenerateComponent(out, xs[k], t, src, dst);
      if !ok {
        return;
      }
      assert xs[..k + 1][..k] == xs[..k];
      SameCopyConcat(was, TensorRecords(xs[..k], t, src, dst), out[|was|..], ComponentRecords(xs[k], t, src, dst));
      assert out == was + out[|was|..];
    }
    assert xs[..|xs|] == xs;
  }
}
