/** Streams of per-token records: one record per token, addressed through a block table on each
    side. Every parser of the token-major layouts, and the layout-driven generator, is compared
    with such streams. */
module TokenStream {
  import opened Arith
  import opened Copies
  import opened RangeCheck

  /** One side of a stream: token w is at its page's base plus its slot plus a fixed offset. */
  datatype Side = Side(blocks: seq<nat>, ntpb: nat, stride: nat, token: nat, offset: nat) {
    predicate Covers(hi: nat) {
      ntpb > 0 && hi <= Times(|blocks|, ntpb)
    }

    function At(w: nat): nat
      requires ntpb > 0 && Page(w, ntpb) < |blocks|
    {
      Times(blocks[Page(w, ntpb)], stride) + Times(Slot(w, ntpb), token) + offset
    }

    function Shifted(d: nat): Side {
      this.(offset := offset + d)
    }
  }

  datatype Stream = Stream(src: Side, dst: Side, bytes: nat) {
    predicate Covers(hi: nat) {
      src.Covers(hi) && dst.Covers(hi)
    }

    predicate Has(w: nat) {
      src.ntpb > 0 && dst.ntpb > 0 && Page(w, src.ntpb) < |src.blocks| && Page(w, dst.ntpb) < |dst.blocks|
    }

    function At(w: nat): IpcBlock
      requires Has(w)
    {
      IpcBlock(src.At(w), dst.At(w), bytes)
    }

    function Shifted(bySrc: nat, byDst: nat): Stream {
      Stream(src.Shifted(bySrc), dst.Shifted(byDst), bytes)
    }
  }

  lemma Held(s: Stream, hi: nat, w: nat)
    requires s.Covers(hi) && w < hi
    ensures s.Has(w)
  {
    InTable(w, s.src.ntpb, |s.src.blocks|);
    InTable(w, s.dst.ntpb, |s.dst.blocks|);
  }

  lemma InTable(w: nat, n: nat, num: nat)
    requires n > 0 && w < Times(num, n)
    ensures Page(w, n) < num
  {
    if num <= w / n { MulMono(num, w / n, n); }
  }

  /** The records of tokens [lo, hi), in token order. */
  function Records(s: Stream, lo: nat, hi: nat): seq<IpcBlock>
    requires lo <= hi && s.Covers(hi)
    decreases hi
  {
    if lo == hi then []
    else
      Held(s, hi, hi - 1);
      CoversLess(s, hi - 1, hi);
      Records(s, lo, hi - 1) + [s.At(hi - 1)]
  }

  lemma {:induction false} RecordsAt(s: Stream, lo: nat, hi: nat, i: nat)
    requires lo <= hi && s.Covers(hi) && i < hi - lo
    ensures |Records(s, lo, hi)| == hi - lo
    ensures s.Has(lo + i) && Records(s, lo, hi)[i] == s.At(lo + i)
    decreases hi
  {
    hide Stream.At, Stream.Has, Stream.Covers;
    Held(s, hi, hi - 1);
    CoversLess(s, hi - 1, hi);
    if i < hi - 1 - lo {
      RecordsAt(s, lo, hi - 1, i);
    } else if lo < hi - 1 {
      RecordsAt(s, lo, hi - 1, 0);
    }
  }

  lemma {:induction false} RecordsSplit(s: Stream, lo: nat, mid: nat, hi: nat)
    requires lo <= mid <= hi && s.Covers(hi)
    ensures s.Covers(mid)
    ensures Records(s, lo, hi) == Records(s, lo, mid) + Records(s, mid, hi)
    decreases hi
  {
    hide Stream.At, Stream.Has, Stream.Covers;
    CoversLess(s, mid, hi);
    if mid < hi {
      CoversLess(s, hi - 1, hi);
      RecordsSplit(s, lo, mid, hi - 1);
    }
  }

  lemma CoversLess(s: Stream, mid: nat, hi: nat)
    requires mid <= hi && s.Covers(hi)
    ensures s.Covers(mid)
  {
  }

  /** Adding offsets to every record of a stream gives the shifted stream. */
  lemma ShiftedAt(s: Stream, x: nat, y: nat, w: nat)
    requires s.Has(w)
    ensures s.Shifted(x, y).Has(w)
    ensures s.Shifted(x, y).At(w) == IpcBlock(s.At(w).src + x, s.At(w).dst + y, s.bytes)
  {
  }

  // ---------------------------------------------------------------------------
  // Runs of tokens
  // ---------------------------------------------------------------------------

  /** Tokens are adjacent on both sides within a page. */
  predicate Contiguous(s: Stream) {
    s.src.ntpb == s.dst.ntpb > 0 && s.src.token == s.dst.token == s.bytes
  }

  lemma SideStep(x: Side, w: nat, i: nat)
    requires x.ntpb > 0 && Slot(w, x.ntpb) + i < x.ntpb && Page(w, x.ntpb) < |x.blocks|
    ensures Page(w + i, x.ntpb) == Page(w, x.ntpb) && x.At(w + i) == x.At(w) + i * x.token
  {
    StepTo(w, i, x.ntpb);
    Distribute(Slot(w, x.ntpb), i, x.token);
  }

  /** Within a page the records of k tokens are one contiguous record cut into k. */
  lemma {:induction false} PageRun(s: Stream, w: nat, k: nat)
    requires Contiguous(s) && k > 0 && Slot(w, s.src.ntpb) + k <= s.src.ntpb && s.Covers(w + k)
    ensures s.Has(w)
    ensures Records(s, w, w + k) == Run(s.src.At(w), s.dst.At(w), s.bytes, k)
  {
    hide Side.At, Side.Covers;
    Held(s, w + k, w);
    SideStep(s.src, w, k - 1);
    SideStep(s.dst, w, k - 1);
    CoversLess(s, w + k - 1, w + k);
    if k > 1 { PageRun(s, w, k - 1); }
  }

  lemma PlainRange(bounds: Bounds, b: IpcBlock)
    requires bounds.srcScale == 1
    ensures InRange(bounds, b) <==> b.len > 0 && b.src + b.len <= bounds.srcCapacity && b.dst + b.len <= bounds.dstCapacity
  {
  }

  /** Without conversion a run passes the range check exactly when each of its tokens would. */
  lemma RunInRange(bounds: Bounds, x: nat, y: nat, h: nat, k: nat)
    requires k > 0 && bounds.srcScale == 1
    ensures InRange(bounds, IpcBlock(x, y, k * h)) <==> AllInRange(bounds, Run(x, y, h, k))
  {
    hide InRange;
    var r := Run(x, y, h, k);
    PlainRange(bounds, IpcBlock(x, y, k * h));
    PlainRange(bounds, r[k - 1]);
    assert k * h == (k - 1) * h + h by { Distribute(k - 1, 1, h); }
    if InRange(bounds, IpcBlock(x, y, k * h)) {
      RunWithin(bounds, x, y, h, k);
    } else {
      PositiveProduct(k, h);
      assert r[k - 1] in r;
    }
  }

  lemma PositiveProduct(k: nat, h: nat)
    ensures k * h > 0 <==> k > 0 && h > 0
  {
  }

  lemma RunWithin(bounds: Bounds, x: nat, y: nat, h: nat, k: nat)
    requires k > 0 && bounds.srcScale == 1 && InRange(bounds, IpcBlock(x, y, k * h))
    ensures AllInRange(bounds, Run(x, y, h, k))
  {
    hide InRange;
    var r := Run(x, y, h, k);
    PlainRange(bounds, IpcBlock(x, y, k * h));
    PositiveProduct(k, h);
    forall i | 0 <= i < k ensures InRange(bounds, r[i]) {
      PlainRange(bounds, r[i]);
      assert i * h + h <= k * h by { MulStrict(i, k, h); }
    }
  }

  lemma AllInRangeConcat(bounds: Bounds, a: seq<IpcBlock>, b: seq<IpcBlock>)
    ensures AllInRange(bounds, a + b) <==> AllInRange(bounds, a) && AllInRange(bounds, b)
  {
    if AllInRange(bounds, a + b) {
      forall x | x in a ensures InRange(bounds, x) { assert x in a + b; }
      forall x | x in b ensures InRange(bounds, x) { assert x in a + b; }
    }
  }
}
