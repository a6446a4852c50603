/** The layout-driven generator: a plan of strides and offsets computed from a layout descriptor,
    and one loop that turns any plan into records. For the token-major layouts the plan's streams
    are those of the hand-written parsers. */
module LayoutPlan {
  import opened Arith
  import opened CachePlacement
  import opened Copies
  import opened TokenStream
  import opened LegacyParser
  import opened RangeCheck
  import opened Wrappers

  /** Offsets of one of the two streams of a component. */
  datatype Path = Path(srcBase: nat, dstBase: nat, srcGlobal: nat, dstGlobal: nat, srcHead: nat, dstHead: nat)

  const NO_OFFSET := Path(0, 0, 0, 0, 0, 0)

  datatype AttnSpec = AttnSpec(
    srcNtpb: nat, dstNtpb: nat, srcBlockStride: nat, dstBlockStride: nat,
    srcTokenStride: nat, dstTokenStride: nat, bytesPerToken: nat, headNum: nat, k: Path, v: Option<Path>)

  /** The stream of head h along a path. */
  function StreamOf(c: AttnSpec, p: Path, src: seq<nat>, dst: seq<nat>, h: nat): Stream {
    Stream(
      Side(src, c.srcNtpb, c.srcBlockStride, c.srcTokenStride, p.srcBase + p.srcGlobal + Times(h, p.srcHead)),
      Side(dst, c.dstNtpb, c.dstBlockStride, c.dstTokenStride, p.dstBase + p.dstGlobal + Times(h, p.dstHead)),
      c.bytesPerToken)
  }

  predicate Covers(c: AttnSpec, src: seq<nat>, dst: seq<nat>, hi: nat) {
    c.srcNtpb > 0 && c.dstNtpb > 0 && hi <= Times(|src|, c.srcNtpb) && hi <= Times(|dst|, c.dstNtpb)
  }

  lemma StreamCovers(c: AttnSpec, p: Path, src: seq<nat>, dst: seq<nat>, h: nat, hi: nat)
    requires Covers(c, src, dst, hi)
    ensures StreamOf(c, p, src, dst, h).Covers(hi)
  {
  }

  /** The records of all heads below n, head by head. */
  function HeadRecords(c: AttnSpec, p: Path, src: seq<nat>, dst: seq<nat>, lo: nat, hi: nat, n: nat): seq<IpcBlock>
    requires lo <= hi && Covers(c, src, dst, hi)
  {
    if n == 0 then []
    else
      StreamCovers(c, p, src, dst, n - 1, hi);
      HeadRecords(c, p, src, dst, lo, hi, n - 1) + Records(StreamOf(c, p, src, dst, n - 1), lo, hi)
  }

  /** Where head h of token w is on one side: page, token and head strides, then the offsets. */
  function HeadAddress(blocks: seq<nat>, ntpb: nat, page: nat, token: nat, base: nat, global: nat, head: nat, h: nat,
                       w: nat): nat
    requires ntpb > 0 && w / ntpb < |blocks|
  {
    blocks[w / ntpb] * page + w % ntpb * token + base + global + h * head
  }

  lemma StreamAddress(c: AttnSpec, p: Path, src: seq<nat>, dst: seq<nat>, h: nat, w: nat)
    requires StreamOf(c, p, src, dst, h).Has(w)
    ensures StreamOf(c, p, src, dst, h).At(w) ==
            IpcBlock(HeadAddress(src, c.srcNtpb, c.srcBlockStride, c.srcTokenStride, p.srcBase, p.srcGlobal, p.srcHead, h, w),
                     HeadAddress(dst, c.dstNtpb, c.dstBlockStride, c.dstTokenStride, p.dstBase, p.dstGlobal, p.dstHead, h, w),
                     c.bytesPerToken)
  {
  }

  lemma RowBelow(h: nat, n: nat, m: nat, i: nat)
    requires h < n && i < m
    ensures Nest(h, m, i) < n * m && (h < n - 1 ==> Nest(h, m, i) < (n - 1) * m) && n * m == (n - 1) * m + m
  {
    MulMono(h + 1, n, m);
    Distribute(h, 1, m);
    Distribute(n - 1, 1, m);
    if h < n - 1 { MulMono(h + 1, n - 1, m); }
  }

  lemma {:induction false} HeadLength(c: AttnSpec, p: Path, src: seq<nat>, dst: seq<nat>, lo: nat, hi: nat, n: nat)
    requires lo < hi && Covers(c, src, dst, hi)
    ensures |HeadRecords(c, p, src, dst, lo, hi, n)| == n * (hi - lo)
  {
    hide Records, Covers, Stream.Covers, StreamOf;
    if n > 0 {
      StreamCovers(c, p, src, dst, n - 1, hi);
      RecordsAt(StreamOf(c, p, src, dst, n - 1), lo, hi, 0);
      HeadLength(c, p, src, dst, lo, hi, n - 1);
      RowBelow(n - 1, n, hi - lo, 0);
    }
  }

  /** The records go head by head and token by token; each has the addresses of its head and token. */
  lemma {:induction false} HeadRecord(c: AttnSpec, p: Path, src: seq<nat>, dst: seq<nat>, lo: nat, hi: nat, n: nat,
                                      h: nat, w: nat)
    requires lo <= w < hi && Covers(c, src, dst, hi) && h < n
    ensures |HeadRecords(c, p, src, dst, lo, hi, n)| == n * (hi - lo) && Nest(h, hi - lo, w - lo) < n * (hi - lo)
    ensures c.srcNtpb > 0 && c.dstNtpb > 0 && w / c.srcNtpb < |src| && w / c.dstNtpb < |dst|
    ensures HeadRecords(c, p, src, dst, lo, hi, n)[Nest(h, hi - lo, w - lo)] ==
            IpcBlock(HeadAddress(src, c.srcNtpb, c.srcBlockStride, c.srcTokenStride, p.srcBase, p.srcGlobal, p.srcHead, h, w),
                     HeadAddress(dst, c.dstNtpb, c.dstBlockStride, c.dstTokenStride, p.dstBase, p.dstGlobal, p.dstHead, h, w),
                     c.bytesPerToken)
  {
    hide Records, Stream.Covers, Stream.At, HeadAddress;
    var m, x := hi - lo, StreamOf(c, p, src, dst, n - 1);
    StreamCovers(c, p, src, dst, n - 1, hi);
    RecordsAt(x, lo, hi, w - lo);
    HeadLength(c, p, src, dst, lo, hi, n);
    HeadLength(c, p, src, dst, lo, hi, n - 1);
    RowBelow(h, n, m, w - lo);
    if h < n - 1 {
      HeadRecord(c, p, src, dst, lo, hi, n - 1, h, w);
    } else {
      StreamAddress(c, p, src, dst, h, w);
    }
  }

  lemma {:induction false} HeadSplit(c: AttnSpec, p: Path, src: seq<nat>, dst: seq<nat>, lo: nat, mid: nat, hi: nat,
                                     n: nat, s: int, d: int)
    requires lo <= mid <= hi && Covers(c, src, dst, hi) && Covers(c, src, dst, mid)
    ensures Count(HeadRecords(c, p, src, dst, lo, hi, n), s, d)
         == Count(HeadRecords(c, p, src, dst, lo, mid, n), s, d) + Count(HeadRecords(c, p, src, dst, mid, hi, n), s, d)
  {
    hide CountTo, Covers, Records, StreamOf, Stream.Covers;
    if n == 0 {
      CountEmpty(s, d);
    } else {
      HeadSplit(c, p, src, dst, lo, mid, hi, n - 1, s, d);
      var x := StreamOf(c, p, src, dst, n - 1);
      StreamCovers(c, p, src, dst, n - 1, hi);
      StreamCovers(c, p, src, dst, n - 1, mid);
      RecordsSplit(x, lo, mid, hi);
      CountConcat(Records(x, lo, mid), Records(x, mid, hi), s, d);
      CountConcat(HeadRecords(c, p, src, dst, lo, hi, n - 1), Records(x, lo, hi), s, d);
      CountConcat(HeadRecords(c, p, src, dst, lo, mid, n - 1), Records(x, lo, mid), s, d);
      CountConcat(HeadRecords(c, p, src, dst, mid, hi, n - 1), Records(x, mid, hi), s, d);
    }
  }

  /** Cutting the tokens into rounds does not change the copy. */
  lemma HeadRounds(c: AttnSpec, p: Path, src: seq<nat>, dst: seq<nat>, lo: nat, mid: nat, hi: nat, n: nat,
                   out: seq<IpcBlock>)
    requires lo <= mid <= hi && Covers(c, src, dst, hi) && Covers(c, src, dst, mid)
    requires SameCopy(out, HeadRecords(c, p, src, dst, lo, mid, n))
    ensures SameCopy(out + HeadRecords(c, p, src, dst, mid, hi, n), HeadRecords(c, p, src, dst, lo, hi, n))
  {
    hide CountTo, Covers, HeadRecords;
    forall s: int, d: int
      ensures Count(out + HeadRecords(c, p, src, dst, mid, hi, n), s, d) == Count(HeadRecords(c, p, src, dst, lo, hi, n), s, d)
    {
      CountConcat(out, HeadRecords(c, p, src, dst, mid, hi, n), s, d);
      HeadSplit(c, p, src, dst, lo, mid, hi, n, s, d);
    }
  }

  /** The tokens of one round for one head. */
  method GenerateHead(blocks: seq<IpcBlock>, x: Stream, cur: nat, tokens: nat) returns (out: seq<IpcBlock>)
    requires tokens > 0 && x.Covers(cur + tokens)
    requires Slot(cur, x.src.ntpb) + tokens <= x.src.ntpb && Slot(cur, x.dst.ntpb) + tokens <= x.dst.ntpb
    ensures out == blocks + Records(x, cur, cur + tokens)
  {
    hide Slot, Page, Records, Side.At, Side.Covers;
    Held(x, cur + tokens, cur);
    var srcPage := Times(x.src.blocks[Page(cur, x.src.ntpb)], x.src.stride);
    var dstPage := Times(x.dst.blocks[Page(cur, x.dst.ntpb)], x.dst.stride);
    out := blocks;
    CoversLess(x, cur, cur + tokens);
    EmptyRecords(x, cur);
    for i := 0 to tokens
      invariant x.Covers(cur + i) && out == blocks + Records(x, cur, cur + i)
    {
      var srcOff := srcPage + Times(Slot(cur, x.src.ntpb) + i, x.src.token) + x.src.offset;
      var dstOff := dstPage + Times(Slot(cur, x.dst.ntpb) + i, x.dst.token) + x.dst.offset;
      assert x.Has(cur + i) && x.At(cur + i) == IpcBlock(srcOff, dstOff, x.bytes) by {
        TokenOfPage(x.src, cur, i);
        TokenOfPage(x.dst, cur, i);
      }
      CoversLess(x, cur + i + 1, cur + tokens);
      NextRecord(x, cur, cur + i);
      out := out + [IpcBlock(srcOff, dstOff, x.bytes)];
    }
  }

  lemma EmptyRecords(x: Stream, lo: nat)
    requires x.Covers(lo)
    ensures Records(x, lo, lo) == []
  {
  }

  lemma NextRecord(x: Stream, lo: nat, w: nat)
    requires lo <= w && x.Covers(w + 1) && x.Covers(w) && x.Has(w)
    ensures Records(x, lo, w + 1) == Records(x, lo, w) + [x.At(w)]
  {
  }

  /** One stream of a component: rounds up to the next page boundary of either side, head by head. */
  method GenerateKBlock(blocks: seq<IpcBlock>, c: AttnSpec, p: Path, src: seq<nat>, dst: seq<nat>, wrote: nat,
                        left: nat)
    returns (out: seq<IpcBlock>)
    requires Covers(c, src, dst, wrote + left)
    ensures |out| >= |blocks| && out[..|blocks|] == blocks
    ensures SameCopy(out[|blocks|..], HeadRecords(c, p, src, dst, wrote, wrote + left, c.headNum))
  {
    hide SameCopy, Records, HeadRecords, Slot, Page, Stream.Covers;
    var done := 0;
    ghost var sent: seq<IpcBlock> := [];
    out := blocks;
    NoHeads(c, p, src, dst, wrote, c.headNum);
    SameCopyReflexive([]);
    while done < left
      invariant done <= left && out == blocks + sent
      invariant SameCopy(sent, HeadRecords(c, p, src, dst, wrote, wrote + done, c.headNum))
    {
      var cur := wrote + done;
      var tokens := Min(Min(c.srcNtpb - Slot(cur, c.srcNtpb), c.dstNtpb - Slot(cur, c.dstNtpb)), left - done);
      ghost var was := out;
      for h := 0 to c.headNum
        invariant out == was + HeadRecords(c, p, src, dst, cur, cur + tokens, h)
      {
        StreamCovers(c, p, src, dst, h, cur + tokens);
        out := GenerateHead(out, StreamOf(c, p, src, dst, h), cur, tokens);
        NextHead(c, p, src, dst, cur, cur + tokens, h);
      }
      HeadRounds(c, p, src, dst, wrote, cur, cur + tokens, c.headNum, sent);
      sent := sent + HeadRecords(c, p, src, dst, cur, cur + tokens, c.headNum);
      done := done + tokens;
    }
  }

  lemma NextHead(c: AttnSpec, p: Path, src: seq<nat>, dst: seq<nat>, lo: nat, hi: nat, h: nat)
    requires lo <= hi && Covers(c, src, dst, hi)
    ensures StreamOf(c, p, src, dst, h).Covers(hi)
    ensures HeadRecords(c, p, src, dst, lo, hi, h + 1)
         == HeadRecords(c, p, src, dst, lo, hi, h) + Records(StreamOf(c, p, src, dst, h), lo, hi)
    ensures HeadRecords(c, p, src, dst, lo, hi, 0) == []
  {
    StreamCovers(c, p, src, dst, h, hi);
  }

  lemma {:induction false} NoHeads(c: AttnSpec, p: Path, src: seq<nat>, dst: seq<nat>, lo: nat, n: nat)
    requires Covers(c, src, dst, lo)
    ensures HeadRecords(c, p, src, dst, lo, lo, n) == []
    ensures forall a: nat, b: nat :: a <= b && Covers(c, src, dst, b) ==> HeadRecords(c, p, src, dst, a, b, 0) == []
  {
    if n > 0 {
      NoHeads(c, p, src, dst, lo, n - 1);
      StreamCovers(c, p, src, dst, n - 1, lo);
    }
  }

  /** K stream, then V stream. */
  function SpecRecords(c: AttnSpec, src: seq<nat>, dst: seq<nat>, lo: nat, hi: nat): seq<IpcBlock>
    requires lo <= hi && Covers(c, src, dst, hi)
  {
    HeadRecords(c, c.k, src, dst, lo, hi, c.headNum)
    + if c.v.Some? then HeadRecords(c, c.v.value, src, dst, lo, hi, c.headNum) else []
  }

  function PlanRecords(plan: seq<AttnSpec>, src: seq<nat>, dst: seq<nat>, lo: nat, hi: nat): seq<IpcBlock>
    requires lo <= hi && forall i :: 0 <= i < |plan| ==> Covers(plan[i], src, dst, hi)
  {
    if plan == [] then []
    else PlanRecords(plan[..|plan| - 1], src, dst, lo, hi) + SpecRecords(plan[|plan| - 1], src, dst, lo, hi)
  }

  method GenerateAttn(blocks: seq<IpcBlock>, c: AttnSpec, src: seq<nat>, dst: seq<nat>, wrote: nat, left: nat)
    returns (out: seq<IpcBlock>)
    requires Covers(c, src, dst, wrote + left)
    ensures |out| >= |blocks| && out[..|blocks|] == blocks
    ensures SameCopy(out[|blocks|..], SpecRecords(c, src, dst, wrote, wrote + left))
  {
    hide SameCopy, HeadRecords, Covers;
    out := GenerateKBlock(blocks, c, c.k, src, dst, wrote, left);
    ghost var ks := out[|blocks|..];
    ghost var k := HeadRecords(c, c.k, src, dst, wrote, wrote + left, c.headNum);
    if c.v.Some? {
      ghost var was := out;
      out := GenerateKBlock(out, c, c.v.value, src, dst, wrote, left);
      ghost var vs := out[|was|..];
      ghost var v := HeadRecords(c, c.v.value, src, dst, wrote, wrote + left, c.headNum);
      SameCopyConcat(ks, k, vs, v);
      assert out == was + vs && was == blocks + ks;
      assert out[|blocks|..] == ks + vs;
    } else {
      assert k + [] == k;
    }
  }

  /** Every tensor of a plan of attention components. */
  method GenerateAll(plan: seq<AttnSpec>, src: seq<nat>, dst: seq<nat>, wrote: nat, left: nat)
    returns (out: seq<IpcBlock>)
    requires forall i :: 0 <= i < |plan| ==> Covers(plan[i], src, dst, wrote + left)
    ensures SameCopy(out, PlanRecords(plan, src, dst, wrote, wrote + left))
  {
    hide SameCopy, SpecRecords, Covers;
    out := [];
    SameCopyReflexive([]);
    for i := 0 to |plan|
      invariant SameCopy(out, PlanRecords(plan[..i], src, dst, wrote, wrote + left))
    {
      ghost var was := out;
      assert plan[..i + 1][..i] == plan[..i];
      out := GenerateAttn(out, plan[i], src, dst, wrote, left);
      SameCopyConcat(was, PlanRecords(plan[..i], src, dst, wrote, wrote + left),
                     out[|was|..], SpecRecords(plan[i], src, dst, wrote, wrote + left));
      assert out == was + out[|was|..];
    }
    assert plan[..|plan|] == plan;
  }

  // ---------------------------------------------------------------------------
  // From layout to plan
  // ---------------------------------------------------------------------------

  /** The component of a layout for one pair of page and token sizes. */
  function BuildAttnSpec(order: KvOrder, pBlock: nat, pToken: nat, dBlock: nat, dToken: nat, groupOff: nat,
                         srcNum: nat, dstNum: nat): AttnSpec
    requires pToken > 0 && dToken > 0
  {
    var pk, dk, sn, dn := pToken / 2, dToken / 2, pBlock / pToken, dBlock / dToken;
    var pkBlock, dkBlock, off := Times(sn, pk), Times(dn, dk), Times(groupOff, pk);
    if groupOff == 0 && pBlock == dBlock && pToken == dToken && !order.Outermost? then
      AttnSpec(sn, dn, pBlock, dBlock, pToken, dToken, pToken, 1, NO_OFFSET, None)
    else
      match order
      case Outermost =>
        AttnSpec(sn, dn, pkBlock, dkBlock, pk, dk, pk, 1, Path(0, off, 0, 0, 0, 0),
                 Some(Path(0, off, Times(pkBlock, srcNum), Times(dkBlock, dstNum), 0, 0)))
      case Between =>
        AttnSpec(sn, dn, pBlock, dBlock, pk, dk, pk, 1, Path(0, off, 0, 0, 0, 0),
                 Some(Path(pkBlock, off + dkBlock, 0, 0, 0, 0)))
      case Inner =>
        AttnSpec(sn, dn, pBlock, dBlock, pToken, dToken, pk, 1, Path(0, off, 0, 0, 0, 0),
                 Some(Path(pk, off + dk, 0, 0, 0, 0)))
  }

  datatype Shape = Ragged | Flash

  function OrderOf(shape: Shape): KvOrder {
    if shape.Ragged? then Inner else Outermost
  }

  function Build(shape: Shape, p: Worker, d: Worker, groupOff: nat): AttnSpec
    requires p.tokenSize > 0 && d.tokenSize > 0
  {
    BuildAttnSpec(OrderOf(shape), p.blockSize, p.tokenSize, d.blockSize, d.tokenSize, groupOff, p.numBlocks, d.numBlocks)
  }

  /** The components a rank sends; None when the receiver has more ranks. `validRanks` are the
      sending ranks that hold distinct heads, `kvtSize` their number and `kvtRank` this rank's
      index among them. */
  function BuildTransferPlan(shape: Shape, p: Worker, d: Worker, validRanks: set<nat>, kvtSize: nat,
                             kvtRank: nat): Option<seq<AttnSpec>>
    requires p.tokenSize > 0 && d.tokenSize > 0 && d.engineTp > 0
  {
    if kvtSize == d.engineTp then Some([Build(shape, p, d, 0)])
    else if kvtSize < d.engineTp then None
    else if shape.Ragged? && p.tokenSize == d.tokenSize then
      if p.tpRank == 0 then Some([Build(shape, p, d, 0)]) else Some([])
    else if shape.Flash? && p.tpRank !in validRanks then Some([])
    else
      var groupN := GroupSize(kvtSize, d.engineTp);
      Some([Build(shape, p, d, (if shape.Flash? then kvtRank else p.tpRank) % groupN)])
  }

  function GroupSize(p: nat, d: nat): (n: nat)
    requires 0 < d <= p
    ensures n > 0
  {
    assert p == p / d * d + p % d;
    p / d
  }

  // ---------------------------------------------------------------------------
  // The plan refines the hand-written parsers
  // ---------------------------------------------------------------------------

  /** A component with one head is its K stream followed by its V stream. */
  lemma OneHead(c: AttnSpec, src: seq<nat>, dst: seq<nat>, lo: nat, hi: nat)
    requires lo <= hi && Covers(c, src, dst, hi) && c.headNum == 1
    ensures StreamOf(c, c.k, src, dst, 0).Covers(hi)
    ensures c.v.Some? ==> StreamOf(c, c.v.value, src, dst, 0).Covers(hi)
    ensures PlanRecords([c], src, dst, lo, hi) ==
            Records(StreamOf(c, c.k, src, dst, 0), lo, hi)
            + if c.v.Some? then Records(StreamOf(c, c.v.value, src, dst, 0), lo, hi) else []
  {
    hide Records, StreamOf, Stream.Covers, Covers;
    NextHead(c, c.k, src, dst, lo, hi, 0);
    if c.v.Some? { NextHead(c, c.v.value, src, dst, lo, hi, 0); }
    assert [c][..0] == [];
  }

  lemma ZeroTimes()
    ensures forall x: nat :: Times(0, x) == 0
  {
  }

  lemma Commute(a: nat, b: nat)
    ensures Times(a, b) == b * a == Times(b, a)
  {
  }

  /** Equal sizes, token-major pages: the stream of whole tokens. */
  lemma RaggedEqualPlan(p: Worker, d: Worker, ntpb: nat, src: seq<nat>, dst: seq<nat>, lo: nat, hi: nat)
    requires Shaped(p, ntpb) && p.tokenSize == d.tokenSize && p.blockSize == d.blockSize
    requires lo <= hi && TablesCover(src, dst, ntpb, hi)
    ensures var c := Build(Ragged, p, d, 0);
            var s := EqualStream(src, dst, ntpb, p.blockSize, p.tokenSize);
            Covers(c, src, dst, hi) && s.Covers(hi) && PlanRecords([c], src, dst, lo, hi) == Records(s, lo, hi)
  {
    hide Records, PlanRecords, Times;
    ZeroTimes();
    HalfPage(p, ntpb);
    OneHead(Build(Ragged, p, d, 0), src, dst, lo, hi);
  }

  lemma FlashEqualPlan(p: Worker, d: Worker, ntpb: nat, src: seq<nat>, dst: seq<nat>, lo: nat, hi: nat)
    requires Shaped(p, ntpb) && p.tokenSize == d.tokenSize && p.blockSize == d.blockSize
    requires lo <= hi && TablesCover(src, dst, ntpb, hi)
    ensures var c, k := Build(Flash, p, d, 0), p.tokenSize / 2;
            var s := EqualStream(src, dst, ntpb, ntpb * k, k);
            var v := s.Shifted(Times(ntpb * k, p.numBlocks), Times(ntpb * k, d.numBlocks));
            && Covers(c, src, dst, hi) && s.Covers(hi) && v.Covers(hi)
            && PlanRecords([c], src, dst, lo, hi) == Records(s, lo, hi) + Records(v, lo, hi)
  {
    hide Records, PlanRecords, Times;
    ZeroTimes();
    HalfPage(p, ntpb);
    Commute(p.tokenSize / 2, ntpb);
    OneHead(Build(Flash, p, d, 0), src, dst, lo, hi);
  }

  lemma RaggedSlicesPlan(p: Worker, d: Worker, groupN: nat, ntpb: nat, src: seq<nat>, dst: seq<nat>, lo: nat, hi: nat)
    requires Shaped(p, ntpb) && Shaped(d, ntpb) && groupN > 0 && p.tokenSize != d.tokenSize
    requires lo <= hi && TablesCover(src, dst, ntpb, hi)
    ensures var c, k, g := Build(Ragged, p, d, p.tpRank % groupN), p.tokenSize / 2, p.tpRank % groupN;
            var s := SliceStream(src, dst, ntpb, p.tokenSize, d.tokenSize, g, k, false);
            var v := s.Shifted(k, d.tokenSize / 2);
            && Covers(c, src, dst, hi) && s.Covers(hi) && v.Covers(hi)
            && PlanRecords([c], src, dst, lo, hi) == Records(s, lo, hi) + Records(v, lo, hi)
  {
    hide Records, PlanRecords, Times;
    ZeroTimes();
    HalfPage(p, ntpb);
    HalfPage(d, ntpb);
    Commute(p.tokenSize, ntpb);
    Commute(d.tokenSize, ntpb);
    OneHead(Build(Ragged, p, d, p.tpRank % groupN), src, dst, lo, hi);
  }

  lemma FlashSlicesPlan(p: Worker, d: Worker, groupOff: nat, ntpb: nat, src: seq<nat>, dst: seq<nat>, lo: nat, hi: nat)
    requires Shaped(p, ntpb) && Shaped(d, ntpb) && lo <= hi && TablesCover(src, dst, ntpb, hi)
    ensures var c, k, dk := Build(Flash, p, d, groupOff), p.tokenSize / 2, d.tokenSize / 2;
            var s := SliceStream(src, dst, ntpb, k, dk, groupOff, k, false);
            var v := s.Shifted(Times(ntpb * k, p.numBlocks), Times(ntpb * dk, d.numBlocks));
            && Covers(c, src, dst, hi) && s.Covers(hi) && v.Covers(hi)
            && PlanRecords([c], src, dst, lo, hi) == Records(s, lo, hi) + Records(v, lo, hi)
  {
    hide Records, PlanRecords, Times;
    ZeroTimes();
    HalfPage(p, ntpb);
    HalfPage(d, ntpb);
    Commute(p.tokenSize / 2, ntpb);
    Commute(d.tokenSize / 2, ntpb);
    OneHead(Build(Flash, p, d, groupOff), src, dst, lo, hi);
  }

  // ---------------------------------------------------------------------------
  // Where the plan puts every byte
  // ---------------------------------------------------------------------------

  lemma SpecStreams(order: KvOrder, p: Worker, d: Worker, g: nat, ntpb: nat, src: seq<nat>, dst: seq<nat>)
    requires Shaped(p, ntpb) && Shaped(d, ntpb) && (!order.Outermost? ==> p.tokenSize != d.tokenSize)
    ensures var c := BuildAttnSpec(order, p.blockSize, p.tokenSize, d.blockSize, d.tokenSize, g, p.numBlocks, d.numBlocks);
            var pc, dc := CacheOf(order, p, src, ntpb), CacheOf(order, d, dst, ntpb);
            && c.srcNtpb == c.dstNtpb == ntpb && c.headNum == 1 && c.v.Some?
            && StreamOf(c, c.k, src, dst, 0) == SliceOf(pc, dc, g, false, false)
            && StreamOf(c, c.v.value, src, dst, 0) == SliceOf(pc, dc, g, false, true)
  {
    HalfPage(p, ntpb);
    HalfPage(d, ntpb);
  }

  /** The component of rank g of n performs the copy of the rank's slices, for every order of the dimensions.
      (Equal sides with K and V in halves of a page are sent by whole pages instead.) */
  lemma SpecIsSlices(order: KvOrder, p: Worker, d: Worker, n: nat, g: nat, ntpb: nat, src: seq<nat>, dst: seq<nat>,
                     lo: nat, hi: nat)
    requires Shaped(p, ntpb) && Shaped(d, ntpb) && d.tokenSize == p.tokenSize * n && g < n && (order.Between? ==> n > 1)
    requires lo <= hi && TablesCover(src, dst, ntpb, hi)
    ensures var c := BuildAttnSpec(order, p.blockSize, p.tokenSize, d.blockSize, d.tokenSize, g, p.numBlocks, d.numBlocks);
            var pc, dc := CacheOf(order, p, src, ntpb), CacheOf(order, d, dst, ntpb);
            && Covers(c, src, dst, hi) && pc.Covers(hi) && dc.Covers(hi)
            && SameCopy(PlanRecords([c], src, dst, lo, hi), SliceRecords(pc, dc, g, false, lo, hi))
  {
    hide Records, PlanRecords, Times, SameCopy, StreamOf, SliceOf;
    ScaledSizes(order, p, d, src, dst, n, g, ntpb, hi);
    if n == 1 && order.Inner? {
      RaggedEqualPlan(p, d, ntpb, src, dst, lo, hi);
      EqualIsSlices(p, d, src, dst, ntpb, lo, hi);
    } else {
      if n > 1 { MulStrict(1, n, p.tokenSize); }
      SpecStreams(order, p, d, g, ntpb, src, dst);
      OneHead(BuildAttnSpec(order, p.blockSize, p.tokenSize, d.blockSize, d.tokenSize, g, p.numBlocks, d.numBlocks),
              src, dst, lo, hi);
      SameCopyReflexive(SliceRecords(CacheOf(order, p, src, ntpb), CacheOf(order, d, dst, ntpb), g, false, lo, hi));
    }
  }

  /** Byte b of rank g's K or V of a token goes to byte g times the rank's size plus b of that token. */
  lemma SpecPlaces(order: KvOrder, p: Worker, d: Worker, n: nat, g: nat, ntpb: nat, src: seq<nat>, dst: seq<nat>,
                   lo: nat, hi: nat, out: seq<IpcBlock>)
    requires Shaped(p, ntpb) && Shaped(d, ntpb) && d.tokenSize == p.tokenSize * n && g < n && (order.Between? ==> n > 1)
    requires lo <= hi && TablesCover(src, dst, ntpb, hi) && CacheOf(order, d, dst, ntpb).Proper()
    requires var c := BuildAttnSpec(order, p.blockSize, p.tokenSize, d.blockSize, d.tokenSize, g, p.numBlocks, d.numBlocks);
             Covers(c, src, dst, hi) && SameCopy(out, PlanRecords([c], src, dst, lo, hi))
    ensures AllSliced(out, CacheOf(order, p, src, ntpb), CacheOf(order, d, dst, ntpb), g, false, lo, hi)
  {
    hide SliceRecords, PlanRecords, SameCopy, BuildAttnSpec, AllSliced, Cache.Proper, TablesCover;
    var c := BuildAttnSpec(order, p.blockSize, p.tokenSize, d.blockSize, d.tokenSize, g, p.numBlocks, d.numBlocks);
    var pc, dc := CacheOf(order, p, src, ntpb), CacheOf(order, d, dst, ntpb);
    SpecIsSlices(order, p, d, n, g, ntpb, src, dst, lo, hi);
    ScaledSizes(order, p, d, src, dst, n, g, ntpb, hi);
    SameCopyTransitive(out, PlanRecords([c], src, dst, lo, hi), SliceRecords(pc, dc, g, false, lo, hi));
    AllSlicesPlaced(pc, dc, n, g, false, lo, hi, out);
  }

  /** What the hand-written parser chosen for a pair of workers sends. */
  function LegacyRecords(shape: Shape, p: Worker, d: Worker, validRanks: set<nat>, kvtSize: nat, kvtRank: nat,
                         ntpb: nat, src: seq<nat>, dst: seq<nat>, lo: nat, hi: nat): seq<IpcBlock>
    requires 0 < d.engineTp <= kvtSize == |validRanks| && ntpb > 0 && lo <= hi && TablesCover(src, dst, ntpb, hi)
  {
    var k, dk := p.tokenSize / 2, d.tokenSize / 2;
    var whole := EqualStream(src, dst, ntpb, p.blockSize, p.tokenSize);
    if kvtSize == d.engineTp then
      if shape.Ragged? then Records(whole, lo, hi)
      else
        var s := EqualStream(src, dst, ntpb, Times(ntpb, k), k);
        Records(s, lo, hi)
        + Records(s.Shifted(Times(Times(ntpb, k), p.numBlocks), Times(Times(ntpb, k), d.numBlocks)), lo, hi)
    else if shape.Ragged? then
      if p.tokenSize == d.tokenSize then if p.tpRank == 0 then Records(whole, lo, hi) else []
      else
        var g := p.tpRank % GroupSize(kvtSize, d.engineTp);
        var s := SliceStream(src, dst, ntpb, p.tokenSize, d.tokenSize, g, k, false);
        Records(s, lo, hi) + Records(s.Shifted(k, dk), lo, hi)
    else if p.tpRank !in validRanks then []
    else
      var g := kvtRank % GroupSize(|validRanks|, d.engineTp);
      var s := SliceStream(src, dst, ntpb, k, dk, g, k, false);
      Records(s, lo, hi)
      + Records(s.Shifted(Times(Times(ntpb, k), p.numBlocks), Times(Times(ntpb, dk), d.numBlocks)), lo, hi)
  }

  /** For both shapes and every pair of sizes the plan sends what the hand-written parser sends,
      and it refuses exactly the pairs with more receiving than sending ranks. */
  lemma PlanRefinesLegacy(shape: Shape, p: Worker, d: Worker, validRanks: set<nat>, kvtSize: nat, kvtRank: nat,
                          ntpb: nat, src: seq<nat>, dst: seq<nat>, lo: nat, hi: nat)
    requires d.engineTp > 0 && kvtSize == |validRanks| && Shaped(p, ntpb) && Shaped(d, ntpb)
    requires kvtSize == d.engineTp ==> p.tokenSize == d.tokenSize
    requires lo <= hi && TablesCover(src, dst, ntpb, hi)
    ensures BuildTransferPlan(shape, p, d, validRanks, kvtSize, kvtRank).None? <==> kvtSize < d.engineTp
    ensures kvtSize >= d.engineTp ==>
              var plan := BuildTransferPlan(shape, p, d, validRanks, kvtSize, kvtRank).value;
              && (forall i :: 0 <= i < |plan| ==> Covers(plan[i], src, dst, hi))
              && PlanRecords(plan, src, dst, lo, hi)
                 == LegacyRecords(shape, p, d, validRanks, kvtSize, kvtRank, ntpb, src, dst, lo, hi)
  {
    hide Records, PlanRecords, Times, Covers, Build, TablesCover;
    if kvtSize >= d.engineTp {
      Commute(p.tokenSize / 2, ntpb);
      Commute(d.tokenSize / 2, ntpb);
      NoPlan(src, dst, lo, hi);
      var whole := kvtSize == d.engineTp || (shape.Ragged? && p.tokenSize == d.tokenSize);
      if whole && shape.Ragged? {
        RaggedEqualPlan(p, d, ntpb, src, dst, lo, hi);
      } else if whole {
        FlashEqualPlan(p, d, ntpb, src, dst, lo, hi);
      } else if shape.Ragged? {
        RaggedSlicesPlan(p, d, GroupSize(kvtSize, d.engineTp), ntpb, src, dst, lo, hi);
      } else {
        FlashSlicesPlan(p, d, kvtRank % GroupSize(kvtSize, d.engineTp), ntpb, src, dst, lo, hi);
      }
    }
  }

  lemma NoPlan(src: seq<nat>, dst: seq<nat>, lo: nat, hi: nat)
    requires lo <= hi
    ensures PlanRecords([], src, dst, lo, hi) == []
  {
  }

  /** The hand-written parser for a pair of workers. */
  method ParseLegacy(shape: Shape, p: Worker, d: Worker, validRanks: set<nat>, kvtSize: nat, kvtRank: nat,
                     ghost ntpb: nat, src: seq<nat>, dst: seq<nat>, seen: nat, count: nat, bounds: Bounds)
    returns (ok: bool, out: seq<IpcBlock>)
    requires bounds.Valid() && 0 < d.engineTp <= kvtSize == |validRanks| && Shaped(p, ntpb) && Shaped(d, ntpb)
    requires kvtSize == d.engineTp ==> p.tokenSize == d.tokenSize
    requires shape.Ragged? && p.tokenSize != d.tokenSize ==> d.tokenSize == p.tokenSize * GroupSize(kvtSize, d.engineTp)
    requires TablesCover(src, dst, ntpb, seen + count)
    ensures ok ==> SameCopy(out, LegacyRecords(shape, p, d, validRanks, kvtSize, kvtRank, ntpb, src, dst, seen, seen + count))
  {
    hide Records, Times, TablesCover, SameCopy, EqualStream, SliceStream;
    Commute(p.tokenSize / 2, ntpb);
    Commute(d.tokenSize / 2, ntpb);
    SameCopyReflexive(LegacyRecords(shape, p, d, validRanks, kvtSize, kvtRank, ntpb, src, dst, seen, seen + count));
    if kvtSize == d.engineTp {
      if shape.Ragged? {
        ok, out := RaggedEqual(p, src, dst, ntpb, seen, count, bounds);
      } else {
        ok, out := FlashEqual(p, d, src, dst, ntpb, seen, count, bounds);
      }
    } else if shape.Ragged? {
      if p.tokenSize != d.tokenSize {
        ok, out := RaggedSlices(p, d, src, dst, GroupSize(kvtSize, d.engineTp), ntpb, seen, count, bounds, false);
      } else if p.tpRank == 0 {
        ok, out := RaggedEqual(p, src, dst, ntpb, seen, count, bounds);
      } else {
        ok, out := true, [];
      }
    } else if p.tpRank !in validRanks {
      ok, out := true, [];
    } else {
      ok, out := FlashSlices(p, d, src, dst, kvtRank % GroupSize(|validRanks|, d.engineTp), ntpb, seen, count, bounds);
    }
  }

  /** Ranks that send nothing: with more sending than receiving ranks, those that hold no heads of their own
      (K and V halves of the layer) and all but the first of those with equal caches (token-major pages). */
  predicate Silent(shape: Shape, p: Worker, d: Worker, validRanks: set<nat>) {
    |validRanks| > d.engineTp
    && if shape.Flash? then p.tpRank !in validRanks else p.tokenSize == d.tokenSize && p.tpRank != 0
  }

  lemma OnlyRank(p: Worker, d: Worker, n: nat, rank: nat)
    requires p.tokenSize > 0 && p.tokenSize == d.tokenSize == p.tokenSize * n
    ensures n == 1 && rank % n == 0
  {
    if n > 1 { MulStrict(1, n, p.tokenSize); }
  }

  /** Both ways of sending, from the same workers and tables: whenever the hand-written parser
      succeeds, the generator's records perform the same copy; every byte lands in its place. */
  method SendBothWays(shape: Shape, p: Worker, d: Worker, validRanks: set<nat>, kvtSize: nat, kvtRank: nat,
                      ghost ntpb: nat, src: seq<nat>, dst: seq<nat>, seen: nat, count: nat, bounds: Bounds)
    returns (ok: bool, legacy: seq<IpcBlock>, planned: seq<IpcBlock>)
    requires bounds.Valid() && 0 < d.engineTp <= kvtSize == |validRanks| && Shaped(p, ntpb) && Shaped(d, ntpb)
    requires kvtSize == d.engineTp ==> p.tokenSize == d.tokenSize
    requires shape.Ragged? && p.tokenSize != d.tokenSize ==> d.tokenSize == p.tokenSize * GroupSize(kvtSize, d.engineTp)
    requires TablesCover(src, dst, ntpb, seen + count)
    ensures ok ==> SameCopy(planned, legacy)
    ensures Silent(shape, p, d, validRanks) ==> SameCopy(planned, [])
    ensures var n := kvtSize / d.engineTp;
            var pc, dc := CacheOf(OrderOf(shape), p, src, ntpb), CacheOf(OrderOf(shape), d, dst, ntpb);
            var g := if p.tokenSize == d.tokenSize then 0 else (if shape.Flash? then kvtRank else p.tpRank) % n;
            !Silent(shape, p, d, validRanks) && dc.Proper() && (shape.Flash? ==> d.tokenSize == p.tokenSize * n) ==>
              AllSliced(planned, pc, dc, g, false, seen, seen + count)
  {
    hide Records, PlanRecords, LegacyRecords, TablesCover, SameCopy, Covers, BuildAttnSpec, AllSliced, Cache.Proper;
    ok, legacy := ParseLegacy(shape, p, d, validRanks, kvtSize, kvtRank, ntpb, src, dst, seen, count, bounds);
    PlanRefinesLegacy(shape, p, d, validRanks, kvtSize, kvtRank, ntpb, src, dst, seen, seen + count);
    var plan := BuildTransferPlan(shape, p, d, validRanks, kvtSize, kvtRank).value;
    planned := GenerateAll(plan, src, dst, seen, count);
    NoPlan(src, dst, seen, seen + count);
    if ok {
      ghost var ref := LegacyRecords(shape, p, d, validRanks, kvtSize, kvtRank, ntpb, src, dst, seen, seen + count);
      SameCopySymmetric(legacy, ref);
      SameCopyTransitive(planned, ref, legacy);
    }
    ghost var n, order := kvtSize / d.engineTp, OrderOf(shape);
    if !Silent(shape, p, d, validRanks) && CacheOf(order, d, dst, ntpb).Proper()
       && (shape.Flash? ==> d.tokenSize == p.tokenSize * n)
    {
      ghost var rank := if shape.Flash? then kvtRank else p.tpRank;
      assert |plan| == 1 && Covers(plan[0], src, dst, seen + count) && plan == [plan[0]];
      if p.tokenSize == d.tokenSize {
        if shape.Flash? { OnlyRank(p, d, n, rank); }
        SpecPlaces(order, p, d, 1, 0, ntpb, src, dst, seen, seen + count, planned);
      } else {
        SpecPlaces(order, p, d, n, rank % n, ntpb, src, dst, seen, seen + count, planned);
      }
    }
  }
}
