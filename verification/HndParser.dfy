/** FlashInfer attention parser (HeadMajor pages): one K run and one V run per head. */
module HndParser {
  import opened Arith
  import opened Copies
  import opened RangeCheck
  import opened Schedule
  import opened PageLayout
  import opened Reshard
  import opened Sequences
  import Placement

  /** Registered bytes of one token with `heads` heads. */
  function TokenSize(g: Side, heads: nat): nat {
    Times(2 * heads, g.row)
  }

  function KernelBytes(g: Side, heads: nat): nat {
    Times(g.kernel, TokenSize(g, heads))
  }

  ghost predicate Parsable(g: Side, heads: nat, tokens: nat) {
    g.layout == HeadMajor && g.Valid(heads) && g.Holds(tokens)
  }

  lemma SectionSizes(g: Side, heads: nat)
    ensures KernelBytes(g, heads) == 2 * Times(heads, g.UnitBytes())
    ensures KernelBytes(g, heads) / 2 == Times(heads, g.UnitBytes())
  {
    assert g.kernel * (2 * heads * g.row) == 2 * (heads * (g.kernel * g.row));
  }

  lemma UnitSum(cell: nat, b: nat, heads: nat, sub: nat, ub: nat)
    ensures Times(Times(Times(cell, 2) + b, heads) + sub, ub)
         == Times(cell, 2 * Times(heads, ub)) + b * Times(heads, ub) + Times(sub, ub)
  {
    Distribute((cell * 2 + b) * heads, sub, ub);
    assert (cell * 2 + b) * heads * ub == (cell * 2 + b) * (heads * ub);
    Distribute(cell * 2, b, heads * ub);
    assert cell * 2 * (heads * ub) == cell * (2 * (heads * ub));
  }

  /** The parser's sums are the address function. */
  lemma OffsetAsParsed(g: Side, heads: nat, w: nat, sub: nat, v: bool)
    requires g.layout == HeadMajor
    ensures g.Offset(heads, w, sub, v)
         == g.PageBase(w) + Times(g.CellOf(w), KernelBytes(g, heads)) + Times(sub, g.UnitBytes())
            + Times(g.SlotOf(w), g.row) + (if v then KernelBytes(g, heads) / 2 else 0)
  {
    hide Side.PageBase, Side.CellOf, Side.SlotOf, KernelBytes, Side.UnitBytes, Times;
    SectionSizes(g, heads);
    UnitSum(g.CellOf(w), Bit(v), heads, sub, g.UnitBytes());
  }

  lemma GroupedHead(off: nat, heads: nat, sub: nat, ub: nat)
    ensures Times(Times(off, heads) + sub, ub) == Times(off, Times(heads, ub)) + Times(sub, ub)
  {
    Distribute(off * heads, sub, ub);
    assert off * heads * ub == off * (heads * ub);
  }

  /** K and V start offsets of head `sub`, as the loop computes them. */
  datatype Starts = Starts(p: nat, d: nat, pHead: nat, dHead: nat, pKv: nat, dKv: nat, swap: bool, head: nat) {
    function At(sub: nat, v: bool): IpcBlock {
      var pk := p + Times(sub, pHead);
      var dk := d + Times(sub, dHead);
      if v then Record(swap, pk + pKv, dk + dKv, head) else Record(swap, pk, dk, head)
    }
  }

  function StartsOf(j: Job, w: nat): Starts {
    Starts(j.p.PageBase(w) + Times(j.p.CellOf(w), KernelBytes(j.p, j.k)) + Times(j.p.SlotOf(w), j.p.row),
           j.d.PageBase(w) + Times(j.d.CellOf(w), KernelBytes(j.d, j.WideSubs()))
             + Times(j.groupOff, Times(j.k, j.d.UnitBytes())) + Times(j.d.SlotOf(w), j.d.row),
           j.p.UnitBytes(), j.d.UnitBytes(), KernelBytes(j.p, j.k) / 2, KernelBytes(j.d, j.WideSubs()) / 2,
           j.swap, j.p.row)
  }

  lemma StartsMatch(j: Job, w: nat, sub: nat, v: bool)
    requires j.Valid() && j.d.layout == HeadMajor
    ensures j.Packets()(w, sub, v) == StartsOf(j, w).At(sub, v)
  {
    hide Side.Offset, Side.PageBase, Side.CellOf, Side.SlotOf, KernelBytes, Side.UnitBytes, Times, Side.Valid;
    OffsetAsParsed(j.p, j.k, w, sub, v);
    OffsetAsParsed(j.d, j.WideSubs(), w, j.WideSub(sub), v);
    GroupedHead(j.groupOff, j.k, sub, j.d.UnitBytes());
  }

  lemma RoundAdjacent(j: Job, w: nat, i: nat, sub: nat)
    requires j.Valid() && j.d.layout == HeadMajor
    requires j.p.SlotOf(w) + i < j.p.kernel && j.d.SlotOf(w) + i < j.d.kernel
    ensures Adjacent(j.Packets(), w, i, sub)
  {
    hide Side.Offset, Side.SlotOf, Side.Valid, Job.WideSub, Job.WideSubs;
    forall v: bool
      ensures j.Packets()(w + i, sub, v) == IpcBlock(j.Packets()(w, sub, v).src + i * j.Packets()(w, sub, v).len,
                j.Packets()(w, sub, v).dst + i * j.Packets()(w, sub, v).len, j.Packets()(w, sub, v).len)
    {
      NextInRow(j, w, i, sub, v);
    }
  }

  lemma NextInRow(j: Job, w: nat, i: nat, sub: nat, v: bool)
    requires j.Valid() && j.d.layout == HeadMajor
    requires j.p.SlotOf(w) + i < j.p.kernel && j.d.SlotOf(w) + i < j.d.kernel
    ensures var b := j.Packets()(w, sub, v);
            j.Packets()(w + i, sub, v) == IpcBlock(b.src + i * b.len, b.dst + i * b.len, b.len)
  {
    hide Side.Offset, Side.SlotOf, Side.Valid, Job.WideSub, Job.WideSubs;
    RowAt(j.p, j.k, w, i, sub, v);
    RowAt(j.d, j.WideSubs(), w, i, j.WideSub(sub), v);
  }

  /** The runs of a round pass the range check. */
  ghost predicate RunsInRange(bounds: Bounds, f: PacketFn, w: nat, n: nat, k: nat) {
    forall sub: nat, v: bool :: sub < k ==> InRange(bounds, Long(f(w, sub, v), n))
  }

  method EmitHeads(st: Starts, tokens: nat, heads: nat, bounds: Bounds, before: seq<IpcBlock>,
                   ghost f: PacketFn, ghost w: nat)
    returns (ok: bool, out: seq<IpcBlock>)
    requires bounds.Valid()
    requires forall sub: nat, v: bool :: sub < heads ==> f(w, sub, v) == st.At(sub, v)
    ensures ok ==> out == before + RoundRuns(f, w, tokens, heads)
    ensures ok <==> RunsInRange(bounds, f, w, tokens, heads)
  {
    hide Times, InRange;
    out := before;
    var length := tokens * st.head;
    var headIdx := 0;
    while headIdx < heads
      invariant headIdx <= heads
      invariant out == before + RoundRuns(f, w, tokens, headIdx)
      invariant RunsInRange(bounds, f, w, tokens, headIdx)
    {
      var pk := st.p + Times(headIdx, st.pHead);
      var dk := st.d + Times(headIdx, st.dHead);
      var pv, dv := pk + st.pKv, dk + st.dKv;
      assert f(w, headIdx, false) == st.At(headIdx, false) && f(w, headIdx, true) == st.At(headIdx, true);
      ok, out := AppendIpcBlockChecked(out, bounds, if st.swap then dk else pk, if st.swap then pk else dk, length);
      if !ok {
        assert !InRange(bounds, Long(f(w, headIdx, false), tokens));
        return;
      }
      ok, out := AppendIpcBlockChecked(out, bounds, if st.swap then dv else pv, if st.swap then pv else dv, length);
      if !ok {
        assert !InRange(bounds, Long(f(w, headIdx, true), tokens));
        return;
      }
      headIdx := headIdx + 1;
    }
    ok := true;
  }

  lemma PositiveFactor(n: nat, m: nat)
    requires n * m > 0
    ensures m > 0
  {
  }

  lemma LongFitsAll(bounds: Bounds, f: PacketFn, w: nat, n: nat, sub: nat, v: bool, i: nat)
    requires bounds.srcScale == 1 && i < n && Adjacent(f, w, i, sub)
    requires InRange(bounds, Long(f(w, sub, v), n))
    ensures InRange(bounds, f(w + i, sub, v))
  {
    var b := f(w, sub, v);
    PositiveFactor(n, b.len);
    MulStrict(i, n, b.len);
  }

  lemma LastFitsLong(bounds: Bounds, f: PacketFn, w: nat, n: nat, sub: nat, v: bool)
    requires bounds.srcScale == 1 && 0 < n && Adjacent(f, w, n - 1, sub)
    requires InRange(bounds, f(w + (n - 1), sub, v))
    ensures InRange(bounds, Long(f(w, sub, v), n))
  {
    var b := f(w, sub, v);
    assert n * b.len == (n - 1) * b.len + b.len;
  }

  lemma RoundInRange(bounds: Bounds, f: PacketFn, w: nat, n: nat, k: nat)
    requires bounds.srcScale == 1 && 0 < n
    requires forall i: nat, sub: nat :: i < n && sub < k ==> Adjacent(f, w, i, sub)
    ensures RunsInRange(bounds, f, w, n, k) <==> AllPacketsInRange(bounds, f, w, w + n, k)
  {
    hide Adjacent, InRange, Long;
    if RunsInRange(bounds, f, w, n, k) {
      forall t: nat, sub: nat, v: bool | w <= t < w + n && sub < k
        ensures InRange(bounds, f(t, sub, v))
      {
        LongFitsAll(bounds, f, w, n, sub, v, t - w);
      }
    }
    if AllPacketsInRange(bounds, f, w, w + n, k) {
      forall sub: nat, v: bool | sub < k
        ensures InRange(bounds, Long(f(w, sub, v), n))
      {
        assert InRange(bounds, f(w + (n - 1), sub, v));
        LastFitsLong(bounds, f, w, n, sub, v);
      }
    }
  }

  /** Emits the copy of tokens [wrote, wrote + left). Without format conversion it throws
      exactly when a record of the reference fails the range check. */
  method ParseHybridHndBlock(p: Side, d: Side, startTokens: nat, leftTokens: nat, attnGroupN: nat, groupOff: nat,
                             numKvHeads: nat, bounds: Bounds, swapOffsets: bool)
    returns (ok: bool, out: seq<IpcBlock>)
    requires bounds.Valid()
    requires Job(p, d, numKvHeads, attnGroupN, groupOff, swapOffsets).Valid() && d.layout == HeadMajor
    requires p.Holds(startTokens + leftTokens) && d.Holds(startTokens + leftTokens)
    ensures var job := Job(p, d, numKvHeads, attnGroupN, groupOff, swapOffsets);
            && (bounds.srcScale == 1 ==>
                  (ok <==> AllPacketsInRange(bounds, job.Packets(), startTokens, startTokens + leftTokens, job.k)))
            && (ok ==> SameCopy(out, job.Reference(startTokens, startTokens + leftTokens)))
            && (ok && Distinct(if swapOffsets then p.blocks else d.blocks) ==>
                  Placement.AllPlaced(out, p, d, numKvHeads, attnGroupN, groupOff, swapOffsets, startTokens, startTokens + leftTokens))
  {
    hide *;
    ghost var job := Job(p, d, numKvHeads, attnGroupN, groupOff, swapOffsets);
    ghost var f := job.Packets();
    ghost var end := startTokens + leftTokens;
    JobSides(job, startTokens, end);
    var wrote, left := startTokens, leftTokens;
    out := [];
    SameCopyEmpty(f, startTokens, numKvHeads);
    NothingOut(bounds, f, startTokens, numKvHeads);
    while left > 0
      invariant startTokens <= wrote && wrote + left == end
      invariant SameCopy(out, RangePackets(f, startTokens, wrote, numKvHeads))
      invariant bounds.srcScale == 1 ==> AllPacketsInRange(bounds, f, startTokens, wrote, numKvHeads)
    {
      var st, tokens := RoundStarts(p, d, wrote, left, attnGroupN, groupOff, numKvHeads, swapOffsets, end);
      forall i: nat, sub: nat | i < tokens && sub < numKvHeads
        ensures Adjacent(f, wrote, i, sub)
      {
        RoundAdjacent(job, wrote, i, sub);
      }
      forall sub: nat, v: bool | sub < numKvHeads
        ensures f(wrote, sub, v) == st.At(sub, v)
      {
        StartsMatch(job, wrote, sub, v);
      }
      RunsDone(f, startTokens, wrote, tokens, numKvHeads, out);
      if bounds.srcScale == 1 {
        RoundInRange(bounds, f, wrote, tokens, numKvHeads);
        JoinRange(bounds, f, startTokens, wrote, wrote + tokens, end, numKvHeads);
      }
      ok, out := EmitHeads(st, tokens, numKvHeads, bounds, out, f, wrote);
      if !ok { return; }
      wrote := wrote + tokens;
      left := left - tokens;
    }
    ok := true;
    if Distinct(if swapOffsets then p.blocks else d.blocks) {
      Placement.AllReferencePlaces(job, startTokens, end, out);
    }
  }

  lemma JobSides(j: Job, lo: nat, hi: nat)
    requires j.Valid() && lo <= hi
    ensures j.p.Valid(j.k) && j.d.Valid(j.WideSubs())
    ensures j.Reference(lo, hi) == RangePackets(j.Packets(), lo, hi, j.k)
  {
  }

  lemma NothingOut(bounds: Bounds, f: PacketFn, lo: nat, k: nat)
    ensures AllPacketsInRange(bounds, f, lo, lo, k)
  {
  }

  lemma JoinRange(bounds: Bounds, f: PacketFn, lo: nat, mid: nat, hi: nat, end: nat, k: nat)
    requires lo <= mid <= hi <= end && AllPacketsInRange(bounds, f, lo, mid, k)
    ensures AllPacketsInRange(bounds, f, mid, hi, k) <==> AllPacketsInRange(bounds, f, lo, hi, k)
    ensures !AllPacketsInRange(bounds, f, lo, hi, k) ==> !AllPacketsInRange(bounds, f, lo, end, k)
  {
    hide InRange;
  }

  /** Start offsets and length of one round, computed as the parser computes them. */
  method RoundStarts(p: Side, d: Side, wrote: nat, left: nat, attnGroupN: nat, groupOff: nat, numKvHeads: nat,
                     swapOffsets: bool, ghost end: nat)
    returns (st: Starts, tokens: nat)
    requires Job(p, d, numKvHeads, attnGroupN, groupOff, swapOffsets).Valid() && d.layout == HeadMajor
    requires p.Holds(end) && d.Holds(end) && 0 < left && wrote + left == end
    ensures st == StartsOf(Job(p, d, numKvHeads, attnGroupN, groupOff, swapOffsets), wrote)
    ensures 0 < tokens <= left && p.SlotOf(wrote) + tokens <= p.kernel && d.SlotOf(wrote) + tokens <= d.kernel
  {
    ghost var job := Job(p, d, numKvHeads, attnGroupN, groupOff, swapOffsets);
    hide Times, Side.Valid, Side.CellOf, Side.SlotOf;
    var pPage, pCell, pBase := Cursor(p, numKvHeads, wrote, end);
    var wideHeads := Times(attnGroupN, numKvHeads);
    var dPage, dCell, dBase := Cursor(d, wideHeads, wrote, end);
    var pKernelBlk := Times(p.kernel, TokenSize(p, numKvHeads));
    var dKernelBlk := Times(d.kernel, TokenSize(d, wideHeads));
    var pHeadSection, dHeadSection := Times(p.kernel, p.row), Times(d.kernel, p.row);
    var perGroup := Times(numKvHeads, dHeadSection);
    tokens := Min(p.kernel - pBase, Min(d.kernel - dBase, left));
    st := Starts(Times(p.blocks[pPage], p.blockSize) + Times(pCell, pKernelBlk) + Times(pBase, p.row),
                 Times(d.blocks[dPage], d.blockSize) + Times(dCell, dKernelBlk) + Times(groupOff, perGroup) + Times(dBase, p.row),
                 pHeadSection, dHeadSection, pKernelBlk / 2, dKernelBlk / 2, swapOffsets, p.row);
  }

  method Cursor(g: Side, heads: nat, wrote: nat, ghost end: nat) returns (page: nat, cell: nat, slot: nat)
    requires g.Valid(heads) && g.Holds(end) && wrote < end
    ensures page < |g.blocks| && cell == g.CellOf(wrote) && slot == g.SlotOf(wrote) < g.kernel
    ensures g.PageBase(wrote) == Times(g.blocks[page], g.blockSize)
  {
    hide Times, Side.Valid;
    HeldIndex(g, heads, end, wrote);
    Positive(g, heads);
    page := wrote / g.pageTokens;
    var inPage := wrote - page * g.pageTokens;
    assert inPage == wrote % g.pageTokens;
    cell := inPage / g.kernel;
    slot := wrote % g.kernel;
  }
}
