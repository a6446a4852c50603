/** Token-granular attention parser of the hybrid models (TokenMajor pages, packed layers). */
module AttnParser {
  import opened Arith
  import opened Copies
  import opened RangeCheck
  import opened Schedule
  import opened PageLayout
  import opened Reshard
  import opened Sequences
  import Placement

  /** The source accepts a pack size of 0 for 1. */
  function Pack(attnPackSize: nat): nat {
    if attnPackSize == 0 then 1 else attnPackSize
  }

  /** Token slots of a page over all of its layers. */
  function Ntpb(g: Side, pack: nat): nat {
    Times(g.pageTokens, pack)
  }

  /** Registered bytes of one token: K and V. */
  function TokenSize(g: Side): nat {
    2 * g.row
  }

  function KernelBytes(g: Side): nat {
    Times(g.kernel, TokenSize(g))
  }

  /** Cursor values of one round of the parser's loop. */
  datatype Round = Round(pOff: nat, dOff: nat, pKernel: nat, dKernel: nat, pBase: nat, dBase: nat,
                         pStep: nat, dStep: nat, groupOff: nat, swap: bool) {
    function At(i: nat, sub: nat, v: bool): IpcBlock {
      var pk := pOff + Times(sub, pKernel) + Times(pBase + i, pStep);
      var dk := dOff + Times(sub, dKernel) + Times(dBase + i, dStep) + Times(groupOff, pStep);
      if v then Record(swap, pk + pKernel / 2, dk + dKernel / 2, pStep) else Record(swap, pk, dk, pStep)
    }
  }

  ghost predicate RoundMatches(f: PacketFn, w: nat, r: Round, i: nat, sub: nat) {
    f(w + i, sub, false) == r.At(i, sub, false) && f(w + i, sub, true) == r.At(i, sub, true)
  }

  /** One layer of a round: the K and V records of `tokens` consecutive tokens. */
  method EmitLayer(r: Round, sub: nat, tokens: nat, bounds: Bounds, before: seq<IpcBlock>,
                   ghost f: PacketFn, ghost w: nat)
    returns (ok: bool, out: seq<IpcBlock>)
    requires bounds.Valid()
    requires forall i: nat :: i < tokens ==> RoundMatches(f, w, r, i, sub)
    ensures ok ==> out == before + LayerPackets(f, w, w + tokens, sub)
    ensures ok <==> forall t: nat, v: bool :: w <= t < w + tokens ==> InRange(bounds, f(t, sub, v))
  {
    hide Times, InRange;
    out := before;
    var idx := 0;
    while idx < tokens
      invariant idx <= tokens
      invariant out == before + LayerPackets(f, w, w + idx, sub)
      invariant forall t: nat, v: bool :: w <= t < w + idx ==> InRange(bounds, f(t, sub, v))
    {
      assert RoundMatches(f, w, r, idx, sub);
      var pk := r.pOff + Times(sub, r.pKernel) + Times(r.pBase + idx, r.pStep);
      var pv := pk + r.pKernel / 2;
      var dk := r.dOff + Times(sub, r.dKernel) + Times(r.dBase + idx, r.dStep) + Times(r.groupOff, r.pStep);
      var dv := dk + r.dKernel / 2;
      ok, out := AppendIpcBlockChecked(out, bounds, if r.swap then dk else pk, if r.swap then pk else dk, r.pStep);
      if !ok {
        assert !InRange(bounds, f(w + idx, sub, false));
        return;
      }
      ok, out := AppendIpcBlockChecked(out, bounds, if r.swap then dv else pv, if r.swap then pv else dv, r.pStep);
      if !ok {
        assert !InRange(bounds, f(w + idx, sub, true));
        return;
      }
      idx := idx + 1;
    }
    ok := true;
  }

  /** One round: every layer of the page, layer by layer. */
  method EmitRound(r: Round, tokens: nat, pack: nat, bounds: Bounds, before: seq<IpcBlock>,
                   ghost f: PacketFn, ghost w: nat)
    returns (ok: bool, out: seq<IpcBlock>)
    requires bounds.Valid()
    requires forall i: nat, sub: nat :: i < tokens && sub < pack ==> RoundMatches(f, w, r, i, sub)
    ensures ok ==> out == before + RoundPackets(f, w, w + tokens, pack)
    ensures ok <==> AllPacketsInRange(bounds, f, w, w + tokens, pack)
  {
    hide RoundMatches, InRange, LayerPackets;
    out := before;
    var sub := 0;
    while sub < pack
      invariant sub <= pack
      invariant out == before + RoundPackets(f, w, w + tokens, sub)
      invariant AllPacketsInRange(bounds, f, w, w + tokens, sub)
    {
      ok, out := EmitLayer(r, sub, tokens, bounds, out, f, w);
      if !ok { return; }
      sub := sub + 1;
    }
    ok := true;
  }

  /** Page, kernel block and slot of a token, computed as the parser computes them. */
  method Cursor(g: Side, pack: nat, wrote: nat) returns (page: nat, cell: nat, slot: nat, cellOff: nat)
    requires g.Valid(pack)
    ensures g.pageTokens > 0 && page == wrote / g.pageTokens && cell == g.CellOf(wrote) && slot == g.SlotOf(wrote)
    ensures cellOff == Times(Times(g.CellOf(wrote), pack), KernelBytes(g))
  {
    hide Times, Side.Valid, Ntpb;
    PageSize(g, pack);
    var kernelBytes := Times(g.kernel, TokenSize(g));
    var ntpb := Ntpb(g, pack);
    if pack == 1 {
      page := wrote / ntpb;
      var inPage := wrote - page * ntpb;
      Remainder(wrote, ntpb);
      cell := inPage / g.kernel;
      TimesOne(cell);
      cellOff := Times(cell, kernelBytes);
    } else {
      var perLayer := ntpb / pack;
      page := wrote / perLayer;
      cell := wrote % perLayer / g.kernel;
      cellOff := Times(Times(cell, pack), kernelBytes);
    }
    slot := wrote % g.kernel;
  }

  lemma PageSize(g: Side, pack: nat)
    requires g.Valid(pack)
    ensures pack > 0 && g.kernel > 0 && Ntpb(g, pack) / pack == g.pageTokens > 0
    ensures pack == 1 ==> Ntpb(g, pack) == g.pageTokens
  {
    DivMod0(g.pageTokens, pack);
  }

  lemma Remainder(w: nat, m: nat)
    requires m > 0
    ensures w - w / m * m == w % m
  {
  }

  lemma TimesOne(a: nat)
    ensures Times(a, 1) == a
  {
  }

  lemma KernelIsTwoUnits(g: Side)
    ensures KernelBytes(g) == 2 * g.UnitBytes()
  {
    assert g.kernel * (2 * g.row) == 2 * (g.kernel * g.row);
  }

  lemma UnitSum(c: nat, sub: nat, b: nat, ub: nat, kb: nat)
    requires kb == 2 * ub
    ensures Times(Times(c + sub, 2) + b, ub) == Times(c, kb) + Times(sub, kb) + b * ub
  {
    assert (c + sub) * 2 * ub == (c + sub) * kb;
    Distribute((c + sub) * 2, b, ub);
    Distribute(c, sub, kb);
  }

  /** The parser's nested sums are the address function. */
  lemma OffsetAsParsed(g: Side, pack: nat, w: nat, i: nat, sub: nat, v: bool)
    requires g.layout == TokenMajor && g.Valid(pack) && g.SlotOf(w) + i < g.kernel
    ensures g.Offset(pack, w + i, sub, v)
         == g.PageBase(w) + Times(Times(g.CellOf(w), pack), KernelBytes(g)) + Times(sub, KernelBytes(g))
            + (if v then KernelBytes(g) / 2 else 0) + Times(g.SlotOf(w) + i, g.row)
  {
    hide Side.PageBase, Side.CellOf, Side.SlotOf, KernelBytes, Side.UnitBytes, Times, Side.Valid;
    RowAt(g, pack, w, i, sub, v);
    KernelIsTwoUnits(g);
    UnitSum(Times(g.CellOf(w), pack), sub, Bit(v), g.UnitBytes(), KernelBytes(g));
    SplitTimes(g.SlotOf(w), i, g.row);
  }

  lemma SplitTimes(a: nat, b: nat, m: nat)
    ensures Times(a + b, m) == Times(a, m) + Times(b, m)
  {
    Distribute(a, b, m);
  }

  function RoundOf(j: Job, w: nat): Round {
    Round(j.p.PageBase(w) + Times(Times(j.p.CellOf(w), j.k), KernelBytes(j.p)),
          j.d.PageBase(w) + Times(Times(j.d.CellOf(w), j.k), KernelBytes(j.d)),
          KernelBytes(j.p), KernelBytes(j.d), j.p.SlotOf(w), j.d.SlotOf(w),
          j.p.row, j.d.row, j.groupOff, j.swap)
  }

  /** Inside one round every token shares the page and the kernel block of the first. */
  lemma RoundMatch(j: Job, w: nat, i: nat, sub: nat)
    requires j.p.layout == j.d.layout == TokenMajor && j.p.Valid(j.k) && j.d.Valid(j.k)
    requires j.p.SlotOf(w) + i < j.p.kernel && j.d.SlotOf(w) + i < j.d.kernel
    ensures RoundMatches(j.Packets(), w, RoundOf(j, w), i, sub)
  {
    hide Side.Offset, Side.PageBase, Side.CellOf, Side.SlotOf, KernelBytes, Times, Side.Valid;
    OffsetAsParsed(j.p, j.k, w, i, sub, false);
    OffsetAsParsed(j.p, j.k, w, i, sub, true);
    OffsetAsParsed(j.d, j.k, w, i, sub, false);
    OffsetAsParsed(j.d, j.k, w, i, sub, true);
  }

  ghost predicate Parsable(g: Side, pack: nat, tokens: nat) {
    g.layout == TokenMajor && g.Valid(pack) && g.Holds(tokens)
  }

  /** Emits the copy of tokens [attnWrote, attnWrote + attnLeft), or throws exactly when one
      of its records fails the range check. */
  method ParseHybridAttnBlock(p: Side, d: Side, attnWrote: nat, attnLeft: nat, groupOff: nat,
                              attnPackSize: nat, bounds: Bounds, swapOffsets: bool, ghost n: nat)
    returns (ok: bool, out: seq<IpcBlock>)
    requires bounds.Valid()
    requires Parsable(p, Pack(attnPackSize), attnWrote + attnLeft)
    requires Parsable(d, Pack(attnPackSize), attnWrote + attnLeft)
    ensures var job := Job(p, d, Pack(attnPackSize), n, groupOff, swapOffsets);
            && (ok <==> AllPacketsInRange(bounds, job.Packets(), attnWrote, attnWrote + attnLeft, job.k))
            && (ok ==> SameCopy(out, job.Reference(attnWrote, attnWrote + attnLeft)))
            && (ok && job.Valid() && Distinct(if swapOffsets then p.blocks else d.blocks) ==>
                  Placement.AllPlaced(out, p, d, job.k, n, groupOff, swapOffsets, attnWrote, attnWrote + attnLeft))
  {
    hide Times, InRange, SameCopy, RoundMatches, RoundPackets, RangePackets, Side.Valid, Side.Offset, KernelBytes, Job.Valid,
         Placement.AllPlaced;
    var pack := Pack(attnPackSize);
    ghost var job := Job(p, d, pack, n, groupOff, swapOffsets);
    ghost var f := job.Packets();
    ghost var end := attnWrote + attnLeft;
    var wrote, left := attnWrote, attnLeft;
    out := [];
    SameCopyEmpty(f, attnWrote, pack);
    while left > 0
      invariant attnWrote <= wrote && wrote + left == end
      invariant SameCopy(out, RangePackets(f, attnWrote, wrote, pack))
      invariant AllPacketsInRange(bounds, f, attnWrote, wrote, pack)
    {
      HeldIndex(p, pack, end, wrote);
      HeldIndex(d, pack, end, wrote);
      CellBelow(p, pack, wrote);
      CellBelow(d, pack, wrote);
      var pPage, pCell, pSlot, pCellOff := Cursor(p, pack, wrote);
      var dPage, dCell, dSlot, dCellOff := Cursor(d, pack, wrote);
      var tokens := Min(p.kernel - pSlot, Min(d.kernel - dSlot, left));
      var r := Round(Times(p.blocks[pPage], p.blockSize) + pCellOff, Times(d.blocks[dPage], d.blockSize) + dCellOff,
                     KernelBytes(p), KernelBytes(d), pSlot, dSlot, TokenSize(p) / 2, TokenSize(d) / 2, groupOff, swapOffsets);
      assert r == RoundOf(job, wrote);
      forall i: nat, sub: nat | i < tokens && sub < pack
        ensures RoundMatches(f, wrote, r, i, sub)
      {
        RoundMatch(job, wrote, i, sub);
      }
      RoundDone(f, attnWrote, wrote, wrote + tokens, pack, out);
      ok, out := EmitRound(r, tokens, pack, bounds, out, f, wrote);
      if !ok { return; }
      wrote := wrote + tokens;
      left := left - tokens;
    }
    ok := true;
    if job.Valid() && Distinct(if swapOffsets then p.blocks else d.blocks) {
      Placement.AllReferencePlaces(job, attnWrote, end, out);
    }
  }
}
