/** Where a resharding copy puts every byte, in coordinates of the cache tensors. A cache is a
    row-major tensor; the addresses here are positions in it, independent of how a parser walks. */
module Placement {
  import opened Arith
  import opened Copies
  import opened PageLayout
  import opened Reshard
  import opened Schedule
  import opened Sequences

  /** The block table has a page for token t. */
  predicate Paged(g: Side, t: nat) {
    g.pageTokens > 0 && g.kernel > 0 && t / g.pageTokens < |g.blocks|
  }

  /** Tensor (page, kernel cell, pack member, K or V, slot, byte). */
  function TokenMajorByte(g: Side, k: nat, t: nat, sub: nat, v: bool, e: nat): nat
    requires Paged(g, t)
  {
    var cell := Nest(g.blocks[t / g.pageTokens], g.cells, t % g.pageTokens / g.kernel);
    Nest(Nest(Nest(Nest(cell, k, sub), 2, if v then 1 else 0), g.kernel, t % g.kernel), g.row, e)
  }

  /** Tensor (page, kernel cell, K or V, head, slot, byte). */
  function HeadMajorByte(g: Side, heads: nat, t: nat, head: nat, v: bool, e: nat): nat
    requires Paged(g, t)
  {
    var cell := Nest(g.blocks[t / g.pageTokens], g.cells, t % g.pageTokens / g.kernel);
    Nest(Nest(Nest(Nest(cell, 2, if v then 1 else 0), heads, head), g.kernel, t % g.kernel), g.row, e)
  }

  /** Byte b of a row of the narrow rank. */
  function NarrowByte(p: Side, k: nat, t: nat, sub: nat, v: bool, b: nat): nat
    requires Paged(p, t)
  {
    if p.layout == TokenMajor then TokenMajorByte(p, k, t, sub, v, b) else HeadMajorByte(p, k, t, sub, v, b)
  }

  /** The same byte of narrow rank `off` of n in the wide rank: the narrow rows lie side by side in the
      wide row, or the narrow heads one after the other among the wide heads. */
  function WideByte(p: Side, d: Side, k: nat, n: nat, off: nat, t: nat, sub: nat, v: bool, b: nat): nat
    requires Paged(d, t)
  {
    if p.layout == TokenMajor then TokenMajorByte(d, k, t, sub, v, Nest(off, p.row, b))
    else HeadMajorByte(d, n * k, t, Nest(off, k, sub), v, b)
  }

  /** The byte is copied once to its place, from the narrow rank or to it, and the place is written once. */
  ghost predicate Placed(out: seq<IpcBlock>, p: Side, d: Side, k: nat, n: nat, off: nat, swap: bool,
                         t: nat, sub: nat, v: bool, b: nat) {
    && Paged(p, t) && Paged(d, t)
    && var narrow, wide := NarrowByte(p, k, t, sub, v, b), WideByte(p, d, k, n, off, t, sub, v, b);
       if swap then Count(out, wide, narrow) == 1 && Writes(out, narrow) == 1
       else Count(out, narrow, wide) == 1 && Writes(out, wide) == 1
  }

  /** Every byte of the tokens [lo, hi) is copied once to its place, and its place is written once. */
  ghost predicate AllPlaced(out: seq<IpcBlock>, p: Side, d: Side, k: nat, n: nat, off: nat, swap: bool, lo: nat, hi: nat) {
    forall t: nat, sub: nat, v: bool, b: nat :: lo <= t < hi && sub < k && b < p.row ==>
      Placed(out, p, d, k, n, off, swap, t, sub, v, b)
  }

  /** The address function of a layout is the position in its tensor. */
  lemma OffsetIsPosition(g: Side, k: nat, t: nat, sub: nat, v: bool, e: nat)
    requires g.Valid(k) && Paged(g, t)
    ensures g.layout == TokenMajor ==> g.Offset(k, t, sub, v) + e == TokenMajorByte(g, k, t, sub, v, e)
    ensures g.layout == HeadMajor ==> g.Offset(k, t, sub, v) + e == HeadMajorByte(g, k, t, sub, v, e)
  {
    hide Nest;
    var block, cell, slot, bit := g.blocks[t / g.pageTokens], t % g.pageTokens / g.kernel, t % g.kernel, if v then 1 else 0;
    var page := Nest(block, g.cells, cell);
    var u := if g.layout == TokenMajor then Nest(Nest(page, k, sub), 2, bit) else Nest(Nest(page, 2, bit), k, sub);
    assert u == block * (g.cells * (2 * k)) + g.Unit(k, cell, sub, v) by {
      UnitPosition(g, k, block, cell, sub, v);
    }
    NestFlat(u, g.kernel, slot, g.row, e);
    Distribute(block * (g.cells * (2 * k)), g.Unit(k, cell, sub, v), g.kernel * g.row);
    Associate(block, g.cells * (2 * k), g.kernel * g.row);
  }

  lemma UnitPosition(g: Side, k: nat, block: nat, cell: nat, sub: nat, v: bool)
    ensures var bit, page := if v then 1 else 0, Nest(block, g.cells, cell);
            (if g.layout == TokenMajor then Nest(Nest(page, k, sub), 2, bit) else Nest(Nest(page, 2, bit), k, sub))
            == block * (g.cells * (2 * k)) + g.Unit(k, cell, sub, v)
  {
    var bit, c := if v then 1 else 0, g.cells;
    var page := block * c + cell;
    if g.layout == TokenMajor {
      NestFlat(page, k, sub, 2, bit);
      Distribute(block * c, cell, k * 2);
      Associate(block, c, k * 2);
      Associate(cell, k, 2);
      Distribute(cell * k, sub, 2);
    } else {
      NestFlat(page, 2, bit, k, sub);
      Distribute(block * c, cell, 2 * k);
      Associate(block, c, 2 * k);
      Associate(cell, 2, k);
      Distribute(cell * 2, bit, k);
    }
  }

  lemma Held(g: Side, k: nat, hi: nat, t: nat)
    requires g.Valid(k) && g.Holds(hi) && t < hi
    ensures Paged(g, t)
  {
    HeldIndex(g, k, hi, t);
  }

  /** Everything that performs the reference copy of a pair of ranks puts every byte in its place, in
      either direction. */
  lemma ReferencePlaces(j: Job, lo: nat, hi: nat, out: seq<IpcBlock>, t: nat, sub: nat, v: bool, b: nat)
    requires lo <= t < hi && sub < j.k && b < j.p.row
    requires j.Valid() && j.p.Holds(hi) && j.d.Holds(hi) && SameCopy(out, j.Reference(lo, hi))
    requires Distinct(if j.swap then j.p.blocks else j.d.blocks)
    ensures Placed(out, j.p, j.d, j.k, j.n, j.groupOff, j.swap, t, sub, v, b)
  {
    hide *;
    JobPositions(j, hi, t, sub, v, b);
    ByteOfSlice(j, t, sub, v, b);
    var narrow, wide := NarrowByte(j.p, j.k, t, sub, v, b), WideByte(j.p, j.d, j.k, j.n, j.groupOff, t, sub, v, b);
    if j.swap {
      MirrorWrittenOnce(j, lo, hi, t, sub, v, b);
      CountOf(out, j.Reference(lo, hi), wide, narrow);
    } else {
      SliceWrittenOnce(j, lo, hi, t, sub, v, b, wide);
      CountOf(out, j.Reference(lo, hi), narrow, wide);
    }
    PlacedIf(out, j.p, j.d, j.k, j.n, j.groupOff, j.swap, t, sub, v, b);
  }

  lemma ByteOfSlice(j: Job, t: nat, sub: nat, v: bool, b: nat)
    requires b < j.p.row
    ensures SliceByte(j, t, sub, v, b, j.WideOffset(t, sub, v) + b)
  {
  }

  lemma PlacedIf(out: seq<IpcBlock>, p: Side, d: Side, k: nat, n: nat, off: nat, swap: bool, t: nat, sub: nat, v: bool, b: nat)
    requires Paged(p, t) && Paged(d, t)
    requires var narrow, wide := NarrowByte(p, k, t, sub, v, b), WideByte(p, d, k, n, off, t, sub, v, b);
             if swap then Count(out, wide, narrow) == 1 && Writes(out, narrow) == 1
             else Count(out, narrow, wide) == 1 && Writes(out, wide) == 1
    ensures Placed(out, p, d, k, n, off, swap, t, sub, v, b)
  {
  }

  /** The addresses of a pair of ranks are the two positions. */
  lemma JobPositions(j: Job, hi: nat, t: nat, sub: nat, v: bool, b: nat)
    requires j.Valid() && j.p.Holds(hi) && j.d.Holds(hi) && t < hi
    ensures Paged(j.p, t) && Paged(j.d, t)
    ensures j.p.Offset(j.k, t, sub, v) + b == NarrowByte(j.p, j.k, t, sub, v, b)
    ensures j.WideOffset(t, sub, v) + b == WideByte(j.p, j.d, j.k, j.n, j.groupOff, t, sub, v, b)
  {
    hide TokenMajorByte, HeadMajorByte, Side.Offset, Side.Valid, Side.Holds;
    Held(j.p, j.k, hi, t);
    Held(j.d, j.WideSubs(), hi, t);
    OffsetIsPosition(j.p, j.k, t, sub, v, b);
    OffsetIsPosition(j.d, j.WideSubs(), t, j.WideSub(sub), v, j.Shift() + b);
  }

  lemma CountOf(a: seq<IpcBlock>, b: seq<IpcBlock>, s: int, d: int)
    requires SameCopy(a, b)
    ensures Count(a, s, d) == Count(b, s, d) && Writes(a, d) == Writes(b, d)
  {
    hide WritesToCount, CountTo;
    SameCopySameWrites(a, b, d);
  }

  lemma AllReferencePlaces(j: Job, lo: nat, hi: nat, out: seq<IpcBlock>)
    requires lo <= hi && j.Valid() && j.p.Holds(hi) && j.d.Holds(hi) && SameCopy(out, j.Reference(lo, hi))
    requires Distinct(if j.swap then j.p.blocks else j.d.blocks)
    ensures AllPlaced(out, j.p, j.d, j.k, j.n, j.groupOff, j.swap, lo, hi)
  {
    hide Placed, SameCopy, Job.Valid;
    forall t: nat, sub: nat, v: bool, b: nat | lo <= t < hi && sub < j.k && b < j.p.row
      ensures Placed(out, j.p, j.d, j.k, j.n, j.groupOff, j.swap, t, sub, v, b)
    {
      ReferencePlaces(j, lo, hi, out, t, sub, v, b);
    }
  }
}
