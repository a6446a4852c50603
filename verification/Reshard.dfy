/** Resharding between a narrow rank and a wide one, for both page layouts.

    n narrow ranks correspond to one wide rank. In the TokenMajor layout the wide row is the
    n narrow rows side by side; in the HeadMajor layout the wide rank has n times as many
    heads. P > D copies narrow to wide, P < D copies wide to narrow. */
module Reshard {
  import opened Arith
  import opened Copies
  import opened RangeCheck
  import opened Schedule
  import opened Sequences
  import opened PageLayout

  /** The narrow side p with its k subs, the wide side d, the narrow rank's position
      groupOff among the n ranks of its group, and whether the copy runs from wide to narrow. */
  datatype Job = Job(p: Side, d: Side, k: nat, n: nat, groupOff: nat, swap: bool) {
    function WideSubs(): nat {
      if d.layout == HeadMajor then Times(n, k) else k
    }

    predicate Valid() {
      && p.layout == d.layout && p.Valid(k) && d.Valid(WideSubs()) && groupOff < n
      && d.row == (if d.layout == HeadMajor then p.row else Times(n, p.row))
    }

    function WideSub(sub: nat): nat {
      if d.layout == HeadMajor then Times(groupOff, k) + sub else sub
    }

    function Shift(): nat {
      if d.layout == HeadMajor then 0 else Times(groupOff, p.row)
    }

    /** Where the wide side keeps the narrow rank's row of token t, sub, K or V. */
    function WideOffset(t: nat, sub: nat, v: bool): nat {
      d.Offset(WideSubs(), t, WideSub(sub), v) + Shift()
    }

    /** The record that token t, sub, K or V calls for: the same coordinates on both sides. */
    function Packet(t: nat, sub: nat, v: bool): IpcBlock {
      Record(swap, p.Offset(k, t, sub, v), WideOffset(t, sub, v), p.row)
    }

    function Packets(): PacketFn {
      (t: nat, sub: nat, v: bool) => Packet(t, sub, v)
    }

    /** What a parser has to emit for tokens [lo, hi). */
    function Reference(lo: nat, hi: nat): seq<IpcBlock>
      requires lo <= hi
    {
      RangePackets(Packets(), lo, hi, k)
    }
  }

  function Record(swap: bool, p: nat, d: nat, len: nat): IpcBlock {
    if swap then IpcBlock(d, p, len) else IpcBlock(p, d, len)
  }

  /** Every record of the tokens [lo, hi) and the subs below k passes the range check. */
  ghost predicate AllPacketsInRange(bounds: Bounds, f: PacketFn, lo: nat, hi: nat, k: nat) {
    forall t: nat, sub: nat, v: bool :: lo <= t < hi && sub < k ==> InRange(bounds, f(t, sub, v))
  }

  // ---------------------------------------------------------------------------
  // Narrow rows tile wide rows
  // ---------------------------------------------------------------------------

  lemma WideCoordinates(j: Job, sub: nat, b: nat)
    requires j.Valid() && sub < j.k && b < j.p.row
    ensures j.WideSub(sub) < j.WideSubs() && j.Shift() + b < j.d.row
  {
    if j.d.layout == HeadMajor {
      TimesBelow(j.groupOff, j.n, j.k, sub);
    } else {
      TimesBelow(j.groupOff, j.n, j.p.row, b);
    }
  }

  /** Jobs that feed the same wide rank. */
  ghost predicate SameGroup(j: Job, j': Job) {
    j.Valid() && j'.Valid() && j'.d == j.d && j'.k == j.k && j'.n == j.n && j'.p.row == j.p.row
  }

  lemma WideInjective(j: Job, sub: nat, b: nat, j': Job, sub': nat, b': nat)
    requires SameGroup(j, j') && sub < j.k && sub' < j.k && b < j.p.row && b' < j.p.row
    requires j.WideSub(sub) == j'.WideSub(sub') && j.Shift() + b == j'.Shift() + b'
    ensures sub == sub' && b == b' && j.groupOff == j'.groupOff
  {
    if j.d.layout == HeadMajor {
      DigitUnique(j.groupOff, j'.groupOff, j.k, sub, sub');
    } else {
      DigitUnique(j.groupOff, j'.groupOff, j.p.row, b, b');
    }
  }

  /** Byte x is byte b of the wide copy of this rank's row. */
  ghost predicate SliceByte(j: Job, t: nat, sub: nat, v: bool, b: nat, x: int) {
    b < j.p.row && x == j.WideOffset(t, sub, v) + b
  }

  lemma SlicesDisjoint(j: Job, end: nat, t: nat, sub: nat, v: bool, b: nat,
                       j': Job, t': nat, sub': nat, v': bool, b': nat, x: int)
    requires SameGroup(j, j') && j.d.Holds(end) && t < end && t' < end && Distinct(j.d.blocks)
    requires sub < j.k && sub' < j.k
    requires SliceByte(j, t, sub, v, b, x) && SliceByte(j', t', sub', v', b', x)
    ensures t == t' && sub == sub' && v == v' && j.groupOff == j'.groupOff && b == b'
  {
    hide Side.Offset, Times;
    WideCoordinates(j, sub, b);
    WideCoordinates(j', sub', b');
    HeldIndex(j.d, j.WideSubs(), end, t);
    HeldIndex(j.d, j.WideSubs(), end, t');
    RowsDisjoint(j.d, j.WideSubs(), t, j.WideSub(sub), v, j.Shift() + b, t', j'.WideSub(sub'), v', j'.Shift() + b');
    WideInjective(j, sub, b, j', sub', b');
  }

  lemma OwnedIsSlice(j: Job, t: nat, sub: nat, v: bool, x: int) returns (b: nat)
    requires !j.swap && Owned(j.Packets(), x, t, sub, v)
    ensures SliceByte(j, t, sub, v, b, x)
  {
    hide Side.Offset;
    b := x - j.WideOffset(t, sub, v);
  }

  lemma JobOneOwner(j: Job, lo: nat, hi: nat, x: int)
    requires j.Valid() && !j.swap && j.d.Holds(hi) && Distinct(j.d.blocks)
    ensures OneOwner(j.Packets(), x, lo, hi, j.k)
  {
    hide Job.Packets, Job.WideOffset, Side.Offset;
    var f := j.Packets();
    forall t: nat, t': nat, sub: nat, sub': nat, v: bool, v': bool |
      lo <= t < hi && lo <= t' < hi && sub < j.k && sub' < j.k
      && Owned(f, x, t, sub, v) && Owned(f, x, t', sub', v')
      ensures t == t' && sub == sub' && v == v'
    {
      var b := OwnedIsSlice(j, t, sub, v, x);
      var b' := OwnedIsSlice(j, t', sub', v', x);
      SlicesDisjoint(j, hi, t, sub, v, b, j, t', sub', v', b', x);
    }
  }

  // ---------------------------------------------------------------------------
  // P > D: meaning preserved, destination tiled
  // ---------------------------------------------------------------------------

  /** Meaning is preserved: the byte is written once, from the same token, sub, K or V half
      and byte of the narrow rank. */
  lemma SliceWrittenOnce(j: Job, lo: nat, hi: nat, t: nat, sub: nat, v: bool, b: nat, x: int)
    requires j.Valid() && !j.swap && j.d.Holds(hi) && Distinct(j.d.blocks)
    requires lo <= t < hi && sub < j.k && SliceByte(j, t, sub, v, b, x)
    ensures Writes(j.Reference(lo, hi), x) == 1
    ensures Count(j.Reference(lo, hi), j.p.Offset(j.k, t, sub, v) + b, x) == 1
  {
    hide RangePackets, WritesToCount, CountTo, Side.Offset, Job.WideOffset, Job.Valid;
    var f := j.Packets();
    assert Moves(f(t, sub, v), j.p.Offset(j.k, t, sub, v) + b, x);
    JobOneOwner(j, lo, hi, x);
    RangeWritesOne(f, x, lo, hi, j.k, t, sub, v);
    RangeHits(f, lo, hi, j.k, t, sub, v, j.p.Offset(j.k, t, sub, v) + b, x);
    CountLeWrites(j.Reference(lo, hi), j.p.Offset(j.k, t, sub, v) + b, x);
  }

  ghost predicate InSlices(j: Job, lo: nat, hi: nat, x: int) {
    exists t: nat, sub: nat, v: bool, b: nat :: lo <= t < hi && sub < j.k && SliceByte(j, t, sub, v, b, x)
  }

  lemma RankWrites(j: Job, lo: nat, hi: nat, x: int)
    requires j.Valid() && !j.swap && j.d.Holds(hi) && lo <= hi && Distinct(j.d.blocks)
    ensures Writes(j.Reference(lo, hi), x) == if InSlices(j, lo, hi, x) then 1 else 0
  {
    hide RangePackets, WritesToCount, CountTo, Job.WideOffset, Side.Offset, Job.Valid, SliceByte;
    if InSlices(j, lo, hi, x) {
      var t: nat, sub: nat, v: bool, b: nat :| lo <= t < hi && sub < j.k && SliceByte(j, t, sub, v, b, x);
      SliceWrittenOnce(j, lo, hi, t, sub, v, b, x);
    } else {
      forall t: nat, sub: nat, v: bool | lo <= t < hi && sub < j.k
        ensures !Owned(j.Packets(), x, t, sub, v)
      {
        if Owned(j.Packets(), x, t, sub, v) {
          var b := OwnedIsSlice(j, t, sub, v, x);
        }
      }
      RangeWritesNone(j.Packets(), x, lo, hi, j.k);
    }
  }

  /** The n ranks that feed one wide rank d: rank i holds position i of the group. */
  ghost predicate Group(ranks: seq<Job>, d: Side, wideSubs: nat, hi: nat) {
    && |ranks| > 0 && d.Holds(hi)
    && forall i :: 0 <= i < |ranks| ==> InGroup(ranks, d, wideSubs, i)
  }

  ghost predicate InGroup(ranks: seq<Job>, d: Side, wideSubs: nat, i: nat)
    requires i < |ranks|
  {
    && SameGroup(ranks[0], ranks[i]) && !ranks[i].swap
    && ranks[i].groupOff == i && ranks[i].n == |ranks| && ranks[i].d == d && ranks[i].WideSubs() == wideSubs
  }

  /** Writes to byte x by the first m ranks of the group. */
  function GroupWrites(ranks: seq<Job>, m: nat, lo: nat, hi: nat, x: int): nat
    requires m <= |ranks| && lo <= hi
  {
    if m == 0 then 0
    else GroupWrites(ranks, m - 1, lo, hi, x) + Writes(ranks[m - 1].Reference(lo, hi), x)
  }

  lemma SlicesInRows(j: Job, lo: nat, hi: nat, x: int)
    requires j.Valid()
    ensures InSlices(j, lo, hi, x) ==> InRows(j.d, j.WideSubs(), lo, hi, x)
  {
    hide Side.Offset, Times, Job.Valid, Job.Shift, Job.WideSub;
    if InSlices(j, lo, hi, x) {
      var t: nat, sub: nat, v: bool, b: nat :| lo <= t < hi && sub < j.k && SliceByte(j, t, sub, v, b, x);
      WideCoordinates(j, sub, b);
      var o := j.d.Offset(j.WideSubs(), t, j.WideSub(sub), v);
      assert o <= x < o + j.d.row;
    }
  }

  /** Two ranks of a group never write the same byte. */
  lemma OneRankPerByte(j: Job, j': Job, lo: nat, hi: nat, x: int)
    requires SameGroup(j, j') && j.groupOff != j'.groupOff && j.d.Holds(hi) && Distinct(j.d.blocks)
    requires InSlices(j, lo, hi, x)
    ensures !InSlices(j', lo, hi, x)
  {
    hide Side.Offset, Times, SliceByte, Job.Valid;
    if InSlices(j', lo, hi, x) {
      var t: nat, sub: nat, v: bool, b: nat :| lo <= t < hi && sub < j.k && SliceByte(j, t, sub, v, b, x);
      var t': nat, sub': nat, v': bool, b': nat :| lo <= t' < hi && sub' < j'.k && SliceByte(j', t', sub', v', b', x);
      SlicesDisjoint(j, hi, t, sub, v, b, j', t', sub', v', b', x);
    }
  }

  lemma {:induction false} GroupPrefix(ranks: seq<Job>, d: Side, wideSubs: nat, lo: nat, hi: nat, x: int, m: nat,
                                       off: nat)
    requires Group(ranks, d, wideSubs, hi) && Distinct(d.blocks) && m <= |ranks| && lo <= hi
    requires off < |ranks| && InSlices(ranks[off], lo, hi, x)
    ensures GroupWrites(ranks, m, lo, hi, x) == if off < m then 1 else 0
  {
    if m > 0 {
      hide InSlices, RangePackets, WritesToCount, Job.Valid, Job.WideSubs;
      GroupPrefix(ranks, d, wideSubs, lo, hi, x, m - 1, off);
      assert InGroup(ranks, d, wideSubs, m - 1) && InGroup(ranks, d, wideSubs, off);
      RankWrites(ranks[m - 1], lo, hi, x);
      if m - 1 != off {
        OneRankPerByte(ranks[off], ranks[m - 1], lo, hi, x);
      }
    }
  }

  lemma {:induction false} GroupNone(ranks: seq<Job>, d: Side, wideSubs: nat, lo: nat, hi: nat, x: int, m: nat)
    requires Group(ranks, d, wideSubs, hi) && Distinct(d.blocks) && m <= |ranks| && lo <= hi
    requires !InRows(d, wideSubs, lo, hi, x)
    ensures GroupWrites(ranks, m, lo, hi, x) == 0
  {
    if m > 0 {
      hide InSlices, InRows, RangePackets, WritesToCount, Job.Valid, Job.WideSubs;
      GroupNone(ranks, d, wideSubs, lo, hi, x, m - 1);
      assert InGroup(ranks, d, wideSubs, m - 1);
      RankWrites(ranks[m - 1], lo, hi, x);
      SlicesInRows(ranks[m - 1], lo, hi, x);
    }
  }

  /** A wide row byte belongs to one rank of the group. */
  lemma RowHasRank(ranks: seq<Job>, d: Side, wideSubs: nat, hi: nat, wsub: nat, e: nat) returns (off: nat, sub: nat,
                   b: nat)
    requires Group(ranks, d, wideSubs, hi) && wsub < wideSubs && e < d.row
    ensures off < |ranks| && sub < ranks[off].k && b < ranks[off].p.row
    ensures ranks[off].WideSub(sub) == wsub && ranks[off].Shift() + b == e
  {
    var j := ranks[0];
    assert InGroup(ranks, d, wideSubs, 0);
    if d.layout == HeadMajor {
      off, sub := Quotient(wsub, j.n, j.k);
      b := e;
    } else {
      off, b := Quotient(e, j.n, j.p.row);
      sub := wsub;
    }
    assert InGroup(ranks, d, wideSubs, off);
  }

  lemma Quotient(e: nat, n: nat, m: nat) returns (q: nat, r: nat)
    requires e < Times(n, m) && m > 0
    ensures q < n && r < m && e == Times(q, m) + r
  {
    q, r := e / m, e % m;
    if n <= q { MulMono(n, q, m); }
  }

  /** Over the whole group, every byte of the wide rows of tokens [lo, hi) is written exactly
      once and nothing else is written. */
  lemma GroupTilesRows(ranks: seq<Job>, d: Side, wideSubs: nat, lo: nat, hi: nat, x: int)
    requires Group(ranks, d, wideSubs, hi) && Distinct(d.blocks) && lo <= hi
    ensures GroupWrites(ranks, |ranks|, lo, hi, x) == if InRows(d, wideSubs, lo, hi, x) then 1 else 0
  {
    hide Side.Offset, Times, Job.Valid, Job.Shift, Job.WideSub, Job.WideSubs, GroupWrites;
    if InRows(d, wideSubs, lo, hi, x) {
      var t: nat, wsub: nat, v: bool :|
        lo <= t < hi && wsub < wideSubs && d.Offset(wideSubs, t, wsub, v) <= x < d.Offset(wideSubs, t, wsub, v) + d.row;
      var off, sub, b := RowHasRank(ranks, d, wideSubs, hi, wsub, x - d.Offset(wideSubs, t, wsub, v));
      assert InGroup(ranks, d, wideSubs, off);
      assert SliceByte(ranks[off], t, sub, v, b, x);
      GroupPrefix(ranks, d, wideSubs, lo, hi, x, |ranks|, off);
    } else {
      GroupNone(ranks, d, wideSubs, lo, hi, x, |ranks|);
    }
  }

  // ---------------------------------------------------------------------------
  // P < D: the mirror image
  // ---------------------------------------------------------------------------

  lemma MirroredTargets(j: Job, lo: nat, hi: nat, x: int)
    requires j.swap && lo <= hi
    ensures Writes(j.Reference(lo, hi), x) == Writes(RangePackets(Rows(j.p, j.k), lo, hi, j.k), x)
  {
    hide Side.Offset, Job.WideOffset, RangePackets, WritesToCount;
    assert SameTargets(j.Packets(), Rows(j.p, j.k), lo, hi, j.k, x);
    RangeSameTargets(j.Packets(), Rows(j.p, j.k), lo, hi, j.k, x);
  }

  /** Each row byte of a narrow destination is written once, from the matching byte of its
      slice of the wide source. */
  lemma MirrorWrittenOnce(j: Job, lo: nat, hi: nat, t: nat, sub: nat, v: bool, b: nat)
    requires j.Valid() && j.swap && j.p.Holds(hi) && Distinct(j.p.blocks)
    requires lo <= t < hi && sub < j.k && b < j.p.row
    ensures var x := j.p.Offset(j.k, t, sub, v) + b;
            Writes(j.Reference(lo, hi), x) == 1 && Count(j.Reference(lo, hi), j.WideOffset(t, sub, v) + b, x) == 1
  {
    hide RangePackets, WritesToCount, CountTo, Side.Offset, Job.WideOffset, Times;
    var x := j.p.Offset(j.k, t, sub, v) + b;
    var s := j.WideOffset(t, sub, v) + b;
    assert InRows(j.p, j.k, lo, hi, x);
    RowsWrites(j.p, j.k, lo, hi, x);
    MirroredTargets(j, lo, hi, x);
    assert Moves(j.Packets()(t, sub, v), s, x);
    RangeHits(j.Packets(), lo, hi, j.k, t, sub, v, s, x);
    CountLeWrites(j.Reference(lo, hi), s, x);
  }

  // ---------------------------------------------------------------------------
  // The range check never fails
  // ---------------------------------------------------------------------------

  /** Both tensors are whole pages, block ids are pages, and no format conversion takes place. */
  ghost predicate TablesInTensors(j: Job, bounds: Bounds, narrowPages: nat, widePages: nat) {
    && bounds.srcScale == 1 && BlocksBelow(j.p, narrowPages) && BlocksBelow(j.d, widePages)
    && Times(narrowPages, j.p.blockSize) <= (if j.swap then bounds.dstCapacity else bounds.srcCapacity)
    && Times(widePages, j.d.blockSize) <= (if j.swap then bounds.srcCapacity else bounds.dstCapacity)
  }

  lemma PacketInRange(j: Job, hi: nat, t: nat, sub: nat, v: bool, bounds: Bounds, narrowPages: nat, widePages: nat)
    requires j.Valid() && j.p.Holds(hi) && j.d.Holds(hi) && t < hi && sub < j.k
    requires TablesInTensors(j, bounds, narrowPages, widePages)
    ensures InRange(bounds, j.Packet(t, sub, v))
  {
    hide Side.Offset, Times, Side.Valid, Job.WideSub, Job.WideSubs, Job.Shift;
    Positive(j.p, j.k);
    WideCoordinates(j, sub, j.p.row - 1);
    RowEnd(j.p, j.k, hi, t, sub, v, narrowPages);
    RowEnd(j.d, j.WideSubs(), hi, t, j.WideSub(sub), v, widePages);
  }

  lemma JobInRange(j: Job, lo: nat, hi: nat, bounds: Bounds, narrowPages: nat, widePages: nat)
    requires j.Valid() && j.p.Holds(hi) && j.d.Holds(hi)
    requires TablesInTensors(j, bounds, narrowPages, widePages)
    ensures AllPacketsInRange(bounds, j.Packets(), lo, hi, j.k)
  {
    hide InRange, Job.Packet, Job.Valid;
    forall t: nat, sub: nat, v: bool | lo <= t < hi && sub < j.k
      ensures InRange(bounds, j.Packets()(t, sub, v))
    {
      PacketInRange(j, hi, t, sub, v, bounds, narrowPages, widePages);
    }
  }
}
