/** Recurrent state (GDN and KDA pages), gathered from narrow ranks into a wide one and
    scattered back.

    A state page is conv rows followed by the recurrent (ssm) state. Every conv row is cut
    into channel components (q, k, v). Cut along components, the narrow state is a list of
    segments of lengths `lens`; the wide state holds, in place of each segment, the segments
    of all n ranks in rank order. */
module StateReshard {
  import opened Arith
  import opened Copies

  /** Start of segment i in the narrow state. */
  function Start(lens: seq<nat>, i: nat): nat
    requires i <= |lens|
  {
    if i == 0 then 0 else Start(lens, i - 1) + lens[i - 1]
  }

  function Size(lens: seq<nat>): nat {
    Start(lens, |lens|)
  }

  /** Segment i of rank `off`: narrow page at p, wide page at d. */
  function Segment(lens: seq<nat>, n: nat, off: nat, p: nat, d: nat, i: nat): IpcBlock
    requires i < |lens|
  {
    IpcBlock(p + Start(lens, i), d + Times(n, Start(lens, i)) + Times(off, lens[i]), lens[i])
  }

  /** Narrow to wide, segments below m. */
  function GatherTo(lens: seq<nat>, n: nat, off: nat, p: nat, d: nat, m: nat): (r: seq<IpcBlock>)
    requires m <= |lens|
    ensures |r| == m && forall i :: 0 <= i < m ==> r[i] == Segment(lens, n, off, p, d, i)
  {
    if m == 0 then [] else GatherTo(lens, n, off, p, d, m - 1) + [Segment(lens, n, off, p, d, m - 1)]
  }

  function Gather(lens: seq<nat>, n: nat, off: nat, p: nat, d: nat): seq<IpcBlock> {
    GatherTo(lens, n, off, p, d, |lens|)
  }

  /** Wide page at p to narrow page at d. */
  function Scatter(lens: seq<nat>, n: nat, off: nat, p: nat, d: nat): seq<IpcBlock> {
    Mirror(Gather(lens, n, off, d, p))
  }

  // ---------------------------------------------------------------------------
  // All ranks of a group tile the wide state
  // ---------------------------------------------------------------------------

  function RankSum(lens: seq<nat>, n: nat, k: nat, d: nat, m: nat, x: int): nat
    requires m <= |lens|
  {
    if k == 0 then 0 else RankSum(lens, n, k - 1, d, m, x) + Writes(GatherTo(lens, n, k - 1, 0, d, m), x)
  }

  function Pieces(base: int, len: nat, k: nat, x: int): nat {
    if k == 0 then 0
    else Pieces(base, len, k - 1, x) + if base + (k - 1) * len <= x < base + (k - 1) * len + len then 1 else 0
  }

  lemma {:induction false} PiecesTile(base: int, len: nat, k: nat, x: int)
    ensures Pieces(base, len, k, x) == if base <= x < base + k * len then 1 else 0
  {
    if k > 0 {
      PiecesTile(base, len, k - 1, x);
      assert k * len == (k - 1) * len + len;
    }
  }

  lemma {:induction false} RankSumStep(lens: seq<nat>, n: nat, k: nat, d: nat, m: nat, x: int)
    requires m < |lens|
    ensures RankSum(lens, n, k, d, m + 1, x)
         == RankSum(lens, n, k, d, m, x) + Pieces(d + n * Start(lens, m), lens[m], k, x)
  {
    hide Start, WritesToCount;
    if k > 0 {
      RankSumStep(lens, n, k - 1, d, m, x);
      Push(GatherTo(lens, n, k - 1, 0, d, m), Segment(lens, n, k - 1, 0, d, m), 0, x);
    }
  }

  lemma {:induction false} RankSumNothing(lens: seq<nat>, n: nat, k: nat, d: nat, x: int)
    ensures RankSum(lens, n, k, d, 0, x) == 0
  {
    if k > 0 {
      RankSumNothing(lens, n, k - 1, d, x);
      EmptyWrites();
    }
  }

  lemma {:induction false} RankSumTiles(lens: seq<nat>, n: nat, d: nat, m: nat, x: int)
    requires m <= |lens|
    ensures RankSum(lens, n, n, d, m, x) == if d <= x < d + n * Start(lens, m) then 1 else 0
  {
    if m == 0 {
      RankSumNothing(lens, n, n, d, x);
    } else {
      hide *;
      RankSumTiles(lens, n, d, m - 1, x);
      RankSumStep(lens, n, n, d, m - 1, x);
      PiecesTile(d + n * Start(lens, m - 1), lens[m - 1], n, x);
      NextWide(lens, n, m);
    }
  }

  lemma NextWide(lens: seq<nat>, n: nat, m: nat)
    requires 0 < m <= |lens|
    ensures n * Start(lens, m) == n * Start(lens, m - 1) + n * lens[m - 1]
    ensures n * Start(lens, m - 1) >= 0 && n * lens[m - 1] >= 0
  {
    assert Start(lens, m) == Start(lens, m - 1) + lens[m - 1];
  }

  /** The destination of a gather does not depend on where the narrow page lies. */
  lemma {:induction false} GatherTarget(lens: seq<nat>, n: nat, off: nat, p: nat, p': nat, d: nat, m: nat, x: int)
    requires m <= |lens|
    ensures Writes(GatherTo(lens, n, off, p, d, m), x) == Writes(GatherTo(lens, n, off, p', d, m), x)
  {
    if m > 0 {
      hide WritesToCount, Start;
      GatherTarget(lens, n, off, p, p', d, m - 1, x);
      Push(GatherTo(lens, n, off, p, d, m - 1), Segment(lens, n, off, p, d, m - 1), 0, x);
      Push(GatherTo(lens, n, off, p', d, m - 1), Segment(lens, n, off, p', d, m - 1), 0, x);
    }
  }

  /** Writes to byte x by the first k ranks; rank i's narrow page is at pages[i]. */
  function GroupWrites(lens: seq<nat>, n: nat, pages: seq<nat>, k: nat, d: nat, x: int): nat
    requires k <= |pages|
  {
    if k == 0 then 0 else GroupWrites(lens, n, pages, k - 1, d, x) + Writes(Gather(lens, n, k - 1, pages[k - 1], d), x)
  }

  lemma {:induction false} GroupIsRankSum(lens: seq<nat>, n: nat, pages: seq<nat>, k: nat, d: nat, x: int)
    requires k <= |pages|
    ensures GroupWrites(lens, n, pages, k, d, x) == RankSum(lens, n, k, d, |lens|, x)
  {
    if k > 0 {
      hide GatherTo, WritesToCount;
      GroupIsRankSum(lens, n, pages, k - 1, d, x);
      GatherTarget(lens, n, k - 1, pages[k - 1], 0, d, |lens|, x);
    }
  }

  /** The n gathers write every byte of the wide conv and ssm state exactly once, and nothing
      else. */
  lemma GatherTilesState(lens: seq<nat>, pages: seq<nat>, d: nat, x: int)
    ensures GroupWrites(lens, |pages|, pages, |pages|, d, x)
         == if d <= x < d + |pages| * Size(lens) then 1 else 0
  {
    hide *;
    GroupIsRankSum(lens, |pages|, pages, |pages|, d, x);
    RankSumTiles(lens, |pages|, d, |lens|, x);
    SizeIs(lens);
  }

  lemma SizeIs(lens: seq<nat>)
    ensures Size(lens) == Start(lens, |lens|)
  {
  }

  // ---------------------------------------------------------------------------
  // Scatter, then gather, is the identity
  // ---------------------------------------------------------------------------

  lemma {:induction false} StartMono(lens: seq<nat>, i: nat, j: nat)
    requires i < j <= |lens|
    ensures Start(lens, i) + lens[i] <= Start(lens, j)
  {
    if i < j - 1 { StartMono(lens, i, j - 1); }
  }

  /** Position y of the wide state: segment i, rank off, byte e. */
  lemma {:induction false} Locate(lens: seq<nat>, n: nat, m: nat, y: nat) returns (i: nat, off: nat, e: nat)
    requires m <= |lens| && y < n * Start(lens, m)
    ensures i < m && off < n && e < lens[i] && y == n * Start(lens, i) + off * lens[i] + e
  {
    if m == 0 {
      assert false;
    } else if y < n * Start(lens, m - 1) {
      i, off, e := Locate(lens, n, m - 1, y);
    } else {
      i := m - 1;
      var r, len := y - n * Start(lens, i), lens[i];
      NextWide(lens, n, m);
      PositiveLength(n, len, r);
      off, e := r / len, r % len;
      if n <= off { MulMono(n, off, len); }
    }
  }

  lemma PositiveLength(n: nat, len: nat, r: nat)
    requires r < n * len
    ensures len > 0
  {
  }

  lemma PieceBefore(start: nat, len: nat, next: nat, n: nat, off: nat)
    requires start + len <= next && off < n
    ensures n * start + off * len + len <= n * next
  {
    MulMono(start + len, next, n);
    MulMono(off + 1, n, len);
    assert n * (start + len) == n * start + n * len;
    assert (off + 1) * len == off * len + len;
  }

  lemma SegmentSpan(lens: seq<nat>, n: nat, off: nat, d: nat, j: nat, x: int)
    requires j < |lens| && WritesTo(Segment(lens, n, off, 0, d, j), x)
    ensures n * Start(lens, j) + off * lens[j] <= x - d < n * Start(lens, j) + off * lens[j] + lens[j]
  {
    hide Start;
  }

  lemma SegmentsApart(lens: seq<nat>, n: nat, off: nat, d: nat, i: nat, e: nat, off': nat, j: nat, x: int)
    requires i < |lens| && j < |lens| && off < n && off' < n && e < lens[i]
    requires x == d + n * Start(lens, i) + off * lens[i] + e
    requires WritesTo(Segment(lens, n, off', 0, d, j), x)
    ensures i == j && off == off'
  {
    hide *;
    SegmentSpan(lens, n, off', d, j, x);
    if i < j {
      StartMono(lens, i, j);
      PieceBefore(Start(lens, i), lens[i], Start(lens, j), n, off);
    } else if j < i {
      StartMono(lens, j, i);
      PieceBefore(Start(lens, j), lens[j], Start(lens, i), n, off');
    } else {
      DigitUnique(off, off', lens[i], e, x - (d + n * Start(lens, i) + off' * lens[i]));
    }
  }

  /** In a gather, a wide byte comes from its own rank only, and from the matching narrow byte. */
  lemma GatherAt(lens: seq<nat>, n: nat, off: nat, p: nat, d: nat, i: nat, e: nat, off': nat)
    requires i < |lens| && off < n && off' < n && e < lens[i]
    ensures var x := d + n * Start(lens, i) + off * lens[i] + e;
            if off' == off
            then Writes(Gather(lens, n, off, p, d), x) == 1 && Count(Gather(lens, n, off, p, d), p + Start(lens, i) + e, x) == 1
            else Writes(Gather(lens, n, off', p, d), x) == 0
  {
    hide WritesToCount, CountTo, Start;
    var x := d + n * Start(lens, i) + off * lens[i] + e;
    var g := Gather(lens, n, off', p, d);
    forall j | 0 <= j < |g| && WritesTo(g[j], x)
      ensures j == i && off' == off
    {
      SegmentsApart(lens, n, off, d, i, e, off', j, x);
    }
    if off' == off {
      WritesUnique(g, x, i, p + Start(lens, i) + e);
    } else {
      WritesNone(g, x);
    }
  }

  /** In a scatter, a narrow byte is written once, from the matching wide byte. */
  lemma ScatterAt(lens: seq<nat>, n: nat, off: nat, p: nat, d: nat, i: nat, e: nat)
    requires i < |lens| && e < lens[i]
    ensures var x := d + Start(lens, i) + e;
            Writes(Scatter(lens, n, off, p, d), x) == 1
            && Count(Scatter(lens, n, off, p, d), p + n * Start(lens, i) + off * lens[i] + e, x) == 1
  {
    hide WritesToCount, CountTo, Start;
    var x := d + Start(lens, i) + e;
    var g := Scatter(lens, n, off, p, d);
    forall j | 0 <= j < |g| && j != i
      ensures !WritesTo(g[j], x)
    {
      if j < i { StartMono(lens, j, i); } else { StartMono(lens, i, j); }
    }
    WritesUnique(g, x, i, p + n * Start(lens, i) + off * lens[i] + e);
  }

  /** The byte is copied once between its two places, in the given direction. */
  ghost predicate Copied(bs: seq<IpcBlock>, narrow: nat, wide: nat, swap: bool) {
    if swap then Count(bs, wide, narrow) == 1 && Writes(bs, narrow) == 1
    else Count(bs, narrow, wide) == 1 && Writes(bs, wide) == 1
  }

  /** Segment m, byte b, of a page. */
  lemma SegmentCopied(lens: seq<nat>, n: nat, off: nat, narrow: nat, wide: nat, swap: bool, m: nat, b: nat)
    requires off < n && m < |lens| && b < lens[m]
    ensures Copied(if swap then Scatter(lens, n, off, wide, narrow) else Gather(lens, n, off, narrow, wide),
                   narrow + Start(lens, m) + b, wide + n * Start(lens, m) + off * lens[m] + b, swap)
  {
    hide Gather, Scatter, Start, WritesToCount, CountTo;
    if swap {
      ScatterAt(lens, n, off, wide, narrow, m, b);
    } else {
      GatherAt(lens, n, off, narrow, wide, m, b, off);
    }
  }

  /** Narrow memory of rank off after the scatter from the wide page at `wide`. */
  function Scattered(lens: seq<nat>, n: nat, off: nat, wide: nat, narrow: nat, from: Memory, to: Memory): Memory {
    Transfer(Scatter(lens, n, off, wide, narrow), from, to)
  }

  /** Wide memory after the gathers of the first k ranks, each from its scattered memory. */
  function Gathered(lens: seq<nat>, n: nat, k: nat, wide: nat, narrow: seq<nat>, back: nat,
                    from: Memory, ranks: seq<Memory>, to: Memory): Memory
    requires k <= |narrow| && k <= |ranks|
  {
    if k == 0 then to
    else Transfer(Gather(lens, n, k - 1, narrow[k - 1], back),
                  Scattered(lens, n, k - 1, wide, narrow[k - 1], from, ranks[k - 1]),
                  Gathered(lens, n, k - 1, wide, narrow, back, from, ranks, to))
  }

  lemma {:induction false} GatheredByte(lens: seq<nat>, n: nat, k: nat, wide: nat, narrow: seq<nat>, back: nat,
                                        from: Memory, ranks: seq<Memory>, to: Memory, i: nat, off: nat, e: nat)
    requires |narrow| == |ranks| == n && k <= n && i < |lens| && off < n && e < lens[i]
    ensures var y := n * Start(lens, i) + off * lens[i] + e;
            Gathered(lens, n, k, wide, narrow, back, from, ranks, to)(back + y)
            == if off < k then from(wide + y) else to(back + y)
  {
    hide Start, Gather, Scatter, Transfer, WritesToCount, CountTo;
    if k > 0 {
      var y := n * Start(lens, i) + off * lens[i] + e;
      var r := k - 1;
      var prev := Gathered(lens, n, r, wide, narrow, back, from, ranks, to);
      var mid := Scattered(lens, n, r, wide, narrow[r], from, ranks[r]);
      var g := Gather(lens, n, r, narrow[r], back);
      GatheredByte(lens, n, r, wide, narrow, back, from, ranks, to, i, off, e);
      GatherAt(lens, n, off, narrow[r], back, i, e, r);
      if r == off {
        ScatterAt(lens, n, off, wide, narrow[r], i, e);
        TransferOnce(Scatter(lens, n, r, wide, narrow[r]), from, ranks[r], wide + y, narrow[r] + Start(lens, i) + e);
        TransferOnce(g, mid, prev, narrow[r] + Start(lens, i) + e, back + y);
      } else {
        TransferUntouched(g, mid, prev, back + y);
      }
    }
  }

  /** Scattering a wide state to n ranks and gathering it back restores every byte of it,
      whatever the memories held before. */
  lemma ScatterGatherIdentity(lens: seq<nat>, n: nat, wide: nat, narrow: seq<nat>, back: nat,
                              from: Memory, ranks: seq<Memory>, to: Memory, y: nat)
    requires |narrow| == |ranks| == n && y < n * Size(lens)
    ensures Gathered(lens, n, n, wide, narrow, back, from, ranks, to)(back + y) == from(wide + y)
  {
    hide Start, Gathered;
    var i, off, e := Locate(lens, n, |lens|, y);
    GatheredByte(lens, n, n, wide, narrow, back, from, ranks, to, i, off, e);
  }
}
