/** The emitters of recurrent-state pages and the GDN drivers around them. */
module StateParser {
  import opened Arith
  import opened Copies
  import opened RangeCheck
  import opened StateReshard

  /** Component lengths of a page: every conv row has the components `steps`, then the
      recurrent state. */
  function Lens(rows: nat, steps: seq<nat>, ssm: nat): seq<nat> {
    Repeat(rows, steps) + [ssm]
  }

  function Repeat(rows: nat, steps: seq<nat>): (r: seq<nat>)
    ensures |r| == rows * |steps|
  {
    if rows == 0 then [] else Repeat(rows - 1, steps) + steps
  }

  /** Position of component c of row r in the segment list. */
  function Index(r: nat, m: nat, c: nat): nat {
    r * m + c
  }

  lemma {:induction false} RepeatAt(rows: nat, steps: seq<nat>, r: nat, c: nat)
    requires r < rows && c < |steps|
    ensures Index(r, |steps|, c) < |Repeat(rows, steps)| && Repeat(rows, steps)[Index(r, |steps|, c)] == steps[c]
  {
    MulStrict(r, rows, |steps|);
    if r < rows - 1 {
      RepeatAt(rows - 1, steps, r, c);
    }
  }

  lemma IndexBelow(rows: nat, steps: seq<nat>, ssm: nat, r: nat, c: nat)
    requires r < rows && c <= |steps|
    ensures Index(r, |steps|, c) < |Lens(rows, steps, ssm)|
    ensures c < |steps| ==> Lens(rows, steps, ssm)[Index(r, |steps|, c)] == steps[c]
  {
    MulMono(r + 1, rows, |steps|);
    Distribute(r, 1, |steps|);
    if c < |steps| { RepeatAt(rows, steps, r, c); }
  }

  /** Where a component starts in the page. */
  lemma {:induction false} StartInRow(rows: nat, steps: seq<nat>, ssm: nat, r: nat, c: nat)
    requires r < rows && c <= |steps|
    ensures Index(r, |steps|, c) <= |Lens(rows, steps, ssm)|
    ensures Start(Lens(rows, steps, ssm), Index(r, |steps|, c)) == r * Size(steps) + Start(steps, c)
    decreases r, c
  {
    hide Lens, Start;
    IndexBelow(rows, steps, ssm, r, c);
    if c > 0 {
      StartInRow(rows, steps, ssm, r, c - 1);
      IndexBelow(rows, steps, ssm, r, c - 1);
      StartNext(Lens(rows, steps, ssm), Index(r, |steps|, c - 1));
      StartNext(steps, c - 1);
    } else if r > 0 {
      StartInRow(rows, steps, ssm, r - 1, |steps|);
      RowEnd(r - 1, |steps|, Size(steps));
      StartZero(steps);
    } else {
      StartZero(Lens(rows, steps, ssm));
      StartZero(steps);
    }
  }

  lemma RowEnd(r: nat, m: nat, size: nat)
    ensures Index(r, m, m) == Index(r + 1, m, 0) && r * size + size == (r + 1) * size
  {
  }

  lemma StartZero(lens: seq<nat>)
    ensures Start(lens, 0) == 0
  {
  }

  lemma StartNext(lens: seq<nat>, i: nat)
    requires i < |lens|
    ensures Start(lens, i + 1) == Start(lens, i) + lens[i]
  {
  }

  /** After all rows comes the recurrent state. */
  lemma StartOfSsm(rows: nat, steps: seq<nat>, ssm: nat)
    ensures |Lens(rows, steps, ssm)| == Index(rows, |steps|, 0) + 1
    ensures Start(Lens(rows, steps, ssm), Index(rows, |steps|, 0)) == rows * Size(steps)
    ensures Lens(rows, steps, ssm)[Index(rows, |steps|, 0)] == ssm
  {
    hide Start;
    if rows == 0 {
      StartZero(Lens(rows, steps, ssm));
    } else {
      StartInRow(rows, steps, ssm, rows - 1, |steps|);
      RowEnd(rows - 1, |steps|, Size(steps));
    }
  }

  // ---------------------------------------------------------------------------
  // P > D: one page
  // ---------------------------------------------------------------------------

  lemma GatherPacket(rows: nat, steps: seq<nat>, ssm: nat, n: nat, off: nat, p: nat, d: nat, r: nat, c: nat, inner: nat)
    requires r < rows && c < |steps| && inner == Start(steps, c)
    ensures Index(r, |steps|, c) < |Lens(rows, steps, ssm)|
    ensures Segment(Lens(rows, steps, ssm), n, off, p, d, Index(r, |steps|, c))
         == IpcBlock(p + Times(r, Size(steps)) + inner,
                     d + Times(r, Times(n, Size(steps))) + Times(n, inner) + Times(off, steps[c]), steps[c])
  {
    hide Start, Lens, Size;
    StartInRow(rows, steps, ssm, r, c);
    IndexBelow(rows, steps, ssm, r, c);
    WideRow(n, r, Size(steps), inner);
  }

  lemma WideRow(n: nat, r: nat, size: nat, inner: nat)
    ensures Times(n, Times(r, size) + inner) == Times(r, Times(n, size)) + Times(n, inner)
  {
    assert n * (r * size) == r * (n * size);
  }

  lemma SsmPacket(rows: nat, steps: seq<nat>, ssm: nat, n: nat, off: nat, p: nat, d: nat)
    ensures |Lens(rows, steps, ssm)| == Index(rows, |steps|, 0) + 1
    ensures Segment(Lens(rows, steps, ssm), n, off, p, d, Index(rows, |steps|, 0))
         == IpcBlock(p + Times(rows, Size(steps)), d + Times(n, Times(rows, Size(steps))) + Times(off, ssm), ssm)
  {
    hide Start, Lens, Size;
    StartOfSsm(rows, steps, ssm);
  }

  lemma IndexZero(m: nat)
    ensures Index(0, m, 0) == 0
  {
  }

  lemma NextIndex(r: nat, m: nat, c: nat)
    ensures Index(r, m, c + 1) == Index(r, m, c) + 1
  {
  }

  /** The first m records were appended to `before` and passed the range check. */
  ghost predicate Emitted(out: seq<IpcBlock>, before: seq<IpcBlock>, ref: seq<IpcBlock>, m: nat, bounds: Bounds) {
    m <= |ref| && out == before + ref[..m] && AllInRange(bounds, ref[..m])
  }

  lemma EmittedNext(out: seq<IpcBlock>, before: seq<IpcBlock>, ref: seq<IpcBlock>, m: nat, bounds: Bounds)
    requires Emitted(out, before, ref, m, bounds) && m < |ref| && InRange(bounds, ref[m])
    ensures Emitted(out + [ref[m]], before, ref, m + 1, bounds)
  {
    hide InRange;
    assert ref[..m + 1] == ref[..m] + [ref[m]];
  }

  lemma EmittedAll(out: seq<IpcBlock>, before: seq<IpcBlock>, ref: seq<IpcBlock>, bounds: Bounds)
    requires Emitted(out, before, ref, |ref|, bounds)
    ensures out == before + ref && AllInRange(bounds, ref)
  {
    assert ref[..|ref|] == ref;
  }

  lemma EmittedNone(before: seq<IpcBlock>, ref: seq<IpcBlock>, bounds: Bounds)
    ensures Emitted(before, before, ref, 0, bounds)
  {
  }

  lemma NotAll(ref: seq<IpcBlock>, m: nat, bounds: Bounds)
    requires m < |ref| && !InRange(bounds, ref[m])
    ensures !AllInRange(bounds, ref)
  {
    hide InRange;
  }

  lemma GatherRef(lens: seq<nat>, n: nat, off: nat, p: nat, d: nat)
    ensures |Gather(lens, n, off, p, d)| == |lens|
    ensures forall i :: 0 <= i < |lens| ==> Gather(lens, n, off, p, d)[i] == Segment(lens, n, off, p, d, i)
  {
  }

  // ---------------------------------------------------------------------------
  // Where the bytes of a page go
  // ---------------------------------------------------------------------------

  /** Byte e of component c of conv row r of rank `off`: in the wide row the components lie in the same
      order, each with the parts of all n ranks in rank order. */
  ghost predicate ComponentPlaced(bs: seq<IpcBlock>, steps: seq<nat>, n: nat, off: nat, narrow: nat, wide: nat, swap: bool,
                                  r: nat, c: nat, e: nat)
    requires c < |steps|
  {
    Copied(bs, narrow + Nest(r, Size(steps), Start(steps, c)) + e,
           wide + Nest(r, n * Size(steps), n * Start(steps, c)) + Nest(off, steps[c], e), swap)
  }

  /** Byte e of the recurrent state, which follows the rows. */
  ghost predicate SsmPlaced(bs: seq<IpcBlock>, rows: nat, steps: seq<nat>, ssm: nat, n: nat, off: nat, narrow: nat, wide: nat,
                            swap: bool, e: nat) {
    Copied(bs, narrow + rows * Size(steps) + e, wide + n * (rows * Size(steps)) + Nest(off, ssm, e), swap)
  }

  /** Every byte of a page with `rows` conv rows of the given components and the recurrent state. */
  ghost predicate StatePlaced(bs: seq<IpcBlock>, rows: nat, steps: seq<nat>, ssm: nat, n: nat, off: nat, narrow: nat, wide: nat,
                              swap: bool) {
    && (forall r: nat, c: nat, e: nat :: r < rows && c < |steps| && e < steps[c] ==>
          ComponentPlaced(bs, steps, n, off, narrow, wide, swap, r, c, e))
    && (forall e: nat :: e < ssm ==> SsmPlaced(bs, rows, steps, ssm, n, off, narrow, wide, swap, e))
  }

  lemma StatePlaces(rows: nat, steps: seq<nat>, ssm: nat, n: nat, off: nat, narrow: nat, wide: nat, swap: bool, bs: seq<IpcBlock>)
    requires off < n
    requires var lens := Lens(rows, steps, ssm);
             bs == if swap then Scatter(lens, n, off, wide, narrow) else Gather(lens, n, off, narrow, wide)
    ensures StatePlaced(bs, rows, steps, ssm, n, off, narrow, wide, swap)
  {
    hide Copied, Gather, Scatter, Start, Lens, Size, Index;
    var lens := Lens(rows, steps, ssm);
    forall r: nat, c: nat, e: nat | r < rows && c < |steps| && e < steps[c]
      ensures ComponentPlaced(bs, steps, n, off, narrow, wide, swap, r, c, e)
    {
      var m := Index(r, |steps|, c);
      IndexBelow(rows, steps, ssm, r, c);
      StartInRow(rows, steps, ssm, r, c);
      SegmentCopied(lens, n, off, narrow, wide, swap, m, e);
      WideRow(n, r, Size(steps), Start(steps, c));
    }
    forall e: nat | e < ssm ensures SsmPlaced(bs, rows, steps, ssm, n, off, narrow, wide, swap, e) {
      StartOfSsm(rows, steps, ssm);
      SegmentCopied(lens, n, off, narrow, wide, swap, Index(rows, |steps|, 0), e);
    }
  }

  lemma Tail(before: seq<IpcBlock>, bs: seq<IpcBlock>)
    ensures (before + bs)[|before|..] == bs
  {
  }

  /** Emits one page of rank `off`: for every conv row its components, spread n-fold on the
      wide side, then the recurrent state. */
  method EmitStatePGtD(p: nat, d: nat, groupN: nat, groupOff: nat, rows: nat, steps: seq<nat>, ssm: nat,
                       bounds: Bounds, before: seq<IpcBlock>)
    returns (ok: bool, out: seq<IpcBlock>)
    requires bounds.Valid()
    ensures ok ==> out == before + Gather(Lens(rows, steps, ssm), groupN, groupOff, p, d)
    ensures ok <==> AllInRange(bounds, Gather(Lens(rows, steps, ssm), groupN, groupOff, p, d))
    ensures ok && groupOff < groupN ==> StatePlaced(out[|before|..], rows, steps, ssm, groupN, groupOff, p, d, false)
  {
    hide *;
    ghost var lens := Lens(rows, steps, ssm);
    ghost var ref := Gather(lens, groupN, groupOff, p, d);
    Tail(before, ref);
    if groupOff < groupN {
      StatePlaces(rows, steps, ssm, groupN, groupOff, p, d, false, ref);
    }
    GatherRef(lens, groupN, groupOff, p, d);
    EmittedNone(before, ref, bounds);
    IndexZero(|steps|);
    out := before;
    var pRow := Size(steps);
    var dRow := Times(groupN, pRow);
    var r := 0;
    while r < rows
      invariant r <= rows && Emitted(out, before, ref, Index(r, |steps|, 0), bounds)
    {
      var inner := 0;
      var c := 0;
      StartZero(steps);
      while c < |steps|
        invariant c <= |steps| && inner == Start(steps, c)
        invariant Emitted(out, before, ref, Index(r, |steps|, c), bounds)
      {
        GatherPacket(rows, steps, ssm, groupN, groupOff, p, d, r, c, inner);
        ghost var i := Index(r, |steps|, c);
        ghost var prev := out;
        ok, out := AppendIpcBlockChecked(out, bounds, p + Times(r, pRow) + inner,
                     d + Times(r, dRow) + Times(groupN, inner) + Times(groupOff, steps[c]), steps[c]);
        if !ok {
          NotAll(ref, i, bounds);
          return;
        }
        EmittedNext(prev, before, ref, i, bounds);
        inner := inner + steps[c];
        StartNext(steps, c);
        NextIndex(r, |steps|, c);
        c := c + 1;
      }
      RowEnd(r, |steps|, Size(steps));
      r := r + 1;
    }
    SsmPacket(rows, steps, ssm, groupN, groupOff, p, d);
    ghost var prev := out;
    var convSize := Times(rows, pRow);
    ok, out := AppendIpcBlockChecked(out, bounds, p + convSize, d + Times(groupN, convSize) + Times(groupOff, ssm), ssm);
    if ok {
      EmittedNext(prev, before, ref, Index(rows, |steps|, 0), bounds);
      EmittedAll(out, before, ref, bounds);
    } else {
      NotAll(ref, Index(rows, |steps|, 0), bounds);
    }
  }

  // ---------------------------------------------------------------------------
  // P < D: one page
  // ---------------------------------------------------------------------------

  /** Narrow components of a wide page, n to one. */
  function Narrow(wide: seq<nat>, n: nat): (r: seq<nat>)
    requires n > 0
    ensures |r| == |wide| && forall i :: 0 <= i < |wide| ==> r[i] == wide[i] / n
  {
    seq(|wide|, i requires 0 <= i < |wide| => wide[i] / n)
  }

  ghost predicate Divisible(wide: seq<nat>, n: nat) {
    n > 0 && forall i :: 0 <= i < |wide| ==> wide[i] % n == 0
  }

  lemma {:induction false} NarrowStart(wide: seq<nat>, n: nat, c: nat)
    requires Divisible(wide, n) && c <= |wide|
    ensures Start(wide, c) == Times(n, Start(Narrow(wide, n), c))
  {
    hide Start, Times;
    if c == 0 {
      StartZero(wide);
      StartZero(Narrow(wide, n));
      TimesSum(n, 0, 0, 0);
    } else {
      NarrowStart(wide, n, c - 1);
      StartNext(wide, c - 1);
      StartNext(Narrow(wide, n), c - 1);
      TimesSum(n, Start(Narrow(wide, n), c - 1), wide[c - 1], wide[c - 1] / n);
    }
  }

  lemma TimesSum(n: nat, a: nat, w: nat, q: nat)
    requires n > 0 && w % n == 0 && q == w / n
    ensures Times(n, a) + w == Times(n, a + q) && Times(n, 0) == 0
  {
    ExactDiv(w, n);
    Distribute(a, q, n);
  }

  lemma ScatterPacket(rows: nat, wide: seq<nat>, ssm: nat, n: nat, off: nat, p: nat, d: nat, r: nat, c: nat)
    requires Divisible(wide, n) && r < rows && c < |wide|
    ensures var lens := Lens(rows, Narrow(wide, n), ssm);
            && Index(r, |wide|, c) < |lens|
            && Scatter(lens, n, off, p, d)[Index(r, |wide|, c)]
               == IpcBlock(p + Times(r, Size(wide)) + Start(wide, c) + Times(off, wide[c] / n),
                           d + Times(r, Size(Narrow(wide, n))) + Start(Narrow(wide, n), c), wide[c] / n)
  {
    hide Start, Lens, Mirror, Gather;
    var steps := Narrow(wide, n);
    var lens := Lens(rows, steps, ssm);
    GatherPacket(rows, steps, ssm, n, off, d, p, r, c, Start(steps, c));
    GatherRef(lens, n, off, d, p);
    NarrowStart(wide, n, c);
    NarrowStart(wide, n, |wide|);
  }

  lemma ScatterSsm(rows: nat, wide: seq<nat>, ssm: nat, n: nat, off: nat, p: nat, d: nat)
    requires Divisible(wide, n)
    ensures var lens := Lens(rows, Narrow(wide, n), ssm);
            && |lens| == Index(rows, |wide|, 0) + 1
            && Scatter(lens, n, off, p, d)[Index(rows, |wide|, 0)]
               == IpcBlock(p + Times(rows, Size(wide)) + Times(off, ssm), d + Times(rows, Size(Narrow(wide, n))), ssm)
  {
    hide Start, Lens, Mirror, Gather;
    var steps := Narrow(wide, n);
    SsmPacket(rows, steps, ssm, n, off, d, p);
    GatherRef(Lens(rows, steps, ssm), n, off, d, p);
    NarrowStart(wide, n, |wide|);
    assert Size(wide) == Times(n, Size(steps));
    WideRow(n, rows, Size(steps), 0);
  }

  /** Emits one page for the D rank at position groupOff: its slice of every component of
      every conv row, then its slice of the recurrent state. */
  method EmitStatePLtD(p: nat, d: nat, groupN: nat, groupOff: nat, rows: nat, wideSteps: seq<nat>, wideSsm: nat,
                       bounds: Bounds, before: seq<IpcBlock>)
    returns (ok: bool, out: seq<IpcBlock>)
    requires bounds.Valid() && Divisible(wideSteps, groupN) && wideSsm % groupN == 0
    ensures ok ==> out == before + Scatter(Lens(rows, Narrow(wideSteps, groupN), wideSsm / groupN), groupN, groupOff, p, d)
    ensures ok <==> AllInRange(bounds, Scatter(Lens(rows, Narrow(wideSteps, groupN), wideSsm / groupN), groupN, groupOff, p, d))
    ensures ok && groupOff < groupN ==>
              StatePlaced(out[|before|..], rows, Narrow(wideSteps, groupN), wideSsm / groupN, groupN, groupOff, d, p, true)
  {
    hide *;
    PositiveGroup(wideSteps, groupN);
    ghost var steps := Narrow(wideSteps, groupN);
    var dSsm := wideSsm / groupN;
    ghost var lens := Lens(rows, steps, dSsm);
    ghost var ref := Scatter(lens, groupN, groupOff, p, d);
    Tail(before, ref);
    if groupOff < groupN {
      StatePlaces(rows, steps, dSsm, groupN, groupOff, d, p, true, ref);
    }
    assert |ref| == |lens| by { ScatterLength(lens, groupN, groupOff, p, d); }
    EmittedNone(before, ref, bounds);
    IndexZero(|wideSteps|);
    out := before;
    var pRow := Size(wideSteps);
    var dRow := pRow / groupN;
    assert dRow == Size(steps) by { NarrowSize(wideSteps, groupN); }
    var r := 0;
    while r < rows
      invariant r <= rows && Emitted(out, before, ref, Index(r, |wideSteps|, 0), bounds)
    {
      var pInner, dInner := 0, 0;
      var c := 0;
      StartZero(wideSteps);
      StartZero(steps);
      while c < |wideSteps|
        invariant c <= |wideSteps| && pInner == Start(wideSteps, c) && dInner == Start(steps, c)
        invariant Emitted(out, before, ref, Index(r, |wideSteps|, c), bounds)
      {
        ScatterPacket(rows, wideSteps, dSsm, groupN, groupOff, p, d, r, c);
        ghost var i := Index(r, |wideSteps|, c);
        ghost var prev := out;
        var dStep := wideSteps[c] / groupN;
        ok, out := AppendIpcBlockChecked(out, bounds, p + Times(r, pRow) + pInner + Times(groupOff, dStep),
                                         d + Times(r, dRow) + dInner, dStep);
        if !ok {
          NotAll(ref, i, bounds);
          return;
        }
        EmittedNext(prev, before, ref, i, bounds);
        pInner := pInner + wideSteps[c];
        dInner := dInner + dStep;
        StartNext(wideSteps, c);
        StartNext(steps, c);
        NextIndex(r, |wideSteps|, c);
        c := c + 1;
      }
      RowEnd(r, |wideSteps|, Size(steps));
      r := r + 1;
    }
    ScatterSsm(rows, wideSteps, dSsm, groupN, groupOff, p, d);
    ghost var prev := out;
    ok, out := AppendIpcBlockChecked(out, bounds, p + Times(rows, pRow) + Times(groupOff, dSsm), d + Times(rows, dRow), dSsm);
    if ok {
      EmittedNext(prev, before, ref, Index(rows, |wideSteps|, 0), bounds);
      EmittedAll(out, before, ref, bounds);
    } else {
      NotAll(ref, Index(rows, |wideSteps|, 0), bounds);
    }
  }

  lemma ScatterLength(lens: seq<nat>, n: nat, off: nat, p: nat, d: nat)
    ensures |Scatter(lens, n, off, p, d)| == |lens|
  {
  }

  lemma NarrowSize(wide: seq<nat>, n: nat)
    requires Divisible(wide, n)
    ensures Size(wide) / n == Size(Narrow(wide, n))
  {
    hide *;
    PositiveGroup(wide, n);
    NarrowStart(wide, n, |wide|);
    SizeIs(wide);
    SizeIs(Narrow(wide, n));
    TimesDiv(n, Size(Narrow(wide, n)));
  }

  lemma PositiveGroup(wide: seq<nat>, n: nat)
    requires Divisible(wide, n)
    ensures n > 0
  {
  }

  lemma TimesDiv(n: nat, a: nat)
    requires n > 0
    ensures Times(n, a) / n == a
  {
    assert n * a == a * n;
    DivMod0(a, n);
  }
}
