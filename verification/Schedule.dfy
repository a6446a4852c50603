/** Reference schedules: for every token, every layer of a page, a K record and a V record.

    The records come from a function of the coordinates (token, layer, K or V), so the
    lemmas here hold for every layout. */
module Schedule {
  import opened Copies

  type PacketFn = (nat, nat, bool) -> IpcBlock

  /** Records of token t for the layers below k. */
  function TokenPackets(f: PacketFn, t: nat, k: nat): seq<IpcBlock> {
    if k == 0 then [] else TokenPackets(f, t, k - 1) + [f(t, k - 1, false), f(t, k - 1, true)]
  }

  /** Records of the tokens [lo, hi) for the layers below k, in token order. */
  function RangePackets(f: PacketFn, lo: nat, hi: nat, k: nat): seq<IpcBlock>
    requires lo <= hi
    decreases hi
  {
    if lo == hi then [] else RangePackets(f, lo, hi - 1, k) + TokenPackets(f, hi - 1, k)
  }

  /** Records of one layer for the tokens [w, hi). */
  function LayerPackets(f: PacketFn, w: nat, hi: nat, sub: nat): seq<IpcBlock>
    requires w <= hi
    decreases hi
  {
    if w == hi then []
    else LayerPackets(f, w, hi - 1, sub) + [f(hi - 1, sub, false), f(hi - 1, sub, true)]
  }

  /** The order in which a round of the parser emits: layer by layer. */
  function RoundPackets(f: PacketFn, w: nat, hi: nat, k: nat): seq<IpcBlock>
    requires w <= hi
  {
    if k == 0 then [] else RoundPackets(f, w, hi, k - 1) + LayerPackets(f, w, hi, k - 1)
  }

  lemma {:induction false} RangeSplit(f: PacketFn, lo: nat, mid: nat, hi: nat, k: nat)
    requires lo <= mid <= hi
    ensures RangePackets(f, lo, hi, k) == RangePackets(f, lo, mid, k) + RangePackets(f, mid, hi, k)
    decreases hi
  {
    hide TokenPackets;
    if mid < hi {
      RangeSplit(f, lo, mid, hi - 1, k);
    }
  }

  lemma RangeFirst(f: PacketFn, lo: nat, hi: nat, k: nat)
    requires lo < hi
    ensures RangePackets(f, lo, hi, k) == TokenPackets(f, lo, k) + RangePackets(f, lo + 1, hi, k)
  {
    hide TokenPackets;
    RangeSplit(f, lo, lo + 1, hi, k);
    assert RangePackets(f, lo, lo, k) == [];
  }

  lemma {:induction false} RangeZero(f: PacketFn, lo: nat, hi: nat)
    requires lo <= hi
    ensures RangePackets(f, lo, hi, 0) == []
    decreases hi
  {
    if lo < hi { RangeZero(f, lo, hi - 1); }
  }

  lemma SameCopyEmpty(f: PacketFn, lo: nat, k: nat)
    ensures SameCopy([], RangePackets(f, lo, lo, k))
  {
  }

  // ---------------------------------------------------------------------------
  // Layer order against token order
  // ---------------------------------------------------------------------------

  lemma {:induction false} AddLayer(f: PacketFn, w: nat, hi: nat, k: nat, s: int, d: int)
    requires w <= hi
    ensures Count(RangePackets(f, w, hi, k + 1), s, d)
         == Count(RangePackets(f, w, hi, k), s, d) + Count(LayerPackets(f, w, hi, k), s, d)
    decreases hi
  {
    hide CountTo;
    if w == hi {
      CountEmpty(s, d);
    } else {
      var n := hi - 1;
      var kv := [f(n, k, false), f(n, k, true)];
      AddLayer(f, w, n, k, s, d);
      CountConcat(RangePackets(f, w, n, k + 1), TokenPackets(f, n, k + 1), s, d);
      CountConcat(TokenPackets(f, n, k), kv, s, d);
      CountConcat(RangePackets(f, w, n, k), TokenPackets(f, n, k), s, d);
      CountConcat(LayerPackets(f, w, n, k), kv, s, d);
    }
  }

  /** Emitting layer by layer or token by token performs the same copy. */
  lemma {:induction false} RoundIsRange(f: PacketFn, w: nat, hi: nat, k: nat, s: int, d: int)
    requires w <= hi
    ensures Count(RoundPackets(f, w, hi, k), s, d) == Count(RangePackets(f, w, hi, k), s, d)
  {
    hide CountTo, LayerPackets;
    if k == 0 {
      RangeZero(f, w, hi);
    } else {
      RoundIsRange(f, w, hi, k - 1, s, d);
      AddLayer(f, w, hi, k - 1, s, d);
      CountConcat(RoundPackets(f, w, hi, k - 1), LayerPackets(f, w, hi, k - 1), s, d);
    }
  }

  /** A finished round extends the part of the schedule that has been emitted. */
  lemma RoundDone(f: PacketFn, lo: nat, w: nat, hi: nat, k: nat, out: seq<IpcBlock>)
    requires lo <= w <= hi && SameCopy(out, RangePackets(f, lo, w, k))
    ensures SameCopy(out + RoundPackets(f, w, hi, k), RangePackets(f, lo, hi, k))
  {
    hide CountTo, RangePackets, RoundPackets;
    RangeSplit(f, lo, w, hi, k);
    forall s: int, d: int
      ensures Count(out + RoundPackets(f, w, hi, k), s, d) == Count(RangePackets(f, lo, hi, k), s, d)
    {
      CountConcat(out, RoundPackets(f, w, hi, k), s, d);
      CountConcat(RangePackets(f, lo, w, k), RangePackets(f, w, hi, k), s, d);
      RoundIsRange(f, w, hi, k, s, d);
    }
  }

  // ---------------------------------------------------------------------------
  // Each destination byte at most once
  // ---------------------------------------------------------------------------

  /** The record at these coordinates writes destination byte d. */
  ghost predicate Owned(f: PacketFn, d: int, t: nat, sub: nat, v: bool) {
    WritesTo(f(t, sub, v), d)
  }

  ghost predicate OneOwner(f: PacketFn, d: int, lo: nat, hi: nat, k: nat) {
    forall t: nat, t': nat, sub: nat, sub': nat, v: bool, v': bool ::
      lo <= t < hi && lo <= t' < hi && sub < k && sub' < k
      && Owned(f, d, t, sub, v) && Owned(f, d, t', sub', v')
      ==> t == t' && sub == sub' && v == v'
  }

  lemma TokenPeel(f: PacketFn, t: nat, k: nat, d: int)
    requires k > 0
    ensures Writes(TokenPackets(f, t, k), d)
         == Writes(TokenPackets(f, t, k - 1), d) + (if Owned(f, d, t, k - 1, false) then 1 else 0)
            + (if Owned(f, d, t, k - 1, true) then 1 else 0)
  {
    var rest, x, y := TokenPackets(f, t, k - 1), f(t, k - 1, false), f(t, k - 1, true);
    assert TokenPackets(f, t, k) == (rest + [x]) + [y];
    hide TokenPackets, WritesToCount;
    Push(rest, x, 0, d);
    Push(rest + [x], y, 0, d);
  }

  lemma {:induction false} TokenWritesNone(f: PacketFn, d: int, t: nat, k: nat)
    requires forall sub: nat, v: bool :: sub < k ==> !Owned(f, d, t, sub, v)
    ensures Writes(TokenPackets(f, t, k), d) == 0
  {
    if k > 0 {
      TokenPeel(f, t, k, d);
      TokenWritesNone(f, d, t, k - 1);
    }
  }

  lemma {:induction false} RangeWritesNone(f: PacketFn, d: int, lo: nat, hi: nat, k: nat)
    requires lo <= hi
    requires forall t: nat, sub: nat, v: bool :: lo <= t < hi && sub < k ==> !Owned(f, d, t, sub, v)
    ensures Writes(RangePackets(f, lo, hi, k), d) == 0
    decreases hi
  {
    if lo < hi {
      hide TokenPackets, WritesToCount, Owned;
      RangeWritesNone(f, d, lo, hi - 1, k);
      TokenWritesNone(f, d, hi - 1, k);
      WritesConcat(RangePackets(f, lo, hi - 1, k), TokenPackets(f, hi - 1, k), d);
    }
  }

  lemma {:induction false} TokenWritesOne(f: PacketFn, d: int, t: nat, k: nat, sub: nat, v: bool)
    requires sub < k && Owned(f, d, t, sub, v)
    requires OneOwner(f, d, t, t + 1, k)
    ensures Writes(TokenPackets(f, t, k), d) == 1
  {
    hide TokenPackets, WritesToCount;
    TokenPeel(f, t, k, d);
    assert Owned(f, d, t, k - 1, false) ==> sub == k - 1 && !v;
    assert Owned(f, d, t, k - 1, true) ==> sub == k - 1 && v;
    if sub < k - 1 {
      TokenWritesOne(f, d, t, k - 1, sub, v);
    } else {
      TokenWritesNone(f, d, t, k - 1);
    }
  }

  lemma RangeWritesOne(f: PacketFn, d: int, lo: nat, hi: nat, k: nat, t: nat, sub: nat, v: bool)
    requires lo <= t < hi && sub < k && Owned(f, d, t, sub, v)
    requires OneOwner(f, d, lo, hi, k)
    ensures Writes(RangePackets(f, lo, hi, k), d) == 1
  {
    hide TokenPackets, RangePackets, WritesToCount, Owned;
    var a, b, c := RangePackets(f, lo, t, k), TokenPackets(f, t, k), RangePackets(f, t + 1, hi, k);
    RangeSplit(f, lo, t, hi, k);
    RangeFirst(f, t, hi, k);
    WritesConcat(a, b + c, d);
    WritesConcat(b, c, d);
    RangeWritesNone(f, d, lo, t, k);
    RangeWritesNone(f, d, t + 1, hi, k);
    TokenWritesOne(f, d, t, k, sub, v);
  }

  /** A record of the schedule contributes its pairs. */
  lemma RangeHits(f: PacketFn, lo: nat, hi: nat, k: nat, t: nat, sub: nat, v: bool, s: int, d: int)
    requires lo <= t < hi && sub < k && Moves(f(t, sub, v), s, d)
    ensures Count(RangePackets(f, lo, hi, k), s, d) >= 1
  {
    hide TokenPackets, RangePackets, CountTo;
    RangeSplit(f, lo, t, hi, k);
    RangeFirst(f, t, hi, k);
    CountConcat(RangePackets(f, lo, t, k), TokenPackets(f, t, k) + RangePackets(f, t + 1, hi, k), s, d);
    CountConcat(TokenPackets(f, t, k), RangePackets(f, t + 1, hi, k), s, d);
    TokenHits(f, t, k, sub, v, s, d);
  }

  lemma {:induction false} TokenHits(f: PacketFn, t: nat, k: nat, sub: nat, v: bool, s: int, d: int)
    requires sub < k && Moves(f(t, sub, v), s, d)
    ensures Count(TokenPackets(f, t, k), s, d) >= 1
  {
    var rest, x, y := TokenPackets(f, t, k - 1), f(t, k - 1, false), f(t, k - 1, true);
    assert TokenPackets(f, t, k) == (rest + [x]) + [y];
    hide TokenPackets, CountTo;
    Push(rest, x, s, d);
    Push(rest + [x], y, s, d);
    if sub < k - 1 {
      TokenHits(f, t, k - 1, sub, v, s, d);
    }
  }

  lemma RoundSameWrites(f: PacketFn, w: nat, hi: nat, k: nat, d: int)
    requires w <= hi
    ensures Writes(RoundPackets(f, w, hi, k), d) == Writes(RangePackets(f, w, hi, k), d)
  {
    hide CountTo, WritesToCount, RoundPackets, RangePackets;
    forall s: int, d: int
      ensures Count(RoundPackets(f, w, hi, k), s, d) == Count(RangePackets(f, w, hi, k), s, d)
    {
      RoundIsRange(f, w, hi, k, s, d);
    }
    SameCopySameWrites(RoundPackets(f, w, hi, k), RangePackets(f, w, hi, k), d);
  }

  /** Schedules whose records write the same destination ranges. */
  ghost predicate SameTargets(f: PacketFn, g: PacketFn, lo: nat, hi: nat, k: nat, d: int) {
    forall t: nat, sub: nat, v: bool :: lo <= t < hi && sub < k ==> (Owned(f, d, t, sub, v) <==> Owned(g, d, t, sub, v))
  }

  lemma {:induction false} TokenSameTargets(f: PacketFn, g: PacketFn, t: nat, k: nat, d: int)
    requires SameTargets(f, g, t, t + 1, k, d)
    ensures Writes(TokenPackets(f, t, k), d) == Writes(TokenPackets(g, t, k), d)
  {
    if k > 0 {
      hide TokenPackets, WritesToCount;
      TokenPeel(f, t, k, d);
      TokenPeel(g, t, k, d);
      TokenSameTargets(f, g, t, k - 1, d);
    }
  }

  lemma {:induction false} RangeSameTargets(f: PacketFn, g: PacketFn, lo: nat, hi: nat, k: nat, d: int)
    requires lo <= hi && SameTargets(f, g, lo, hi, k, d)
    ensures Writes(RangePackets(f, lo, hi, k), d) == Writes(RangePackets(g, lo, hi, k), d)
    decreases hi
  {
    if lo < hi {
      hide TokenPackets, WritesToCount, Owned;
      RangeSameTargets(f, g, lo, hi - 1, k, d);
      TokenSameTargets(f, g, hi - 1, k, d);
      WritesConcat(RangePackets(f, lo, hi - 1, k), TokenPackets(f, hi - 1, k), d);
      WritesConcat(RangePackets(g, lo, hi - 1, k), TokenPackets(g, hi - 1, k), d);
    }
  }

  // ---------------------------------------------------------------------------
  // Runs of adjacent records
  // ---------------------------------------------------------------------------

  function Long(b: IpcBlock, n: nat): IpcBlock {
    IpcBlock(b.src, b.dst, n * b.len)
  }

  /** From token w on, the records of `sub` are adjacent on both sides. */
  ghost predicate Adjacent(f: PacketFn, w: nat, i: nat, sub: nat) {
    forall v: bool :: f(w + i, sub, v) == IpcBlock(f(w, sub, v).src + i * f(w, sub, v).len,
                                                   f(w, sub, v).dst + i * f(w, sub, v).len, f(w, sub, v).len)
  }

  lemma LongStep(b: IpcBlock, n: nat, x: IpcBlock, s: int, d: int)
    requires x == IpcBlock(b.src + n * b.len, b.dst + n * b.len, b.len)
    ensures Count([Long(b, n + 1)], s, d) == Count([Long(b, n)], s, d) + Count([x], s, d)
  {
    assert (n + 1) * b.len == n * b.len + b.len;
    Single(Long(b, n + 1), s, d);
    Single(Long(b, n), s, d);
    Single(x, s, d);
  }

  lemma LongZero(b: IpcBlock, s: int, d: int)
    ensures Count([Long(b, 0)], s, d) == 0
  {
    Single(Long(b, 0), s, d);
  }

  lemma CountPair(x: IpcBlock, y: IpcBlock, s: int, d: int)
    ensures Count([x, y], s, d) == Count([x], s, d) + Count([y], s, d)
  {
    assert [x, y] == [x] + [y];
    CountConcat([x], [y], s, d);
  }

  /** The records of a layer are one K run and one V run. */
  lemma {:induction false} LayerAsRuns(f: PacketFn, w: nat, n: nat, sub: nat, s: int, d: int)
    requires forall i: nat :: i < n ==> Adjacent(f, w, i, sub)
    ensures Count(LayerPackets(f, w, w + n, sub), s, d)
         == Count([Long(f(w, sub, false), n), Long(f(w, sub, true), n)], s, d)
  {
    hide CountTo, Long;
    CountPair(Long(f(w, sub, false), n), Long(f(w, sub, true), n), s, d);
    if n == 0 {
      LongZero(f(w, sub, false), s, d);
      LongZero(f(w, sub, true), s, d);
      CountEmpty(s, d);
    } else {
      var m := n - 1;
      LayerAsRuns(f, w, m, sub, s, d);
      assert Adjacent(f, w, m, sub);
      CountPair(Long(f(w, sub, false), m), Long(f(w, sub, true), m), s, d);
      LongStep(f(w, sub, false), m, f(w + m, sub, false), s, d);
      LongStep(f(w, sub, true), m, f(w + m, sub, true), s, d);
      var kv := [f(w + m, sub, false), f(w + m, sub, true)];
      CountPair(f(w + m, sub, false), f(w + m, sub, true), s, d);
      assert LayerPackets(f, w, w + n, sub) == LayerPackets(f, w, w + m, sub) + kv;
      CountConcat(LayerPackets(f, w, w + m, sub), kv, s, d);
    }
  }

  /** Emission order of a round that sends a K run and a V run for every sub. */
  function RoundRuns(f: PacketFn, w: nat, n: nat, k: nat): seq<IpcBlock> {
    if k == 0 then [] else RoundRuns(f, w, n, k - 1) + [Long(f(w, k - 1, false), n), Long(f(w, k - 1, true), n)]
  }

  lemma {:induction false} RunsAreRound(f: PacketFn, w: nat, n: nat, k: nat, s: int, d: int)
    requires forall i: nat, sub: nat :: i < n && sub < k ==> Adjacent(f, w, i, sub)
    ensures Count(RoundRuns(f, w, n, k), s, d) == Count(RoundPackets(f, w, w + n, k), s, d)
  {
    hide CountTo, Long, Adjacent, LayerPackets;
    if k > 0 {
      RunsAreRound(f, w, n, k - 1, s, d);
      LayerAsRuns(f, w, n, k - 1, s, d);
      CountConcat(RoundRuns(f, w, n, k - 1), [Long(f(w, k - 1, false), n), Long(f(w, k - 1, true), n)], s, d);
      CountConcat(RoundPackets(f, w, w + n, k - 1), LayerPackets(f, w, w + n, k - 1), s, d);
    }
  }

  lemma RunsDone(f: PacketFn, lo: nat, w: nat, n: nat, k: nat, out: seq<IpcBlock>)
    requires lo <= w && SameCopy(out, RangePackets(f, lo, w, k))
    requires forall i: nat, sub: nat :: i < n && sub < k ==> Adjacent(f, w, i, sub)
    ensures SameCopy(out + RoundRuns(f, w, n, k), RangePackets(f, lo, w + n, k))
  {
    hide CountTo, RangePackets, RoundPackets, RoundRuns, Adjacent;
    RoundDone(f, lo, w, w + n, k, out);
    forall s: int, d: int
      ensures Count(out + RoundRuns(f, w, n, k), s, d) == Count(RangePackets(f, lo, w + n, k), s, d)
    {
      CountConcat(out, RoundRuns(f, w, n, k), s, d);
      CountConcat(out, RoundPackets(f, w, w + n, k), s, d);
      RunsAreRound(f, w, n, k, s, d);
      assert Count(out + RoundPackets(f, w, w + n, k), s, d) == Count(RangePackets(f, lo, w + n, k), s, d);
    }
  }
}
