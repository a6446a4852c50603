/** Where token streams put every byte, in coordinates of the cache tensors of the token-major layouts.
    A cache is a row-major tensor; the three orders differ in where its K/V dimension lies. */
module CachePlacement {
  import opened Arith
  import opened Copies
  import opened Sequences
  import opened TokenStream

  /** Where the K/V dimension lies: inside a token, between block and token, or outermost. */
  datatype KvOrder = Inner | Between | Outermost

  /** The cache of one side: K and V of a token have `half` bytes each, pages hold ntpb tokens and a layer
      has `num` pages. */
  datatype Cache = Cache(order: KvOrder, blocks: seq<nat>, ntpb: nat, half: nat, num: nat) {
    predicate Has(w: nat) {
      ntpb > 0 && w / ntpb < |blocks|
    }

    /** Position of byte y of K or V of token w. */
    function Byte(w: nat, v: bool, y: nat): nat
      requires Has(w)
    {
      Position(blocks[w / ntpb], w % ntpb, if v then 1 else 0, y)
    }

    function Position(page: nat, slot: nat, kv: nat, y: nat): nat {
      match order
      case Inner => Nest(Nest(Nest(page, ntpb, slot), 2, kv), half, y)
      case Between => Nest(Nest(Nest(page, 2, kv), ntpb, slot), half, y)
      case Outermost => Nest(Nest(Nest(kv, num, page), ntpb, slot), half, y)
    }

    predicate Covers(hi: nat) {
      ntpb > 0 && half > 0 && hi <= Times(|blocks|, ntpb)
    }

    /** Distinct pages; with K and V in halves of the layer, pages of the layer. */
    ghost predicate Proper() {
      Distinct(blocks) && (order.Outermost? ==> forall i :: 0 <= i < |blocks| ==> blocks[i] < num)
    }

    /** The side of a stream that starts at byte y of K or V of every token. */
    function SideAt(v: bool, y: nat): Side {
      var kv := if v then 1 else 0;
      match order
      case Inner => Side(blocks, ntpb, ntpb * (2 * half), 2 * half, kv * half + y)
      case Between => Side(blocks, ntpb, ntpb * (2 * half), half, kv * (ntpb * half) + y)
      case Outermost => Side(blocks, ntpb, ntpb * half, half, kv * (ntpb * half * num) + y)
    }
  }

  /** The addresses of a side are positions in the tensor. */
  lemma SideByte(c: Cache, v: bool, y: nat, w: nat, b: nat)
    requires c.Has(w)
    ensures c.SideAt(v, y).At(w) + b == c.Byte(w, v, y + b)
  {
    var page, slot, kv, n, h := c.blocks[w / c.ntpb], w % c.ntpb, if v then 1 else 0, c.ntpb, c.half;
    match c.order
    case Inner =>
      NestFlat(Nest(page, n, slot), 2, kv, h, y + b);
      Distribute(page * n, slot, 2 * h);
      Associate(page, n, 2 * h);
    case Between =>
      NestFlat(Nest(page, 2, kv), n, slot, h, y + b);
      Distribute(page * 2, kv, n * h);
      Associate(page, 2, n * h);
      assert 2 * (n * h) == n * (2 * h);
    case Outermost =>
      NestFlat(Nest(kv, c.num, page), n, slot, h, y + b);
      Distribute(kv * c.num, page, n * h);
      Associate(kv, c.num, n * h);
      assert c.num * (n * h) == n * h * c.num;
  }

  lemma NestUnique(a: nat, a': nat, m: nat, i: nat, i': nat)
    requires i < m && i' < m && Nest(a, m, i) == Nest(a', m, i')
    ensures a == a' && i == i'
  {
    DigitUnique(a, a', m, i, i');
  }

  lemma SameToken(w: nat, w': nat, n: nat)
    requires n > 0 && w / n == w' / n && w % n == w' % n
    ensures w == w'
  {
    assert w == w / n * n + w % n && w' == w' / n * n + w' % n;
  }

  /** A position is one page, slot, K or V, and byte. */
  lemma PositionUnique(c: Cache, page: nat, slot: nat, kv: nat, y: nat, page': nat, slot': nat, kv': nat, y': nat)
    requires slot < c.ntpb && slot' < c.ntpb && kv < 2 && kv' < 2 && y < c.half && y' < c.half
    requires c.order.Outermost? ==> page < c.num && page' < c.num
    requires c.Position(page, slot, kv, y) == c.Position(page', slot', kv', y')
    ensures page == page' && slot == slot' && kv == kv' && y == y'
  {
    hide Nest;
    match c.order {
      case Inner =>
        NestUnique(Nest(Nest(page, c.ntpb, slot), 2, kv), Nest(Nest(page', c.ntpb, slot'), 2, kv'), c.half, y, y');
        NestUnique(Nest(page, c.ntpb, slot), Nest(page', c.ntpb, slot'), 2, kv, kv');
        NestUnique(page, page', c.ntpb, slot, slot');
      case Between =>
        NestUnique(Nest(Nest(page, 2, kv), c.ntpb, slot), Nest(Nest(page', 2, kv'), c.ntpb, slot'), c.half, y, y');
        NestUnique(Nest(page, 2, kv), Nest(page', 2, kv'), c.ntpb, slot, slot');
        NestUnique(page, page', 2, kv, kv');
      case Outermost =>
        NestUnique(Nest(Nest(kv, c.num, page), c.ntpb, slot), Nest(Nest(kv', c.num, page'), c.ntpb, slot'), c.half, y, y');
        NestUnique(Nest(kv, c.num, page), Nest(kv', c.num, page'), c.ntpb, slot, slot');
        NestUnique(kv, kv', c.num, page, page');
    }
  }

  /** A position is one token, K or V, and byte. */
  lemma ByteUnique(c: Cache, w: nat, v: bool, y: nat, w': nat, v': bool, y': nat)
    requires c.Has(w) && c.Has(w') && c.Proper() && y < c.half && y' < c.half
    requires c.Byte(w, v, y) == c.Byte(w', v', y')
    ensures w == w' && v == v' && y == y'
  {
    hide Cache.Position;
    PositionUnique(c, c.blocks[w / c.ntpb], w % c.ntpb, if v then 1 else 0, y,
                   c.blocks[w' / c.ntpb], w' % c.ntpb, if v' then 1 else 0, y');
    SameToken(w, w', c.ntpb);
  }

  // ---------------------------------------------------------------------------
  // The slices of a rank
  // ---------------------------------------------------------------------------

  /** The stream of K or V of rank g: its slice of the wide token holds as many bytes as its own token. */
  function SliceOf(p: Cache, d: Cache, g: nat, swap: bool, v: bool): Stream {
    var narrow, wide := p.SideAt(v, 0), d.SideAt(v, g * p.half);
    if swap then Stream(wide, narrow, p.half) else Stream(narrow, wide, p.half)
  }

  lemma SliceCovers(p: Cache, d: Cache, g: nat, swap: bool, v: bool, hi: nat)
    requires p.Covers(hi) && d.Covers(hi)
    ensures SliceOf(p, d, g, swap, v).Covers(hi)
  {
  }

  function SliceRecords(p: Cache, d: Cache, g: nat, swap: bool, lo: nat, hi: nat): seq<IpcBlock>
    requires lo <= hi && p.Covers(hi) && d.Covers(hi)
  {
    SliceCovers(p, d, g, swap, false, hi);
    SliceCovers(p, d, g, swap, true, hi);
    Records(SliceOf(p, d, g, swap, false), lo, hi) + Records(SliceOf(p, d, g, swap, true), lo, hi)
  }

  lemma CacheHas(c: Cache, hi: nat, w: nat)
    requires c.Covers(hi) && w < hi
    ensures c.Has(w)
  {
    InTable(w, c.ntpb, |c.blocks|);
  }

  /** Record j of a rank: which token, K or V, and where. */
  lemma SliceRecord(p: Cache, d: Cache, g: nat, swap: bool, lo: nat, hi: nat, j: nat)
    requires lo <= hi && p.Covers(hi) && d.Covers(hi) && j < 2 * (hi - lo)
    ensures |SliceRecords(p, d, g, swap, lo, hi)| == 2 * (hi - lo)
    ensures var n := hi - lo;
            var w, v := if j < n then lo + j else lo + (j - n), j >= n;
            && p.Has(w) && d.Has(w)
            && var narrow, wide := p.Byte(w, v, 0), d.Byte(w, v, g * p.half);
               SliceRecords(p, d, g, swap, lo, hi)[j]
               == if swap then IpcBlock(wide, narrow, p.half) else IpcBlock(narrow, wide, p.half)
  {
    hide Records, Cache.Byte, Cache.SideAt, Side.At;
    var n := hi - lo;
    var i, v := if j < n then j else j - n, j >= n;
    SliceCovers(p, d, g, swap, false, hi);
    SliceCovers(p, d, g, swap, true, hi);
    RecordsAt(SliceOf(p, d, g, swap, false), lo, hi, i);
    RecordsAt(SliceOf(p, d, g, swap, true), lo, hi, i);
    CacheHas(p, hi, lo + i);
    CacheHas(d, hi, lo + i);
    SideByte(p, v, 0, lo + i, 0);
    SideByte(d, v, g * p.half, lo + i, 0);
  }

  lemma ByteShift(c: Cache, w: nat, v: bool, y: nat, b: nat)
    requires c.Has(w)
    ensures c.Byte(w, v, y) + b == c.Byte(w, v, y + b)
  {
  }

  /** The narrow tokens are n-th parts of the wide ones, g is one of n. */
  predicate Sizes(p: Cache, d: Cache, n: nat, g: nat) {
    p.order == d.order && d.half == n * p.half && g < n
  }

  /** Byte b of K or V of token w of rank g: its part of the wide token starts after those of the ranks
      before it. It is copied once, and its place is written once. */
  ghost predicate SlicePlaced(out: seq<IpcBlock>, p: Cache, d: Cache, g: nat, swap: bool, w: nat, v: bool, b: nat) {
    && p.Has(w) && d.Has(w)
    && var narrow, wide := p.Byte(w, v, b), d.Byte(w, v, Nest(g, p.half, b));
       if swap then Count(out, wide, narrow) == 1 && Writes(out, narrow) == 1
       else Count(out, narrow, wide) == 1 && Writes(out, wide) == 1
  }

  ghost predicate AllSliced(out: seq<IpcBlock>, p: Cache, d: Cache, g: nat, swap: bool, lo: nat, hi: nat) {
    forall w: nat, v: bool, b: nat :: lo <= w < hi && b < p.half ==> SlicePlaced(out, p, d, g, swap, w, v, b)
  }

  lemma PartBelow(n: nat, half: nat, g: nat, b: nat)
    requires g < n && b < half
    ensures Nest(g, half, b) < n * half && Nest(g, half, b) == g * half + b
  {
    MulMono(g + 1, n, half);
    Distribute(g, 1, half);
  }

  /** A record of the rank that writes a byte is the record of that byte's token. */
  lemma RecordOwns(p: Cache, d: Cache, n: nat, g: nat, swap: bool, lo: nat, hi: nat, j: nat, x: int)
    returns (w: nat, v: bool, b: nat)
    requires lo <= hi && p.Covers(hi) && d.Covers(hi) && j < |SliceRecords(p, d, g, swap, lo, hi)| == 2 * (hi - lo)
    requires Sizes(p, d, n, g) && WritesTo(SliceRecords(p, d, g, swap, lo, hi)[j], x)
    ensures lo <= w < hi && b < p.half && j == (w - lo) + (if v then hi - lo else 0) && p.Has(w) && d.Has(w)
    ensures x == if swap then p.Byte(w, v, b) else d.Byte(w, v, Nest(g, p.half, b))
    ensures Nest(g, p.half, b) < d.half
  {
    hide SliceRecords, Cache.Byte;
    SliceRecord(p, d, g, swap, lo, hi, j);
    var m := hi - lo;
    w, v := if j < m then lo + j else lo + (j - m), j >= m;
    b := x - if swap then p.Byte(w, v, 0) else d.Byte(w, v, g * p.half);
    ByteShift(p, w, v, 0, b);
    ByteShift(d, w, v, g * p.half, b);
    PartBelow(n, p.half, g, b);
  }

  /** The records of a rank put every byte in its place. */
  lemma SlicePlaces(p: Cache, d: Cache, n: nat, g: nat, swap: bool, lo: nat, hi: nat, w: nat, v: bool, b: nat)
    requires lo <= w < hi && p.Covers(hi) && d.Covers(hi) && Sizes(p, d, n, g) && b < p.half
    requires if swap then p.Proper() else d.Proper()
    ensures SlicePlaced(SliceRecords(p, d, g, swap, lo, hi), p, d, g, swap, w, v, b)
  {
    hide SliceRecords, Cache.Byte, Cache.Proper, CountTo, WritesToCount;
    var bs := SliceRecords(p, d, g, swap, lo, hi);
    var i := (w - lo) + if v then hi - lo else 0;
    SliceRecord(p, d, g, swap, lo, hi, i);
    ByteShift(p, w, v, 0, b);
    ByteShift(d, w, v, g * p.half, b);
    PartBelow(n, p.half, g, b);
    var narrow, wide := p.Byte(w, v, b), d.Byte(w, v, Nest(g, p.half, b));
    var s, x := if swap then wide else narrow, if swap then narrow else wide;
    assert Moves(bs[i], s, x);
    forall j | 0 <= j < |bs| && WritesTo(bs[j], x) ensures j == i {
      var w', v', b' := RecordOwns(p, d, n, g, swap, lo, hi, j, x);
      if swap {
        ByteUnique(p, w, v, b, w', v', b');
      } else {
        ByteUnique(d, w, v, Nest(g, p.half, b), w', v', Nest(g, p.half, b'));
      }
    }
    WritesUnique(bs, x, i, s);
  }

  /** So does every list that performs the same copy. */
  lemma AllSlicesPlaced(p: Cache, d: Cache, n: nat, g: nat, swap: bool, lo: nat, hi: nat, out: seq<IpcBlock>)
    requires lo <= hi && p.Covers(hi) && d.Covers(hi) && Sizes(p, d, n, g) && (if swap then p.Proper() else d.Proper())
    requires SameCopy(out, SliceRecords(p, d, g, swap, lo, hi))
    ensures AllSliced(out, p, d, g, swap, lo, hi)
  {
    hide SliceRecords, Cache.Byte, Cache.Proper, CountTo, WritesToCount;
    var bs := SliceRecords(p, d, g, swap, lo, hi);
    forall w: nat, v: bool, b: nat | lo <= w < hi && b < p.half ensures SlicePlaced(out, p, d, g, swap, w, v, b) {
      SlicePlaces(p, d, n, g, swap, lo, hi, w, v, b);
      var narrow, wide := p.Byte(w, v, b), d.Byte(w, v, Nest(g, p.half, b));
      SameCopySameWrites(out, bs, if swap then narrow else wide);
    }
  }

  lemma WholeToken(a: nat, c: nat, k: nat, s: int, t: int)
    ensures Moves(IpcBlock(a, c, 2 * k), s, t) <==> Moves(IpcBlock(a, c, k), s, t) || Moves(IpcBlock(a + k, c + k, k), s, t)
    ensures !(Moves(IpcBlock(a, c, k), s, t) && Moves(IpcBlock(a + k, c + k, k), s, t))
  {
  }

  lemma {:induction false} WholeTokens(whole: Stream, k: nat, lo: nat, hi: nat, s: int, t: int)
    requires lo <= hi && whole.Covers(hi) && whole.bytes == 2 * k
    ensures var first := Stream(whole.src, whole.dst, k);
            && first.Covers(hi) && first.Shifted(k, k).Covers(hi)
            && Count(Records(whole, lo, hi), s, t)
               == Count(Records(first, lo, hi), s, t) + Count(Records(first.Shifted(k, k), lo, hi), s, t)
    decreases hi
  {
    hide CountTo, Side.At, Page, Slot;
    var first := Stream(whole.src, whole.dst, k);
    var second := first.Shifted(k, k);
    if lo == hi {
      CountEmpty(s, t);
    } else {
      var w := hi - 1;
      CoversLess(whole, w, hi);
      WholeTokens(whole, k, lo, w, s, t);
      Held(whole, hi, w);
      ShiftedAt(first, k, k, w);
      WholeToken(whole.src.At(w), whole.dst.At(w), k, s, t);
      Push(Records(whole, lo, w), whole.At(w), s, t);
      Push(Records(first, lo, w), first.At(w), s, t);
      Push(Records(second, lo, w), second.At(w), s, t);
    }
  }

  /** Equal sides with K and V of a token adjacent: whole tokens are a slice of K and one of V. */
  lemma WholeIsSlices(p: Cache, d: Cache, lo: nat, hi: nat)
    requires lo <= hi && p.Covers(hi) && d.Covers(hi) && p.order == d.order == Inner && p.half == d.half
    ensures var whole := Stream(p.SideAt(false, 0), d.SideAt(false, 0), 2 * p.half);
            whole.Covers(hi) && SameCopy(Records(whole, lo, hi), SliceRecords(p, d, 0, false, lo, hi))
  {
    hide Records, CountTo;
    var whole := Stream(p.SideAt(false, 0), d.SideAt(false, 0), 2 * p.half);
    var first := Stream(whole.src, whole.dst, p.half);
    forall s: int, t: int
      ensures Count(Records(whole, lo, hi), s, t) == Count(SliceRecords(p, d, 0, false, lo, hi), s, t)
    {
      WholeTokens(whole, p.half, lo, hi, s, t);
      assert SliceOf(p, d, 0, false, false) == first && SliceOf(p, d, 0, false, true) == first.Shifted(p.half, p.half);
      CountConcat(Records(first, lo, hi), Records(first.Shifted(p.half, p.half), lo, hi), s, t);
    }
  }

  // ---------------------------------------------------------------------------
  // All ranks of a group
  // ---------------------------------------------------------------------------

  /** Byte x is one of K or V of the tokens [lo, hi). */
  ghost predicate InTokens(d: Cache, lo: nat, hi: nat, x: int) {
    exists w: nat, v: bool, y: nat :: IsByte(d, lo, hi, x, w, v, y)
  }

  ghost predicate IsByte(d: Cache, lo: nat, hi: nat, x: int, w: nat, v: bool, y: nat) {
    lo <= w < hi && y < d.half && d.Has(w) && x == d.Byte(w, v, y)
  }

  /** Writes to byte x by the first m of the lists. */
  function ListWrites(outs: seq<seq<IpcBlock>>, m: nat, x: int): nat
    requires m <= |outs|
  {
    if m == 0 then 0 else ListWrites(outs, m - 1, x) + Writes(outs[m - 1], x)
  }

  /** A rank writes a byte of the tokens exactly when it lies in its part. */
  lemma RankByte(p: Cache, d: Cache, n: nat, g: nat, lo: nat, hi: nat, w: nat, v: bool, y: nat)
    requires lo <= w < hi && p.Covers(hi) && d.Covers(hi) && Sizes(p, d, n, g) && d.Proper() && y < d.half
    ensures d.Has(w)
    ensures Writes(SliceRecords(p, d, g, false, lo, hi), d.Byte(w, v, y)) == if g == y / p.half then 1 else 0
  {
    hide SliceRecords, Cache.Byte, Cache.Proper, CountTo, WritesToCount;
    CacheHas(d, hi, w);
    var x, q, r := d.Byte(w, v, y), y / p.half, y % p.half;
    assert y == Nest(q, p.half, r);
    if g == q {
      SlicePlaces(p, d, n, g, false, lo, hi, w, v, r);
    } else {
      var bs := SliceRecords(p, d, g, false, lo, hi);
      SliceRecord(p, d, g, false, lo, hi, 0);
      forall j | 0 <= j < |bs| ensures !WritesTo(bs[j], x) {
        if WritesTo(bs[j], x) {
          var w', v', b' := RecordOwns(p, d, n, g, false, lo, hi, j, x);
          ByteUnique(d, w, v, y, w', v', Nest(g, p.half, b'));
          NestUnique(q, g, p.half, r, b');
        }
      }
      WritesNone(bs, x);
    }
  }

  lemma RecordInside(p: Cache, d: Cache, n: nat, g: nat, lo: nat, hi: nat, j: nat, x: int)
    requires lo <= hi && p.Covers(hi) && d.Covers(hi) && j < |SliceRecords(p, d, g, false, lo, hi)| == 2 * (hi - lo)
    requires Sizes(p, d, n, g) && WritesTo(SliceRecords(p, d, g, false, lo, hi)[j], x)
    ensures InTokens(d, lo, hi, x)
  {
    hide SliceRecords, Cache.Byte, CountTo, WritesToCount;
    var w, v, b := RecordOwns(p, d, n, g, false, lo, hi, j, x);
    assert IsByte(d, lo, hi, x, w, v, Nest(g, p.half, b));
  }

  /** A rank writes nothing but bytes of the tokens. */
  lemma RankOutside(p: Cache, d: Cache, n: nat, g: nat, lo: nat, hi: nat, x: int)
    requires lo <= hi && p.Covers(hi) && d.Covers(hi) && Sizes(p, d, n, g) && !InTokens(d, lo, hi, x)
    ensures Writes(SliceRecords(p, d, g, false, lo, hi), x) == 0
  {
    hide SliceRecords, Cache.Byte, CountTo, WritesToCount;
    var bs := SliceRecords(p, d, g, false, lo, hi);
    if lo == hi {
      NoSlices(p, d, g, lo);
    } else {
      SliceRecord(p, d, g, false, lo, hi, 0);
    }
    forall j | 0 <= j < |bs| ensures !WritesTo(bs[j], x) {
      if WritesTo(bs[j], x) {
        RecordInside(p, d, n, g, lo, hi, j, x);
      }
    }
    WritesNone(bs, x);
  }

  lemma NoSlices(p: Cache, d: Cache, g: nat, lo: nat)
    requires p.Covers(lo) && d.Covers(lo)
    ensures SliceRecords(p, d, g, false, lo, lo) == []
  {
  }

  /** List g performs the copy of rank g, whose cache is ps[g]. */
  ghost predicate RanksSend(outs: seq<seq<IpcBlock>>, ps: seq<Cache>, d: Cache, lo: nat, hi: nat) {
    && |outs| == |ps| && lo <= hi && d.Covers(hi)
    && forall g :: 0 <= g < |ps| ==>
         ps[g].Covers(hi) && Sizes(ps[g], d, |ps|, g) && SameCopy(outs[g], SliceRecords(ps[g], d, g, false, lo, hi))
  }

  lemma {:induction false} RanksSum(outs: seq<seq<IpcBlock>>, ps: seq<Cache>, d: Cache, lo: nat, hi: nat, m: nat, x: int,
                                    w: nat, v: bool, y: nat, half: nat)
    requires RanksSend(outs, ps, d, lo, hi) && d.Proper() && m <= |outs| && half > 0
    requires IsByte(d, lo, hi, x, w, v, y) && forall g :: 0 <= g < |ps| ==> ps[g].half == half
    ensures ListWrites(outs, m, x) == if y / half < m then 1 else 0
  {
    hide SliceRecords, Cache.Byte, Cache.Proper, CountTo, WritesToCount, SameCopy, Cache.Covers;
    if m > 0 {
      RanksSum(outs, ps, d, lo, hi, m - 1, x, w, v, y, half);
      RankByte(ps[m - 1], d, |ps|, m - 1, lo, hi, w, v, y);
      SameCopySameWrites(outs[m - 1], SliceRecords(ps[m - 1], d, m - 1, false, lo, hi), x);
    }
  }

  lemma {:induction false} RanksNone(outs: seq<seq<IpcBlock>>, ps: seq<Cache>, d: Cache, lo: nat, hi: nat, m: nat, x: int)
    requires RanksSend(outs, ps, d, lo, hi) && m <= |outs| && !InTokens(d, lo, hi, x)
    ensures ListWrites(outs, m, x) == 0
  {
    hide SliceRecords, CountTo, WritesToCount, SameCopy, Cache.Covers, InTokens;
    if m > 0 {
      RanksNone(outs, ps, d, lo, hi, m - 1, x);
      RankOutside(ps[m - 1], d, |ps|, m - 1, lo, hi, x);
      SameCopySameWrites(outs[m - 1], SliceRecords(ps[m - 1], d, m - 1, false, lo, hi), x);
    }
  }

  /** Together the ranks of a group write every byte of the wide tokens exactly once, and nothing else. */
  lemma RanksTileTokens(outs: seq<seq<IpcBlock>>, ps: seq<Cache>, d: Cache, lo: nat, hi: nat, x: int)
    requires RanksSend(outs, ps, d, lo, hi) && d.Proper() && ps != []
    ensures ListWrites(outs, |outs|, x) == if InTokens(d, lo, hi, x) then 1 else 0
  {
    hide SliceRecords, Cache.Byte, Cache.Proper, CountTo, WritesToCount, SameCopy;
    if InTokens(d, lo, hi, x) {
      var w: nat, v: bool, y: nat :| IsByte(d, lo, hi, x, w, v, y);
      var half := ps[0].half;
      forall g | 0 <= g < |ps| ensures ps[g].half == half {
        SameHalf(|ps|, half, ps[g].half);
      }
      assert half > 0;
      PartOf(y, |ps|, half);
      RanksSum(outs, ps, d, lo, hi, |outs|, x, w, v, y, half);
    } else {
      RanksNone(outs, ps, d, lo, hi, |outs|, x);
    }
  }

  lemma SameHalf(n: nat, a: nat, b: nat)
    requires n > 0
    ensures n * a == n * b ==> a == b
  {
    if a < b { MulStrict(a, b, n); }
    if b < a { MulStrict(b, a, n); }
  }

  lemma PartOf(y: nat, n: nat, half: nat)
    requires half > 0 && y < n * half
    ensures y / half < n
  {
    if n <= y / half { MulMono(n, y / half, half); }
  }
}
