/** What a list of transfer records means.

    A record copies `len` bytes from `src` (an offset in the sender's cache tensor) to
    `dst` (an offset in the receiver's). A list of records denotes a multiset of
    (source byte, destination byte) pairs: `Count` gives the multiplicity of one pair,
    `Writes` the number of times one destination byte is written. Every parser of the
    project is compared with a reference list through these two functions. */
module Copies {

  datatype IpcBlock = IpcBlock(src: nat, dst: nat, len: nat)

  predicate WritesTo(b: IpcBlock, d: int) {
    b.dst <= d < b.dst + b.len
  }

  predicate Moves(b: IpcBlock, s: int, d: int) {
    WritesTo(b, d) && s - b.src == d - b.dst
  }

  function CountTo(bs: seq<IpcBlock>, n: nat, s: int, d: int): nat
    requires n <= |bs|
  {
    if n == 0 then 0 else CountTo(bs, n - 1, s, d) + if Moves(bs[n - 1], s, d) then 1 else 0
  }

  /** Multiplicity of the pair (s, d) in the copy that `bs` performs. */
  function Count(bs: seq<IpcBlock>, s: int, d: int): nat {
    CountTo(bs, |bs|, s, d)
  }

  function WritesToCount(bs: seq<IpcBlock>, n: nat, d: int): nat
    requires n <= |bs|
  {
    if n == 0 then 0 else WritesToCount(bs, n - 1, d) + if WritesTo(bs[n - 1], d) then 1 else 0
  }

  /** How many records of `bs` write destination byte d. */
  function Writes(bs: seq<IpcBlock>, d: int): nat {
    WritesToCount(bs, |bs|, d)
  }

  /** Both lists perform the same copy, byte pair for byte pair. */
  ghost predicate SameCopy(a: seq<IpcBlock>, b: seq<IpcBlock>) {
    forall s: int, d: int :: Count(a, s, d) == Count(b, s, d)
  }

  // ---------------------------------------------------------------------------
  // Lists as sums
  // ---------------------------------------------------------------------------

  lemma {:induction false} CountPrefix(a: seq<IpcBlock>, b: seq<IpcBlock>, n: nat, s: int, d: int)
    requires n <= |a| && n <= |b| && forall i :: 0 <= i < n ==> a[i] == b[i]
    ensures CountTo(a, n, s, d) == CountTo(b, n, s, d)
    ensures WritesToCount(a, n, d) == WritesToCount(b, n, d)
  {
    if n > 0 { CountPrefix(a, b, n - 1, s, d); }
  }

  lemma {:induction false} CountAppend(a: seq<IpcBlock>, b: seq<IpcBlock>, n: nat, s: int, d: int)
    requires n <= |b|
    ensures CountTo(a + b, |a| + n, s, d) == Count(a, s, d) + CountTo(b, n, s, d)
    ensures WritesToCount(a + b, |a| + n, d) == Writes(a, d) + WritesToCount(b, n, d)
  {
    if n == 0 {
      CountPrefix(a + b, a, |a|, s, d);
    } else {
      CountAppend(a, b, n - 1, s, d);
    }
  }

  lemma CountConcat(a: seq<IpcBlock>, b: seq<IpcBlock>, s: int, d: int)
    ensures Count(a + b, s, d) == Count(a, s, d) + Count(b, s, d)
  {
    CountAppend(a, b, |b|, s, d);
  }

  lemma WritesConcat(a: seq<IpcBlock>, b: seq<IpcBlock>, d: int)
    ensures Writes(a + b, d) == Writes(a, d) + Writes(b, d)
  {
    CountAppend(a, b, |b|, 0, d);
  }

  /** The last record contributes its own pairs. */
  lemma Peel(bs: seq<IpcBlock>, s: int, d: int)
    requires bs != []
    ensures Count(bs, s, d) == Count(bs[..|bs| - 1], s, d) + if Moves(bs[|bs| - 1], s, d) then 1 else 0
    ensures Writes(bs, d) == Writes(bs[..|bs| - 1], d) + if WritesTo(bs[|bs| - 1], d) then 1 else 0
  {
    CountPrefix(bs, bs[..|bs| - 1], |bs| - 1, s, d);
  }

  lemma CountEmpty(s: int, d: int)
    ensures Count([], s, d) == 0 && Writes([], d) == 0
  {
  }

  lemma EmptyWrites()
    ensures forall d: int :: Writes([], d) == 0
  {
  }

  lemma Single(x: IpcBlock, s: int, d: int)
    ensures Count([x], s, d) == if Moves(x, s, d) then 1 else 0
    ensures Writes([x], d) == if WritesTo(x, d) then 1 else 0
  {
    assert CountTo([x], 0, s, d) == 0 && WritesToCount([x], 0, d) == 0;
  }

  lemma Push(bs: seq<IpcBlock>, x: IpcBlock, s: int, d: int)
    ensures Count(bs + [x], s, d) == Count(bs, s, d) + if Moves(x, s, d) then 1 else 0
    ensures Writes(bs + [x], d) == Writes(bs, d) + if WritesTo(x, d) then 1 else 0
  {
    CountConcat(bs, [x], s, d);
    WritesConcat(bs, [x], d);
    Single(x, s, d);
  }

  lemma SameCopyReflexive(a: seq<IpcBlock>)
    ensures SameCopy(a, a)
  {
  }

  lemma SameCopySymmetric(a: seq<IpcBlock>, b: seq<IpcBlock>)
    requires SameCopy(a, b)
    ensures SameCopy(b, a)
  {
  }

  lemma SameCopyTransitive(a: seq<IpcBlock>, b: seq<IpcBlock>, c: seq<IpcBlock>)
    requires SameCopy(a, b) && SameCopy(b, c)
    ensures SameCopy(a, c)
  {
    hide CountTo;
    forall s: int, d: int ensures Count(a, s, d) == Count(c, s, d) {
      assert Count(a, s, d) == Count(b, s, d);
    }
  }

  lemma SameCopyConcat(a: seq<IpcBlock>, a': seq<IpcBlock>, b: seq<IpcBlock>, b': seq<IpcBlock>)
    requires SameCopy(a, a') && SameCopy(b, b')
    ensures SameCopy(a + b, a' + b')
  {
    forall s: int, d: int
      ensures Count(a + b, s, d) == Count(a' + b', s, d)
    {
      CountConcat(a, b, s, d);
      CountConcat(a', b', s, d);
    }
  }

  function Without(b: seq<IpcBlock>, i: nat): seq<IpcBlock>
    requires i < |b|
  {
    b[..i] + b[i + 1..]
  }

  lemma WithoutMultiset(b: seq<IpcBlock>, i: nat)
    requires i < |b|
    ensures multiset(b) == multiset(Without(b, i)) + multiset{b[i]}
  {
    assert b == b[..i] + [b[i]] + b[i + 1..];
  }

  lemma WithoutCount(b: seq<IpcBlock>, i: nat, s: int, d: int)
    requires i < |b|
    ensures Count(b, s, d) == Count(Without(b, i), s, d) + Count([b[i]], s, d)
    ensures Writes(b, d) == Writes(Without(b, i), d) + Writes([b[i]], d)
  {
    assert b == b[..i] + ([b[i]] + b[i + 1..]);
    CountConcat(b[..i], [b[i]] + b[i + 1..], s, d);
    CountConcat([b[i]], b[i + 1..], s, d);
    CountConcat(b[..i], b[i + 1..], s, d);
    WritesConcat(b[..i], [b[i]] + b[i + 1..], d);
    WritesConcat([b[i]], b[i + 1..], d);
    WritesConcat(b[..i], b[i + 1..], d);
  }

  lemma {:induction false} PermutationCount(a: seq<IpcBlock>, b: seq<IpcBlock>, s: int, d: int)
    requires multiset(a) == multiset(b)
    ensures Count(a, s, d) == Count(b, s, d)
    ensures Writes(a, d) == Writes(b, d)
    decreases |a|
  {
    if a == [] {
      assert |multiset(b)| == 0;
    } else {
      var n := |a| - 1;
      assert a[n] in multiset(b);
      var i :| 0 <= i < |b| && b[i] == a[n];
      WithoutMultiset(a, n);
      WithoutMultiset(b, i);
      assert multiset(Without(a, n)) == multiset(a) - multiset{a[n]} == multiset(Without(b, i));
      PermutationCount(Without(a, n), Without(b, i), s, d);
      WithoutCount(a, n, s, d);
      WithoutCount(b, i, s, d);
    }
  }

  /** Reordering the records of a list changes neither the copy nor the write counts. */
  lemma PermutationSameCopy(a: seq<IpcBlock>, b: seq<IpcBlock>)
    requires multiset(a) == multiset(b)
    ensures SameCopy(a, b)
  {
    forall s: int, d: int
      ensures Count(a, s, d) == Count(b, s, d)
    {
      PermutationCount(a, b, s, d);
    }
  }

  // ---------------------------------------------------------------------------
  // Writes is the marginal of Count
  // ---------------------------------------------------------------------------

  /** Pairs (s, d) with 0 <= s < n, counted with multiplicity. */
  ghost function Marginal(bs: seq<IpcBlock>, d: int, n: nat): nat {
    if n == 0 then 0 else Marginal(bs, d, n - 1) + Count(bs, n - 1, d)
  }

  ghost predicate ReadsBelow(bs: seq<IpcBlock>, n: int) {
    forall b <- bs :: b.src + b.len <= n
  }

  lemma {:induction false} MarginalPush(bs: seq<IpcBlock>, x: IpcBlock, d: int, n: nat)
    ensures Marginal(bs + [x], d, n) == Marginal(bs, d, n) + Marginal([x], d, n)
  {
    if n > 0 {
      MarginalPush(bs, x, d, n - 1);
      CountConcat(bs, [x], n - 1, d);
    }
  }

  lemma {:induction false} MarginalOne(x: IpcBlock, d: int, n: nat)
    ensures Marginal([x], d, n) == if WritesTo(x, d) && x.src + d - x.dst < n then 1 else 0
  {
    if n > 0 {
      MarginalOne(x, d, n - 1);
      Single(x, n - 1, d);
    }
  }

  lemma {:induction false} WritesIsMarginal(bs: seq<IpcBlock>, d: int, n: nat)
    requires ReadsBelow(bs, n)
    ensures Writes(bs, d) == Marginal(bs, d, n)
  {
    if bs == [] {
      MarginalEmpty(d, n);
    } else {
      var k := |bs| - 1;
      assert bs == bs[..k] + [bs[k]];
      WritesIsMarginal(bs[..k], d, n);
      Peel(bs, 0, d);
      MarginalPush(bs[..k], bs[k], d, n);
      MarginalOne(bs[k], d, n);
    }
  }

  lemma {:induction false} MarginalEmpty(d: int, n: nat)
    ensures Marginal([], d, n) == 0
  {
    if n > 0 { MarginalEmpty(d, n - 1); }
  }

  lemma {:induction false} MarginalSame(a: seq<IpcBlock>, b: seq<IpcBlock>, d: int, n: nat)
    requires SameCopy(a, b)
    ensures Marginal(a, d, n) == Marginal(b, d, n)
  {
    if n > 0 { MarginalSame(a, b, d, n - 1); }
  }

  lemma {:induction false} ReadLimit(bs: seq<IpcBlock>) returns (n: nat)
    ensures ReadsBelow(bs, n)
  {
    if bs == [] {
      n := 0;
    } else {
      var k := |bs| - 1;
      var m := ReadLimit(bs[..k]);
      n := m + bs[k].src + bs[k].len;
    }
  }

  /** Two lists that perform the same copy write every destination byte equally often. */
  lemma SameCopySameWrites(a: seq<IpcBlock>, b: seq<IpcBlock>, d: int)
    requires SameCopy(a, b)
    ensures Writes(a, d) == Writes(b, d)
  {
    var n := ReadLimit(a);
    var m := ReadLimit(b);
    WritesIsMarginal(a, d, n + m);
    WritesIsMarginal(b, d, n + m);
    MarginalSame(a, b, d, n + m);
  }

  // ---------------------------------------------------------------------------
  // Counting writes by index
  // ---------------------------------------------------------------------------

  lemma {:induction false} WritesNone(bs: seq<IpcBlock>, d: int)
    requires forall b <- bs :: !WritesTo(b, d)
    ensures Writes(bs, d) == 0
  {
    if bs != [] {
      Peel(bs, 0, d);
      WritesNone(bs[..|bs| - 1], d);
    }
  }

  /** If only record i writes byte d, the byte is written once, from record i's source. */
  lemma {:induction false} WritesUnique(bs: seq<IpcBlock>, d: int, i: nat, s: int)
    requires i < |bs| && WritesTo(bs[i], d)
    requires forall j :: 0 <= j < |bs| && j != i ==> !WritesTo(bs[j], d)
    ensures Writes(bs, d) == 1
    ensures Count(bs, s, d) == if Moves(bs[i], s, d) then 1 else 0
  {
    var n := |bs| - 1;
    Peel(bs, s, d);
    if i == n {
      WritesNone(bs[..n], d);
      CountLeWrites(bs[..n], s, d);
    } else {
      WritesUnique(bs[..n], d, i, s);
    }
  }

  lemma {:induction false} CountLeWrites(bs: seq<IpcBlock>, s: int, d: int)
    ensures Count(bs, s, d) <= Writes(bs, d)
  {
    if bs != [] {
      Peel(bs, s, d);
      CountLeWrites(bs[..|bs| - 1], s, d);
    }
  }

  // ---------------------------------------------------------------------------
  // Splitting a record into a run of adjacent ones
  // ---------------------------------------------------------------------------

  /** n adjacent records of h bytes each, starting at (s, d). */
  function Run(s: nat, d: nat, h: nat, n: nat): (r: seq<IpcBlock>)
    ensures |r| == n
    ensures forall i :: 0 <= i < n ==> r[i] == IpcBlock(s + i * h, d + i * h, h)
  {
    if n == 0 then [] else Run(s, d, h, n - 1) + [IpcBlock(s + (n - 1) * h, d + (n - 1) * h, h)]
  }

  lemma {:induction false} RunIsOneBlock(s: nat, d: nat, h: nat, n: nat)
    ensures SameCopy(Run(s, d, h, n), [IpcBlock(s, d, n * h)])
  {
    if n > 0 {
      RunIsOneBlock(s, d, h, n - 1);
      assert n * h == (n - 1) * h + h;
      var last := IpcBlock(s + (n - 1) * h, d + (n - 1) * h, h);
      forall x: int, y: int
        ensures Count(Run(s, d, h, n), x, y) == Count([IpcBlock(s, d, n * h)], x, y)
      {
        Push(Run(s, d, h, n - 1), last, x, y);
        Single(IpcBlock(s, d, (n - 1) * h), x, y);
        Single(IpcBlock(s, d, n * h), x, y);
      }
    } else {
      forall x: int, y: int
        ensures Count(Run(s, d, h, n), x, y) == Count([IpcBlock(s, d, n * h)], x, y)
      {
        Single(IpcBlock(s, d, n * h), x, y);
      }
    }
  }

  // ---------------------------------------------------------------------------
  // Exchanging the two sides
  // ---------------------------------------------------------------------------

  function Swap(b: IpcBlock): IpcBlock {
    IpcBlock(b.dst, b.src, b.len)
  }

  function Mirror(bs: seq<IpcBlock>): (r: seq<IpcBlock>)
    ensures |r| == |bs| && forall i :: 0 <= i < |bs| ==> r[i] == Swap(bs[i])
  {
    if bs == [] then [] else Mirror(bs[..|bs| - 1]) + [Swap(bs[|bs| - 1])]
  }

  lemma {:induction false} MirrorCount(bs: seq<IpcBlock>, s: int, d: int)
    ensures Count(Mirror(bs), d, s) == Count(bs, s, d)
  {
    if bs != [] {
      var n := |bs| - 1;
      MirrorCount(bs[..n], s, d);
      Peel(bs, s, d);
      Push(Mirror(bs[..n]), Swap(bs[n]), d, s);
      assert Moves(Swap(bs[n]), d, s) == Moves(bs[n], s, d);
    }
  }

  lemma MirrorConcat(a: seq<IpcBlock>, b: seq<IpcBlock>)
    ensures Mirror(a + b) == Mirror(a) + Mirror(b)
  {
    assert forall i :: 0 <= i < |a + b| ==> Mirror(a + b)[i] == (Mirror(a) + Mirror(b))[i];
  }

  // ---------------------------------------------------------------------------
  // Effect on memory
  // ---------------------------------------------------------------------------

  type Memory = int -> int

  function CopyOne(b: IpcBlock, from: Memory, to: Memory): Memory {
    (d: int) => if WritesTo(b, d) then from(b.src + d - b.dst) else to(d)
  }

  /** Performs the records of `bs` in order. */
  function Transfer(bs: seq<IpcBlock>, from: Memory, to: Memory): Memory {
    if bs == [] then to
    else CopyOne(bs[|bs| - 1], from, Transfer(bs[..|bs| - 1], from, to))
  }

  lemma {:induction false} TransferUntouched(bs: seq<IpcBlock>, from: Memory, to: Memory, d: int)
    requires Writes(bs, d) == 0
    ensures Transfer(bs, from, to)(d) == to(d)
  {
    if bs != [] {
      Peel(bs, 0, d);
      TransferUntouched(bs[..|bs| - 1], from, to, d);
    }
  }

  /** Where a byte is written once, the order of the records does not matter: the byte
      holds the source byte it is paired with. */
  lemma {:induction false} TransferOnce(bs: seq<IpcBlock>, from: Memory, to: Memory, s: int, d: int)
    requires Writes(bs, d) == 1 && Count(bs, s, d) == 1
    ensures Transfer(bs, from, to)(d) == from(s)
  {
    var n := |bs| - 1;
    Peel(bs, s, d);
    CountLeWrites(bs[..n], s, d);
    if !WritesTo(bs[n], d) {
      TransferOnce(bs[..n], from, to, s, d);
    }
  }
}
