/** Coalescing a transfer list before it is handed to the channel. */
module MergeInterval {
  import opened Copies
  import opened RangeCheck

  predicate CanMerge(pre: IpcBlock, cur: IpcBlock) {
    cur.src == pre.src + pre.len && cur.dst == pre.dst + pre.len
  }

  /** The records that still copy something. */
  function Survivors(bs: seq<IpcBlock>): (r: seq<IpcBlock>)
    ensures forall b <- r :: b in bs && b.len > 0
  {
    if bs == [] then []
    else if bs[|bs| - 1].len > 0 then Survivors(bs[..|bs| - 1]) + [bs[|bs| - 1]]
    else Survivors(bs[..|bs| - 1])
  }

  ghost predicate NoneMergeable(bs: seq<IpcBlock>) {
    forall i :: 0 <= i < |bs| - 1 ==>
      !(bs[i + 1].src == bs[i].src + bs[i].len && bs[i + 1].dst == bs[i].dst + bs[i].len)
  }

  function TotalLength(bs: seq<IpcBlock>): nat {
    if bs == [] then 0 else TotalLength(bs[..|bs| - 1]) + bs[|bs| - 1].len
  }

  ghost predicate SortedBySource(bs: seq<IpcBlock>) {
    forall i, j :: 0 <= i < j < |bs| ==> bs[i].src <= bs[j].src
  }

  ghost predicate AllPositive(bs: seq<IpcBlock>) {
    forall i :: 0 <= i < |bs| ==> bs[i].len > 0
  }

  // ---------------------------------------------------------------------------
  // Merging two records
  // ---------------------------------------------------------------------------

  lemma MergePair(x: IpcBlock, y: IpcBlock, s: int, d: int)
    requires CanMerge(x, y)
    ensures Count([x, y], s, d) == Count([IpcBlock(x.src, x.dst, x.len + y.len)], s, d)
  {
    assert [x, y] == [x] + [y];
    Push([x], y, s, d);
    Single(x, s, d);
    Single(IpcBlock(x.src, x.dst, x.len + y.len), s, d);
  }

  /** Replacing two adjacent records by their union keeps the copy. */
  lemma MergeInside(done: seq<IpcBlock>, x: IpcBlock, y: IpcBlock, rest: seq<IpcBlock>)
    requires CanMerge(x, y)
    ensures SameCopy(done + [x] + ([y] + rest), done + [IpcBlock(x.src, x.dst, x.len + y.len)] + rest)
  {
    hide CountTo;
    var z := IpcBlock(x.src, x.dst, x.len + y.len);
    assert done + [x] + ([y] + rest) == done + ([x, y] + rest);
    assert done + [z] + rest == done + ([z] + rest);
    forall s: int, d: int
      ensures Count(done + ([x, y] + rest), s, d) == Count(done + ([z] + rest), s, d)
    {
      MergePair(x, y, s, d);
      CountConcat(done, [x, y] + rest, s, d);
      CountConcat([x, y], rest, s, d);
      CountConcat(done, [z] + rest, s, d);
      CountConcat([z], rest, s, d);
    }
  }

  lemma {:induction false} TotalConcat(a: seq<IpcBlock>, b: seq<IpcBlock>)
    ensures TotalLength(a + b) == TotalLength(a) + TotalLength(b)
  {
    if b == [] {
      assert a + b == a;
    } else {
      var n := |b| - 1;
      assert (a + b)[..|a + b| - 1] == a + b[..n];
      TotalConcat(a, b[..n]);
    }
  }

  /** Records of length 0 between two survivors disappear. */
  lemma {:induction false} SurvivorsSkip(bs: seq<IpcBlock>, p: nat, i: nat)
    requires p < i <= |bs| && bs[p].len > 0 && forall j :: p < j < i ==> bs[j].len == 0
    ensures Survivors(bs[..i]) == Survivors(bs[..p]) + [bs[p]]
  {
    assert bs[..i][..i - 1] == bs[..i - 1];
    if p < i - 1 {
      SurvivorsSkip(bs, p, i - 1);
    }
  }

  // ---------------------------------------------------------------------------
  // The method
  // ---------------------------------------------------------------------------

  /** Any sort by source offset will do: ties may come out in any order. */
  method SortBySource(a: array<IpcBlock>)
    modifies a
    ensures SortedBySource(a[..])
    ensures multiset(a[..]) == multiset(old(a[..]))
  {
    var i := 0;
    while i < a.Length
      invariant 0 <= i <= a.Length
      invariant forall x, y :: 0 <= x < y < a.Length && x < i ==> a[x].src <= a[y].src
      invariant multiset(a[..]) == multiset(old(a[..]))
    {
      var m := LeastFrom(a, i);
      SwapTwo(a, i, m);
      i := i + 1;
    }
  }

  method LeastFrom(a: array<IpcBlock>, i: nat) returns (m: nat)
    requires i < a.Length
    ensures i <= m < a.Length
    ensures forall y :: i <= y < a.Length ==> a[m].src <= a[y].src
  {
    m := i;
    var j := i + 1;
    while j < a.Length
      invariant i <= m < j <= a.Length
      invariant forall y :: i <= y < j ==> a[m].src <= a[y].src
    {
      if a[j].src < a[m].src { m := j; }
      j := j + 1;
    }
  }

  method SwapTwo(a: array<IpcBlock>, i: nat, m: nat)
    requires i <= m < a.Length
    modifies a
    ensures a[i] == old(a[m]) && a[m] == old(a[i])
    ensures forall y :: 0 <= y < a.Length && y != i && y != m ==> a[y] == old(a[y])
    ensures multiset(a[..]) == multiset(old(a[..]))
  {
    a[i], a[m] := a[m], a[i];
  }

  /** min, max, total and count of the survivors found so far. */
  datatype Stats = Stats(minSize: nat, maxSize: nat, totalSize: nat, cnt: nat)

  ghost predicate StatsOf(st: Stats, bs: seq<IpcBlock>) {
    && st.cnt == |bs| && st.totalSize == TotalLength(bs)
    && (forall i :: 0 <= i < |bs| ==> st.minSize <= bs[i].len <= st.maxSize)
    && (bs == [] ==> st.minSize == SIZE_MAX && st.maxSize == 0)
    && (bs != [] ==> (exists i :: 0 <= i < |bs| && bs[i].len == st.minSize) && exists i :: 0 <= i < |bs| && bs[i].len == st.maxSize)
  }

  method AddToStats(st: Stats, b: IpcBlock, ghost bs: seq<IpcBlock>) returns (r: Stats)
    requires StatsOf(st, bs) && b.len <= SIZE_MAX
    ensures StatsOf(r, bs + [b])
  {
    r := Stats(if b.len < st.minSize then b.len else st.minSize, if b.len > st.maxSize then b.len else st.maxSize,
               st.totalSize + b.len, st.cnt + 1);
    AddOne(st, b, bs, r);
  }

  lemma AddOne(st: Stats, b: IpcBlock, bs: seq<IpcBlock>, r: Stats)
    requires StatsOf(st, bs) && b.len <= SIZE_MAX
    requires r == Stats(if b.len < st.minSize then b.len else st.minSize, if b.len > st.maxSize then b.len else st.maxSize,
                        st.totalSize + b.len, st.cnt + 1)
    ensures StatsOf(r, bs + [b])
  {
    var c := bs + [b];
    var n := |bs|;
    TotalConcat(bs, [b]);
    assert TotalLength([b]) == TotalLength([]) + b.len;
    assert c[n] == b && forall i :: 0 <= i < n ==> c[i] == bs[i];
    if bs != [] {
      var lo :| 0 <= lo < n && bs[lo].len == st.minSize;
      var hi :| 0 <= hi < n && bs[hi].len == st.maxSize;
      assert c[lo].len == st.minSize && c[hi].len == st.maxSize;
    }
  }

  lemma {:induction false} TotalPermutation(a: seq<IpcBlock>, b: seq<IpcBlock>)
    requires multiset(a) == multiset(b)
    ensures TotalLength(a) == TotalLength(b)
    decreases |a|
  {
    hide TotalLength;
    if a == [] {
      assert |multiset(b)| == 0;
      assert b == [];
    } else {
      var n := |a| - 1;
      assert a[n] in multiset(b);
      var i :| 0 <= i < |b| && b[i] == a[n];
      WithoutMultiset(a, n);
      WithoutMultiset(b, i);
      assert multiset(Without(a, n)) == multiset(a) - multiset{a[n]} == multiset(Without(b, i));
      TotalPermutation(Without(a, n), Without(b, i));
      WithoutTotal(a, n);
      WithoutTotal(b, i);
    }
  }

  lemma WithoutTotal(b: seq<IpcBlock>, i: nat)
    requires i < |b|
    ensures TotalLength(b) == TotalLength(Without(b, i)) + b[i].len
  {
    hide TotalLength;
    assert b == b[..i] + ([b[i]] + b[i + 1..]);
    TotalConcat(b[..i], [b[i]] + b[i + 1..]);
    TotalConcat([b[i]], b[i + 1..]);
    TotalConcat(b[..i], b[i + 1..]);
    OneTotal(b[i]);
  }

  /** Loop state: `cur` is the array, `done` the closed survivors, prev the open one, and
      idx the next record of the sorted list. */
  ghost predicate Merging(cur: seq<IpcBlock>, sorted: seq<IpcBlock>, prev: nat, idx: nat, done: seq<IpcBlock>) {
    && prev < idx <= |cur| == |sorted|
    && done == Survivors(cur[..prev]) && cur[prev].len > 0
    && (forall j :: prev < j < idx ==> cur[j].len == 0)
    && (forall j :: idx <= j < |cur| ==> cur[j] == sorted[j])
    && SameCopy(done + [cur[prev]] + sorted[idx..], sorted)
    && TotalLength(done + [cur[prev]] + sorted[idx..]) == TotalLength(sorted)
    && NoneMergeable(done + [cur[prev]])
  }

  lemma MergingStart(sorted: seq<IpcBlock>)
    requires sorted != [] && AllPositive(sorted)
    ensures Merging(sorted, sorted, 0, 1, [])
  {
    assert [] + [sorted[0]] + sorted[1..] == sorted;
    assert sorted[..0] == [];
  }

  lemma MergeTotal(done: seq<IpcBlock>, x: IpcBlock, y: IpcBlock, rest: seq<IpcBlock>)
    ensures TotalLength(done + [x] + ([y] + rest)) == TotalLength(done + [IpcBlock(x.src, x.dst, x.len + y.len)] + rest)
  {
    var z := IpcBlock(x.src, x.dst, x.len + y.len);
    TotalConcat(done + [x], [y] + rest);
    TotalConcat(done, [x]);
    TotalConcat([y], rest);
    TotalConcat(done + [z], rest);
    TotalConcat(done, [z]);
    OneTotal(x);
    OneTotal(y);
    OneTotal(z);
  }

  lemma OneTotal(x: IpcBlock)
    ensures TotalLength([x]) == x.len
  {
    assert TotalLength([x]) == TotalLength([]) + x.len;
  }

  lemma MergingGrow(cur: seq<IpcBlock>, sorted: seq<IpcBlock>, prev: nat, idx: nat, done: seq<IpcBlock>,
                    next: seq<IpcBlock>)
    requires Merging(cur, sorted, prev, idx, done) && idx < |cur| && CanMerge(cur[prev], cur[idx])
    requires next == cur[prev := cur[prev].(len := cur[prev].len + cur[idx].len)][idx := cur[idx].(len := 0)]
    ensures Merging(next, sorted, prev, idx + 1, done)
  {
    hide CountTo, TotalLength, Survivors;
    var x, y, rest := cur[prev], cur[idx], sorted[idx + 1..];
    assert sorted[idx..] == [y] + rest;
    MergeInside(done, x, y, rest);
    MergeTotal(done, x, y, rest);
    var z := next[prev];
    assert next[..prev] == cur[..prev];
    assert SameCopy(done + [z] + rest, sorted) by {
      SameCopySymmetric(done + [x] + ([y] + rest), done + [z] + rest);
      SameCopyTransitive(done + [z] + rest, done + [x] + ([y] + rest), sorted);
    }
    LastGrows(done, x, z);
  }

  lemma LastGrows(done: seq<IpcBlock>, x: IpcBlock, z: IpcBlock)
    requires NoneMergeable(done + [x]) && z.src == x.src && z.dst == x.dst
    ensures NoneMergeable(done + [z])
  {
    forall i | 0 <= i < |done|
      ensures !CanMerge((done + [z])[i], (done + [z])[i + 1])
    {
      assert !CanMerge((done + [x])[i], (done + [x])[i + 1]);
    }
  }

  lemma MergingClose(cur: seq<IpcBlock>, sorted: seq<IpcBlock>, prev: nat, idx: nat, done: seq<IpcBlock>)
    requires Merging(cur, sorted, prev, idx, done) && idx < |cur| && !CanMerge(cur[prev], cur[idx]) && AllPositive(sorted)
    ensures Merging(cur, sorted, idx, idx + 1, done + [cur[prev]])
  {
    hide CountTo, TotalLength, SameCopy;
    var x, y, rest := cur[prev], cur[idx], sorted[idx + 1..];
    assert sorted[idx..] == [y] + rest;
    assert done + [x] + [y] + rest == done + [x] + ([y] + rest);
    SurvivorsSkip(cur, prev, idx);
    var b := done + [x] + [y];
    forall i | 0 <= i < |b| - 1
      ensures !CanMerge(b[i], b[i + 1])
    {
      if i < |done| { assert !CanMerge((done + [x])[i], (done + [x])[i + 1]); }
    }
  }

  lemma MergingDone(cur: seq<IpcBlock>, sorted: seq<IpcBlock>, prev: nat, done: seq<IpcBlock>)
    requires Merging(cur, sorted, prev, |cur|, done)
    ensures Survivors(cur) == done + [cur[prev]] && SameCopy(Survivors(cur), sorted)
    ensures NoneMergeable(Survivors(cur)) && TotalLength(Survivors(cur)) == TotalLength(sorted)
  {
    hide CountTo, TotalLength;
    assert cur[..|cur|] == cur;
    SurvivorsSkip(cur, prev, |cur|);
    assert done + [cur[prev]] + sorted[|cur|..] == done + [cur[prev]];
  }

  lemma OpenFits(cur: seq<IpcBlock>, sorted: seq<IpcBlock>, prev: nat, idx: nat, done: seq<IpcBlock>)
    requires Merging(cur, sorted, prev, idx, done)
    ensures cur[prev].len <= TotalLength(sorted)
  {
    TotalConcat(done + [cur[prev]], sorted[idx..]);
    TotalConcat(done, [cur[prev]]);
    OneTotal(cur[prev]);
  }

  /** Sorts by source offset and folds every record into its predecessor when the two are
      adjacent on both sides; folded records are left with length 0. What survives performs
      the same copy, has no two neighbours left to fold, and is what the returned minimum,
      maximum, total and count describe. */
  method Merge(input: array<IpcBlock>) returns (st: Stats)
    requires AllPositive(input[..]) && TotalLength(input[..]) <= SIZE_MAX
    modifies input
    ensures SameCopy(Survivors(input[..]), old(input[..]))
    ensures NoneMergeable(Survivors(input[..]))
    ensures StatsOf(st, Survivors(input[..]))
    ensures st.totalSize == TotalLength(old(input[..]))
  {
    hide *;
    SortBySource(input);
    ghost var sorted := input[..];
    SortedFacts(old(input[..]), sorted);
    st := Stats(SIZE_MAX, 0, 0, 0);
    ghost var done: seq<IpcBlock> := [];
    NoStats();
    var prev := 0;
    if input.Length > 0 {
      MergingStart(sorted);
      var idx := 1;
      while idx < input.Length
        invariant Merging(input[..], sorted, prev, idx, done)
        invariant StatsOf(st, done)
        invariant prev < idx <= input.Length
      {
        ghost var cur := input[..];
        if CanMerge(input[prev], input[idx]) {
          input[prev] := input[prev].(len := input[prev].len + input[idx].len);
          input[idx] := input[idx].(len := 0);
          MergingGrow(cur, sorted, prev, idx, done, input[..]);
        } else {
          OpenFits(cur, sorted, prev, idx, done);
          st := AddToStats(st, input[prev], done);
          MergingClose(cur, sorted, prev, idx, done);
          done := done + [cur[prev]];
          prev := idx;
        }
        idx := idx + 1;
      }
      OpenFits(input[..], sorted, prev, idx, done);
      st := AddToStats(st, input[prev], done);
      MergingDone(input[..], sorted, prev, done);
      SameCopyTransitive(Survivors(input[..]), sorted, old(input[..]));
      StatsTotal(st, Survivors(input[..]));
    } else {
      assert input[..] == old(input[..]) == [];
      SameCopyReflexive([]);
      EmptyList();
    }
  }

  lemma SortedFacts(before: seq<IpcBlock>, sorted: seq<IpcBlock>)
    requires multiset(sorted) == multiset(before) && AllPositive(before)
    ensures AllPositive(sorted) && SameCopy(sorted, before) && TotalLength(sorted) == TotalLength(before)
    ensures |sorted| == |before|
  {
    PermutationSameCopy(sorted, before);
    TotalPermutation(sorted, before);
    assert |multiset(sorted)| == |multiset(before)|;
    forall i | 0 <= i < |sorted|
      ensures sorted[i].len > 0
    {
      assert sorted[i] in multiset(before);
    }
  }

  lemma NoStats()
    ensures StatsOf(Stats(SIZE_MAX, 0, 0, 0), [])
  {
  }

  lemma StatsTotal(st: Stats, bs: seq<IpcBlock>)
    requires StatsOf(st, bs)
    ensures st.totalSize == TotalLength(bs)
  {
  }

  lemma EmptyList()
    ensures Survivors([]) == [] && NoneMergeable([]) && TotalLength([]) == 0
  {
  }
}
