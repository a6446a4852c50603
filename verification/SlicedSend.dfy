/** Drivers of the sliced P < D regime, for the FlashAttention and the FlashInfer pages. */
module SlicedSend {
  import opened Arith
  import opened Copies
  import opened RangeCheck
  import opened ZeroFill
  import opened PageLayout
  import opened Reshard
  import opened Sequences
  import opened TailFill
  import AttnParser
  import HndParser
  import Placement

  /** The sizes the driver asserts: a P row is a whole number of D rows, and the slices are
      shared evenly by the D ranks. */
  predicate SlicedSizes(pToken: nat, dToken: nat, pTp: nat, dTp: nat) {
    && pTp > 0 && dTp > 0 && 0 < dToken < pToken && pToken % dToken == 0
    && dTp % (pTp * (pToken / dToken)) == 0
  }

  /** With the heads cut into pTp * groupN slices, each kept by `replicas` consecutive D ranks,
      D rank dRank keeps slice dRank / replicas; that is slice `off` of the groupN slices held by
      the P rank it is mapped to. */
  predicate OwnsSlice(groupN: nat, pTp: nat, dTp: nat, dRank: nat, off: nat) {
    && groupN > 0 && pTp > 0 && pTp * groupN > 0 && dTp / (pTp * groupN) > 0 && dTp / pTp > 0
    && off < groupN && dRank / (dTp / pTp) < pTp
    && dRank / (dTp / (pTp * groupN)) == dRank / (dTp / pTp) * groupN + off
  }

  lemma Rearrange(a: nat, b: nat, c: nat)
    ensures a * b * c == (b * c) * a
  {
  }

  lemma SliceBelongsToRank(pTp: nat, dTp: nat, groupN: nat, replicas: nat, fanOut: nat, dRank: nat, pRank: nat,
                           off: nat)
    requires pTp > 0 && groupN > 0 && replicas > 0 && fanOut > 0
    requires dTp == pTp * groupN * replicas && fanOut == dTp / pTp && dRank < dTp
    requires pRank == dRank / fanOut && off == dRank / replicas % groupN
    ensures dRank / replicas == pRank * groupN + off && pRank < pTp && off < groupN
  {
    assert dTp == (groupN * replicas) * pTp by { Rearrange(pTp, groupN, replicas); }
    assert fanOut == groupN * replicas by { DivMod0(groupN * replicas, pTp); }
    SliceDigits(dRank, replicas, groupN, fanOut);
    RankBelow(dRank, pTp, fanOut);
  }

  lemma SliceDigits(dRank: nat, replicas: nat, groupN: nat, fanOut: nat)
    requires replicas > 0 && groupN > 0 && fanOut == groupN * replicas && fanOut > 0
    ensures dRank / replicas == dRank / fanOut * groupN + dRank / replicas % groupN
  {
    var q, a, b := Digits(dRank, replicas, groupN, fanOut);
    assert dRank == (q * groupN + a) * replicas + b by {
      assert q * fanOut == (q * groupN) * replicas;
      Distribute(q * groupN, a, replicas);
    }
    assert dRank / replicas == q * groupN + a by { DivMod(q * groupN + a, replicas, b); }
    assert (q * groupN + a) % groupN == a by { DivMod(q, groupN, a); }
  }

  lemma RankBelow(r: nat, n: nat, m: nat)
    requires m > 0 && r < m * n
    ensures r / m < n
  {
    if n <= r / m { MulMono(n, r / m, m); }
  }

  lemma Replicas(pToken: nat, dToken: nat, pTp: nat, dTp: nat)
    requires SlicedSizes(pToken, dToken, pTp, dTp)
    ensures var n := pToken / dToken;
            && n > 0 && pTp * n > 0 && dTp / (pTp * n) > 0 && dTp == pTp * n * (dTp / (pTp * n))
            && dTp / pTp > 0
  {
    var n := pToken / dToken;
    MulMono(1, n, pTp);
    var m := pTp * n;
    ExactDiv(dTp, m);
    var r := dTp / m;
    assert dTp == (n * r) * pTp by { Rearrange(pTp, n, r); }
    DivMod0(n * r, pTp);
    MulMono(1, n, r);
  }

  lemma ComputedSlice(pToken: nat, dToken: nat, pTp: nat, dTp: nat, dRank: nat, off: nat)
    requires SlicedSizes(pToken, dToken, pTp, dTp) && dRank < dTp
    requires pTp * (pToken / dToken) > 0 && dTp / (pTp * (pToken / dToken)) > 0 && pToken / dToken > 0
    requires off == dRank / (dTp / (pTp * (pToken / dToken))) % (pToken / dToken)
    ensures OwnsSlice(pToken / dToken, pTp, dTp, dRank, off)
  {
    Replicas(pToken, dToken, pTp, dTp);
    var n := pToken / dToken;
    SliceBelongsToRank(pTp, dTp, n, dTp / (pTp * n), dTp / pTp, dRank, dRank / (dTp / pTp), off);
  }

  /** Attention part of the sliced regime. Cuts the slice this D rank owns out of the P rows
      and, on completion, clears the rest of the allocated rows; the records are `tokens`
      followed by `fill`. p and d are the two sides, d with k subs: the layers of a pack for
      FlashAttention, its heads for FlashInfer. */
  method SendSlicedAttn(p: Side, d: Side, k: nat, pTokenSize: nat, dTokenSize: nat, pTp: nat, dTp: nat, dRank: nat,
                        seen: nat, new_: nat, padLastBlock: bool, reachLastToken: bool, bounds: Bounds,
                        ghost pPages: nat, ghost dPages: nat)
    returns (ok: bool, tokens: seq<IpcBlock>, fill: seq<IpcBlock>, groupOff: nat)
    requires bounds.Valid() && SlicedSizes(pTokenSize, dTokenSize, pTp, dTp) && dRank < dTp
    requires dTokenSize > 0 && Job(d, p, k, pTokenSize / dTokenSize, 0, true).Valid()
    requires d.layout == HeadMajor ==> d.cells == 1
    requires p.Holds(seen + new_) && d.Holds(seen + new_) && Distinct(d.blocks)
    requires seen + new_ < d.Capacity() ==> p.blocks != []
    ensures OwnsSlice(pTokenSize / dTokenSize, pTp, dTp, dRank, groupOff)
    ensures TablesInTensors(Job(d, p, k, pTokenSize / dTokenSize, groupOff, true), bounds, dPages, pPages) ==> ok
    ensures ok ==> SameCopy(tokens, Job(d, p, k, pTokenSize / dTokenSize, groupOff, true).Reference(seen, seen + new_))
    ensures ok ==> Placement.AllPlaced(tokens, d, p, k, pTokenSize / dTokenSize, groupOff, true, seen, seen + new_)
    ensures ok && !(padLastBlock && reachLastToken) ==> fill == []
    ensures ok && padLastBlock && reachLastToken ==> forall x: int ::
              Writes(tokens + fill, x) == if InRows(d, k, seen, d.Capacity(), x) then 1 else 0
    ensures ok && fill != [] ==> p.blocks != [] && ReadsZeroBlock(fill, 0, Times(p.blocks[0], p.blockSize), p.blockSize)
  {
    hide *;
    fill := [];
    var attnGroupN := pTokenSize / dTokenSize;
    Replicas(pTokenSize, dTokenSize, pTp, dTp);
    var replicas := dTp / (pTp * attnGroupN);
    groupOff := dRank / replicas % attnGroupN;
    ComputedSlice(pTokenSize, dTokenSize, pTp, dTp, dRank, groupOff);
    ghost var j := Job(d, p, k, attnGroupN, groupOff, true);
    SliceJob(p, d, k, attnGroupN, groupOff, seen + new_);
    if TablesInTensors(j, bounds, dPages, pPages) {
      JobInRange(j, seen, seen + new_, bounds, dPages, pPages);
      Unscaled(j, bounds, dPages, pPages);
    }
    if d.layout == TokenMajor {
      FlashParsable(j, seen + new_);
      ok, tokens := AttnParser.ParseHybridAttnBlock(d, p, seen, new_, groupOff, k, bounds, true, attnGroupN);
      PackIs(k);
    } else {
      ok, tokens := HndParser.ParseHybridHndBlock(d, p, seen, new_, attnGroupN, groupOff, k, bounds, true);
    }
    if ok && padLastBlock && reachLastToken {
      if TablesInTensors(j, bounds, dPages, pPages) && seen + new_ < d.Capacity() {
        TailFits(j, seen + new_, bounds, dPages, pPages);
      }
      ok, fill := FillTail(p.blocks, p.blockSize, d, k, seen + new_, bounds);
      if ok {
        Completed(j, seen, seen + new_, tokens, fill);
      }
    }
  }

  lemma SliceJob(p: Side, d: Side, k: nat, n: nat, off: nat, end: nat)
    requires Job(d, p, k, n, 0, true).Valid() && off < n && d.Holds(end)
    ensures Job(d, p, k, n, off, true).Valid() && d.Valid(k) && k > 0 && p.blockSize > 0 && end <= d.Capacity()
    ensures p.layout == d.layout
  {
    PageBytesPositive(p, Job(d, p, k, n, 0, true).WideSubs());
  }

  lemma Unscaled(j: Job, bounds: Bounds, narrowPages: nat, widePages: nat)
    requires TablesInTensors(j, bounds, narrowPages, widePages)
    ensures bounds.srcScale == 1
  {
  }

  lemma FlashParsable(j: Job, end: nat)
    requires j.Valid() && j.p.layout == TokenMajor && j.p.Holds(end) && j.d.Holds(end)
    ensures AttnParser.Pack(j.k) == j.k
    ensures AttnParser.Parsable(j.p, AttnParser.Pack(j.k), end) && AttnParser.Parsable(j.d, AttnParser.Pack(j.k), end)
  {
  }

  lemma PackIs(k: nat)
    requires k > 0
    ensures AttnParser.Pack(k) == k
  {
  }
}
