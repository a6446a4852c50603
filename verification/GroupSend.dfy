/** Drivers of the P > D regime: every rank of a group sends its heads to the receiving rank they
    share, and on completion pads its part of the last page. */
module GroupSend {
  import opened Arith
  import opened Copies
  import opened LastFill
  import opened PageLayout
  import opened RangeCheck
  import opened Reshard
  import opened Sequences
  import opened ZeroFill
  import AttnParser
  import HndParser
  import Placement
  import TailFill

  datatype Sending = AssertionFailed | RangeFailed | Sent(tokens: seq<IpcBlock>, fill: seq<IpcBlock>)

  /** The padding of a rank runs into the assertion on its source side. */
  predicate Overruns(p: Side, d: Side, total: nat)
    requires d.pageTokens > 0
  {
    d.layout == TokenMajor && Left(d.pageTokens, total) > p.pageTokens
  }

  lemma GroupJob(p: Side, d: Side, k: nat, n: nat, off: nat, total: nat)
    requires Job(p, d, k, n, 0, false).Valid() && off < n && p.Holds(total) && d.Holds(total)
    ensures Job(p, d, k, n, off, false).Valid() && d.pageTokens > 0 && p.layout == d.layout
    ensures Left(d.pageTokens, total) > 0 ==> p.blocks != []
    ensures p.layout == TokenMajor ==>
              && AttnParser.Pack(k) == k && AttnParser.Parsable(p, k, 0)
              && AttnParser.Parsable(p, k, total) && AttnParser.Parsable(d, k, total)
  {
  }

  /** The range checks of a rank with block ids inside the tensors. */
  lemma GroupInRange(j: Job, seen: nat, total: nat, bounds: Bounds, pPages: nat, dPages: nat)
    requires j.Valid() && !j.swap && seen <= total && j.p.Holds(total) && j.d.Holds(total) && j.d.pageTokens > 0
    requires TablesInTensors(j, bounds, pPages, dPages)
    ensures bounds.srcScale == 1 && AllPacketsInRange(bounds, j.Packets(), seen, total, j.k)
    ensures j.p.blocks != [] ==>
              && TailFill.ZeroBlockFits(bounds, Times(j.p.blocks[0], j.p.blockSize), j.p.blockSize)
              && TargetsFit(j.Packets(), total, total + Left(j.d.pageTokens, total), j.k, bounds.dstCapacity)
              && SlicesFit(j.Packets(), total, total + Min(Left(j.d.pageTokens, total), j.p.pageTokens), 0, j.k,
                           Times(j.p.blocks[0], j.p.blockSize), j.p.blockSize, bounds)
              && (j.d.layout == HeadMajor && j.d.cells == 1 && Left(j.d.pageTokens, total) > 0 ==>
                    HeadsFit(j, total, Left(j.d.pageTokens, total), j.k,
                             Times(j.p.blocks[0], j.p.blockSize), j.p.blockSize, bounds))
  {
    hide AllPacketsInRange, TargetsFit, SlicesFit, HeadsFit, TailFill.ZeroBlockFits, Job.Packets, Job.Valid, Left;
    JobInRange(j, seen, total, bounds, pPages, dPages);
    if j.p.blocks != [] {
      PaddingFits(j, total, bounds, pPages, dPages);
      FitsWhole(j.Packets(), total, total + Left(j.d.pageTokens, total),
                total + Min(Left(j.d.pageTokens, total), j.p.pageTokens), j.k,
                Times(j.p.blocks[0], j.p.blockSize), j.p.blockSize, bounds);
      if j.d.layout == HeadMajor && j.d.cells == 1 && Left(j.d.pageTokens, total) > 0 {
        LeftInPage(j.d.pageTokens, total);
        HeadsFitAll(j, total, Left(j.d.pageTokens, total), Times(j.p.blocks[0], j.p.blockSize), j.p.blockSize, bounds);
      }
    }
  }

  lemma LeftInPage(n: nat, total: nat)
    requires n > 0
    ensures total % n + Left(n, total) <= n
  {
  }

  /** One sending rank. Of the `valid` ranks that hold distinct heads, groups of valid / dTp
      consecutive ones feed one receiver; this rank is number groupOff of its group. */
  method SendGroupAttn(p: Side, d: Side, k: nat, valid: nat, dTp: nat, kvtRank: nat, seen: nat, new_: nat,
                       padLastBlock: bool, reachLastToken: bool, bounds: Bounds, ghost pPages: nat, ghost dPages: nat)
    returns (r: Sending, groupOff: nat)
    requires bounds.Valid() && dTp > 0 && valid / dTp > 0 && Job(p, d, k, valid / dTp, 0, false).Valid()
    requires d.layout == HeadMajor ==> d.cells == 1
    requires p.Holds(seen + new_) && d.Holds(seen + new_)
    ensures groupOff < valid / dTp && kvtRank == kvtRank / (valid / dTp) * (valid / dTp) + groupOff
    ensures var j, total := Job(p, d, k, valid / dTp, groupOff, false), seen + new_;
            && (r.Sent? ==> SameCopy(r.tokens, j.Reference(seen, total)))
            && (r.Sent? && Distinct(d.blocks) ==>
                  Placement.AllPlaced(r.tokens, p, d, k, valid / dTp, kvtRank % (valid / dTp), false, seen, total))
            && (r.Sent? && !(padLastBlock && reachLastToken) ==> r.fill == [])
            && (r.Sent? && padLastBlock && reachLastToken ==>
                  forall x: int :: Writes(r.fill, x) == Writes(j.Reference(total, total + Left(d.pageTokens, total)), x))
            && (r.Sent? && r.fill != [] ==>
                  p.blocks != [] && ReadsZeroBlock(r.fill, 0, Times(p.blocks[0], p.blockSize), p.blockSize))
            && (TablesInTensors(j, bounds, pPages, dPages) ==>
                  && !r.RangeFailed?
                  && (r.AssertionFailed? <==> padLastBlock && reachLastToken && Overruns(p, d, total)))
  {
    hide Job.Valid, Left, AllPacketsInRange, TargetsFit, SlicesFit, HeadsFit, TailFill.ZeroBlockFits, SameCopy, WritesToCount,
         Placement.AllPlaced, ReadsZeroBlock, TablesInTensors, AttnParser.Parsable, AttnParser.Pack, Job.Reference, Job.Packets, Times;
    var attnGroupN := valid / dTp;
    groupOff := kvtRank % attnGroupN;
    ghost var j, total := Job(p, d, k, attnGroupN, groupOff, false), seen + new_;
    GroupJob(p, d, k, attnGroupN, groupOff, total);
    if TablesInTensors(j, bounds, pPages, dPages) {
      GroupInRange(j, seen, total, bounds, pPages, dPages);
    }
    var ok, tokens;
    if d.layout == TokenMajor {
      ok, tokens := AttnParser.ParseHybridAttnBlock(p, d, seen, new_, groupOff, k, bounds, false, attnGroupN);
    } else {
      ok, tokens := HndParser.ParseHybridHndBlock(p, d, seen, new_, attnGroupN, groupOff, k, bounds, false);
    }
    if !ok {
      return RangeFailed, groupOff;
    }
    r := Sent(tokens, []);
    if padLastBlock && reachLastToken {
      if d.layout == TokenMajor {
        var fill := FillLastAttn(p, d, seen + new_, groupOff, k, bounds, attnGroupN);
        r := match fill
             case AssertionFails => AssertionFailed
             case OutOfRange => RangeFailed
             case Filled(records) => Sent(tokens, records);
      } else {
        var fill;
        ok, fill := FillLastHnd(p, d, seen + new_, attnGroupN, groupOff, k, bounds);
        r := if ok then Sent(tokens, fill) else RangeFailed;
      }
    }
  }

  /** Every rank of the group of a receiver. */
  ghost predicate GroupOf(ps: seq<Side>, d: Side, k: nat, n: nat, total: nat) {
    && |ps| == n > 0 && d.Holds(total) && (d.layout == HeadMajor ==> d.cells == 1)
    && forall i :: 0 <= i < n ==> Member(ps[i], d, k, n, total)
  }

  ghost predicate Member(p: Side, d: Side, k: nat, n: nat, total: nat) {
    Job(p, d, k, n, 0, false).Valid() && p.Holds(total)
  }

  function JobAt(ps: seq<Side>, d: Side, k: nat, i: nat): Job
    requires i < |ps|
  {
    Job(ps[i], d, k, |ps|, i, false)
  }

  function Jobs(ps: seq<Side>, d: Side, k: nat): (r: seq<Job>)
    ensures |r| == |ps| && forall i :: 0 <= i < |ps| ==> r[i] == JobAt(ps, d, k, i)
  {
    seq(|ps|, i requires 0 <= i < |ps| => JobAt(ps, d, k, i))
  }

  lemma MemberJob(ps: seq<Side>, d: Side, k: nat, total: nat, i: nat)
    requires GroupOf(ps, d, k, |ps|, total) && i < |ps|
    ensures SameGroup(JobAt(ps, d, k, 0), JobAt(ps, d, k, i)) && d.pageTokens > 0
  {
    assert Member(ps[0], d, k, |ps|, total) && Member(ps[i], d, k, |ps|, total);
    SameRow(ps[0].row, ps[i].row, |ps|);
  }

  lemma SameRow(a: nat, b: nat, n: nat)
    requires n > 0
    ensures Times(n, a) == Times(n, b) ==> a == b
  {
    if a < b { MulStrict(a, b, n); }
    if b < a { MulStrict(b, a, n); }
  }

  lemma GroupIsGroup(ps: seq<Side>, d: Side, k: nat, total: nat)
    requires GroupOf(ps, d, k, |ps|, total)
    ensures d.pageTokens > 0 && Group(Jobs(ps, d, k), d, JobAt(ps, d, k, 0).WideSubs(), total + Left(d.pageTokens, total))
  {
    hide SameGroup, GroupOf;
    var ranks := Jobs(ps, d, k);
    forall i | 0 <= i < |ranks| ensures InGroup(ranks, d, JobAt(ps, d, k, 0).WideSubs(), i) {
      MemberJob(ps, d, k, total, i);
    }
    TableHolds(ps, d, k, total);
    MemberJob(ps, d, k, total, 0);
    LeftCovered(d.pageTokens, total, |d.blocks|);
  }

  lemma TableHolds(ps: seq<Side>, d: Side, k: nat, total: nat)
    requires GroupOf(ps, d, k, |ps|, total)
    ensures |ps| > 0 && d.Holds(total)
  {
  }

  /** All tensors hold the tables of their ranks, and no rank runs into the assertion. */
  ghost predicate Smooth(ps: seq<Side>, d: Side, k: nat, total: nat, bounds: Bounds, pPages: nat, dPages: nat)
    requires d.pageTokens > 0
  {
    forall i :: 0 <= i < |ps| ==> TablesInTensors(JobAt(ps, d, k, i), bounds, pPages, dPages) && !Overruns(ps[i], d, total)
  }

  /** The last task of a request on all ranks of the group of receiver dRank: together they write
      every row byte from the first new token to the end of the last page exactly once and nothing
      else. With ids inside the tensors they succeed unless a source page is too small. */
  method SendGroup(ps: seq<Side>, d: Side, k: nat, valid: nat, dTp: nat, dRank: nat, seen: nat, new_: nat,
                   bounds: Bounds, ghost pPages: nat, ghost dPages: nat)
    returns (ok: bool, tokens: seq<seq<IpcBlock>>, fills: seq<seq<IpcBlock>>)
    requires bounds.Valid() && dTp > 0 && |ps| == valid / dTp && GroupOf(ps, d, k, |ps|, seen + new_) && Distinct(d.blocks)
    ensures d.pageTokens > 0 && (Smooth(ps, d, k, seen + new_, bounds, pPages, dPages) ==> ok)
    ensures ok ==> |tokens| == |fills| == |ps| && forall x: int ::
              SentWrites(tokens, fills, |ps|, x)
              == if InRows(d, JobAt(ps, d, k, 0).WideSubs(), seen, seen + new_ + Left(d.pageTokens, seen + new_), x) then 1 else 0
  {
    hide *;
    ghost var total, ranks := seen + new_, Jobs(ps, d, k);
    GroupIsGroup(ps, d, k, total);
    TableHolds(ps, d, k, total);
    ghost var end := total + Left(d.pageTokens, total);
    ok, tokens, fills := true, [], [];
    for i := 0 to |ps|
      invariant |tokens| == |fills| == i && ok
      invariant forall m :: 0 <= m < i ==> SameCopy(tokens[m], ranks[m].Reference(seen, total))
      invariant forall m, x: int :: 0 <= m < i ==> Writes(fills[m], x) == Writes(ranks[m].Reference(total, end), x)
    {
      MemberReady(ps, d, k, total, i);
      var r, off := SendGroupAttn(ps[i], d, k, valid, dTp, dRank * |ps| + i, seen, new_, true, true, bounds, pPages, dPages);
      OffsetIs(dRank, |ps|, i, off);
      SmoothAt(ps, d, k, total, bounds, pPages, dPages, i);
      if !r.Sent? {
        return false, tokens, fills;
      }
      tokens, fills := tokens + [r.tokens], fills + [r.fill];
    }
    forall x: int
      ensures SentWrites(tokens, fills, |ps|, x) == if InRows(d, JobAt(ps, d, k, 0).WideSubs(), seen, end, x) then 1 else 0
    {
      GroupComplete(ranks, d, JobAt(ps, d, k, 0).WideSubs(), seen, total, tokens, fills, x);
    }
  }

  lemma MemberReady(ps: seq<Side>, d: Side, k: nat, total: nat, i: nat)
    requires GroupOf(ps, d, k, |ps|, total) && i < |ps|
    ensures Job(ps[i], d, k, |ps|, 0, false).Valid() && ps[i].Holds(total) && d.Holds(total)
    ensures d.layout == HeadMajor ==> d.cells == 1
    ensures Jobs(ps, d, k)[i] == Job(ps[i], d, k, |ps|, i, false)
  {
    assert Member(ps[i], d, k, |ps|, total);
  }

  lemma OffsetIs(q: nat, n: nat, i: nat, off: nat)
    requires i < n && off < n && q * n + i == (q * n + i) / n * n + off
    ensures off == i
  {
    DivMod(q, n, i);
  }

  lemma SmoothAt(ps: seq<Side>, d: Side, k: nat, total: nat, bounds: Bounds, pPages: nat, dPages: nat, i: nat)
    requires i < |ps| && d.pageTokens > 0
    ensures Smooth(ps, d, k, total, bounds, pPages, dPages) ==>
              TablesInTensors(Job(ps[i], d, k, |ps|, i, false), bounds, pPages, dPages) && !Overruns(ps[i], d, total)
  {
    hide TablesInTensors, Overruns;
  }
}
