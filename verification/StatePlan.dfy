/** Recurrent state in the layout-driven generator: the segment list of a page, and the loop that
    repeats it for every page of every layer group. */
module StatePlan {
  import opened Arith
  import opened Copies
  import opened RangeCheck
  import opened StateReshard
  import opened StateParser
  import opened StateDriver

  /** Segments of a page, with offsets inside the page. */
  datatype GdnSpec = GdnSpec(groups: nat, srcStride: nat, dstStride: nat, segments: seq<IpcBlock>)

  /** A segment list moved to a pair of pages. */
  function SegmentsAt(segments: seq<IpcBlock>, p: nat, d: nat): (r: seq<IpcBlock>)
    ensures |r| == |segments|
    ensures forall i :: 0 <= i < |r| ==> r[i] == IpcBlock(p + segments[i].src, d + segments[i].dst, segments[i].len)
  {
    seq(|segments|, i requires 0 <= i < |segments| => IpcBlock(p + segments[i].src, d + segments[i].dst, segments[i].len))
  }

  /** The segments of every page of a list. */
  function StateRecords(g: GdnSpec, pages: seq<(nat, nat)>): seq<IpcBlock> {
    if pages == [] then []
    else
      var page := pages[|pages| - 1];
      StateRecords(g, pages[..|pages| - 1])
      + SegmentsAt(g.segments, Times(page.0, g.srcStride), Times(page.1, g.dstStride))
  }

  lemma StatePush(g: GdnSpec, pages: seq<(nat, nat)>, page: (nat, nat))
    ensures StateRecords(g, pages + [page])
         == StateRecords(g, pages) + SegmentsAt(g.segments, Times(page.0, g.srcStride), Times(page.1, g.dstStride))
  {
    hide SegmentsAt;
    assert (pages + [page])[..|pages|] == pages;
  }

  /** The tables that the generator accepts: as many pages on both sides of every group. */
  ghost predicate TablesAgree(src: seq<seq<nat>>, dst: seq<seq<nat>>, groups: nat) {
    TablesMatch(src, dst, groups) && forall g :: 0 <= g < groups ==> |src[g]| == |dst[g]|
  }

  /** Every page of every group, segment by segment. */
  method GenerateGdn(blocks: seq<IpcBlock>, g: GdnSpec, src: seq<seq<nat>>, dst: seq<seq<nat>>)
    returns (out: seq<IpcBlock>)
    requires TablesAgree(src, dst, g.groups)
    ensures out == blocks + StateRecords(g, Pages(src, dst, g.groups))
  {
    hide StateRecords, SegmentsAt, Times;
    NoPages(g);
    ghost var done: seq<(nat, nat)> := [];
    out := blocks;
    for k := 0 to g.groups
      invariant done == Pages(src, dst, k) && out == blocks + StateRecords(g, done)
    {
      ghost var before := done;
      assert before + GroupPages(src[k], dst[k], 0) == before;
      for i := 0 to |src[k]|
        invariant done == before + GroupPages(src[k], dst[k], i) && out == blocks + StateRecords(g, done)
      {
        var p, d := Times(src[k][i], g.srcStride), Times(dst[k][i], g.dstStride);
        out := AppendSegments(out, g.segments, p, d);
        StatePush(g, done, (src[k][i], dst[k][i]));
        done := done + [(src[k][i], dst[k][i])];
      }
    }
  }

  lemma NoPages(g: GdnSpec)
    ensures StateRecords(g, []) == []
  {
  }

  method AppendSegments(blocks: seq<IpcBlock>, segments: seq<IpcBlock>, p: nat, d: nat) returns (out: seq<IpcBlock>)
    ensures out == blocks + SegmentsAt(segments, p, d)
  {
    out := blocks;
    for i := 0 to |segments|
      invariant out == blocks + SegmentsAt(segments, p, d)[..i]
    {
      out := out + [IpcBlock(p + segments[i].src, d + segments[i].dst, segments[i].len)];
    }
  }

  // ---------------------------------------------------------------------------
  // The plan of a rank
  // ---------------------------------------------------------------------------

  /** The segments of rank groupOff, P > D. */
  method BuildSegments(groupN: nat, groupOff: nat, rows: nat, steps: seq<nat>, ssm: nat) returns (segments: seq<IpcBlock>)
    ensures segments == Gather(Lens(rows, steps, ssm), groupN, groupOff, 0, 0)
  {
    hide *;
    ghost var lens := Lens(rows, steps, ssm);
    ghost var ref := Gather(lens, groupN, groupOff, 0, 0);
    GatherRef(lens, groupN, groupOff, 0, 0);
    SsmPacket(rows, steps, ssm, groupN, groupOff, 0, 0);
    IndexZero(|steps|);
    segments := [];
    var pRow := Size(steps);
    var dRow := Times(groupN, pRow);
    for r := 0 to rows
      invariant Index(r, |steps|, 0) <= |ref| && segments == ref[..Index(r, |steps|, 0)]
    {
      var inner := 0;
      StartZero(steps);
      for c := 0 to |steps|
        invariant inner == Start(steps, c)
        invariant Index(r, |steps|, c) <= |ref| && segments == ref[..Index(r, |steps|, c)]
      {
        GatherPacket(rows, steps, ssm, groupN, groupOff, 0, 0, r, c, inner);
        NextIndex(r, |steps|, c);
        StartNext(steps, c);
        segments := segments + [IpcBlock(Times(r, pRow) + inner,
                                         Times(r, dRow) + Times(groupN, inner) + Times(groupOff, steps[c]), steps[c])];
        inner := inner + steps[c];
      }
      RowEnd(r, |steps|, pRow);
    }
    var conv := Times(rows, pRow);
    segments := segments + [IpcBlock(conv, Times(groupN, conv) + Times(groupOff, ssm), ssm)];
  }

  lemma GatherMoved(lens: seq<nat>, n: nat, off: nat, p: nat, d: nat)
    ensures SegmentsAt(Gather(lens, n, off, 0, 0), p, d) == Gather(lens, n, off, p, d)
  {
    hide Start, Times;
    GatherRef(lens, n, off, 0, 0);
    GatherRef(lens, n, off, p, d);
  }

  /** For every list of pages the plan of a rank sends what the hand-written driver sends. */
  lemma {:induction false} PlanIsGather(g: GdnSpec, pages: seq<(nat, nat)>, lens: seq<nat>, n: nat, off: nat)
    requires g.segments == Gather(lens, n, off, 0, 0)
    ensures StateRecords(g, pages) == GatherPages(pages, lens, n, off, g.srcStride, g.dstStride)
  {
    hide Gather, SegmentsAt;
    if pages != [] {
      var page := pages[|pages| - 1];
      PlanIsGather(g, pages[..|pages| - 1], lens, n, off);
      GatherMoved(lens, n, off, Times(page.0, g.srcStride), Times(page.1, g.dstStride));
    }
  }

  /** Both ways of sending the state of a request: whenever the driver succeeds, the plan built for
      the rank sends the same records. */
  method SendStateBothWays(pBlock: nat, dBlock: nat, layers: nat, groupN: nat, groupOff: nat, rows: nat,
                           steps: seq<nat>, ssm: nat, src: seq<seq<nat>>, dst: seq<seq<nat>>, bounds: Bounds)
    returns (ok: bool, driven: seq<IpcBlock>, planned: seq<IpcBlock>)
    requires bounds.Valid() && TablesAgree(src, dst, layers)
    ensures ok ==> planned == driven
    ensures planned == GatherPages(Pages(src, dst, layers), Lens(rows, steps, ssm), groupN, groupOff, pBlock, dBlock)
  {
    hide Lens, Gather, AllInRange, StateDriver.PageRecords;
    ok, driven := ParseGdnPGtD(pBlock, dBlock, layers, groupN, groupOff, rows, steps, ssm, src, dst, bounds);
    var segments := BuildSegments(groupN, groupOff, rows, steps, ssm);
    var g := GdnSpec(layers, pBlock, dBlock, segments);
    planned := GenerateGdn([], g, src, dst);
    PlanIsGather(g, Pages(src, dst, layers), Lens(rows, steps, ssm), groupN, groupOff);
  }
}
