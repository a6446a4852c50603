/** Whole-request transfer of recurrent state: KDA pages in both conv layouts, and the GDN
    driver over all layer groups and pages. */
module StateDriver {
  import opened Arith
  import opened Copies
  import opened RangeCheck
  import opened StateReshard
  import opened StateParser

  // ---------------------------------------------------------------------------
  // KDA pages
  // ---------------------------------------------------------------------------

  /** Conv state of `dims` channels and stateLen history entries. With convDimFirst every
      channel keeps its history contiguously, otherwise every history row keeps all channels. */
  datatype KdaState = KdaState(stateLen: nat, dims: seq<nat>, elemSize: nat, recurrent: nat, convDimFirst: bool) {
    function Rows(): nat {
      if convDimFirst then 1 else stateLen
    }

    /** Bytes per channel in one conv row. */
    function ChannelBytes(): nat {
      if convDimFirst then Times(stateLen, elemSize) else elemSize
    }

    function Steps(): (r: seq<nat>)
      ensures |r| == |dims| && forall i :: 0 <= i < |dims| ==> r[i] == Times(dims[i], ChannelBytes())
    {
      seq(|dims|, i requires 0 <= i < |dims| => Times(dims[i], ChannelBytes()))
    }

    function Segments(): seq<nat> {
      Lens(Rows(), Steps(), recurrent)
    }

    function ConvSize(): nat {
      Times(Times(stateLen, Size(dims)), elemSize)
    }
  }

  lemma {:induction false} StepsStart(k: KdaState, c: nat)
    requires c <= |k.dims|
    ensures Start(k.Steps(), c) == Times(Start(k.dims, c), k.ChannelBytes())
  {
    hide KdaState.ChannelBytes;
    if c > 0 {
      StepsStart(k, c - 1);
      Distribute(Start(k.dims, c - 1), k.dims[c - 1], k.ChannelBytes());
    }
  }

  /** Both conv layouts fill the same number of bytes, followed by the recurrent state. */
  lemma KdaSize(k: KdaState)
    ensures Size(k.Segments()) == k.ConvSize() + k.recurrent
    ensures k.Rows() * Size(k.Steps()) == k.ConvSize()
  {
    hide Start, Lens;
    StepsStart(k, |k.dims|);
    StartOfSsm(k.Rows(), k.Steps(), k.recurrent);
    StartNext(k.Segments(), Index(k.Rows(), |k.Steps()|, 0));
    var s, t, e := Size(k.dims), k.stateLen, k.elemSize;
    assert s * (t * e) == t * s * e && t * (s * e) == t * s * e;
  }

  // ---------------------------------------------------------------------------
  // Where the bytes of a KDA page go
  // ---------------------------------------------------------------------------

  /** Byte e of channel x of `channels` and history entry h: the conv state is a tensor (channel,
      history, byte), or (history, channel, byte). */
  function KdaByte(k: KdaState, channels: nat, x: nat, h: nat, e: nat): nat {
    if k.convDimFirst then Nest(Nest(x, k.stateLen, h), k.elemSize, e) else Nest(Nest(h, channels, x), k.elemSize, e)
  }

  /** Channel c of component i of rank `off`: in the wide page the channels of a component are those of
      all n ranks, one rank after the other. */
  ghost predicate ChannelPlaced(bs: seq<IpcBlock>, k: KdaState, n: nat, off: nat, narrow: nat, wide: nat, swap: bool,
                                i: nat, c: nat, h: nat, e: nat)
    requires i < |k.dims|
  {
    Copied(bs, narrow + KdaByte(k, Size(k.dims), Start(k.dims, i) + c, h, e),
           wide + KdaByte(k, n * Size(k.dims), n * Start(k.dims, i) + Nest(off, k.dims[i], c), h, e), swap)
  }

  /** The recurrent state follows the conv state; the wide one holds that of all ranks in rank order. */
  ghost predicate RecurrentPlaced(bs: seq<IpcBlock>, k: KdaState, n: nat, off: nat, narrow: nat, wide: nat, swap: bool, e: nat) {
    var conv := k.stateLen * Size(k.dims) * k.elemSize;
    Copied(bs, narrow + conv + e, wide + n * conv + Nest(off, k.recurrent, e), swap)
  }

  /** Every byte of the page of rank `off`, with the narrow state k. */
  ghost predicate PagePlaced(bs: seq<IpcBlock>, k: KdaState, n: nat, off: nat, narrow: nat, wide: nat, swap: bool) {
    && (forall i: nat, c: nat, h: nat, e: nat :: i < |k.dims| && c < k.dims[i] && h < k.stateLen && e < k.elemSize ==>
          ChannelPlaced(bs, k, n, off, narrow, wide, swap, i, c, h, e))
    && (forall e: nat :: e < k.recurrent ==> RecurrentPlaced(bs, k, n, off, narrow, wide, swap, e))
  }

  lemma Linear(n: nat, start: nat, off: nat, dim: nat, c: nat, w: nat)
    ensures n * (start * w) + off * (dim * w) + c * w == (n * start + (off * dim + c)) * w
  {
    Associate(n, start, w);
    Associate(off, dim, w);
    Distribute(off * dim, c, w);
    Distribute(n * start, off * dim + c, w);
  }

  /** With (channel, history, byte), the component is one segment of channels of w bytes. */
  lemma DimFirstByte(start: nat, dim: nat, n: nat, off: nat, c: nat, t: nat, el: nat, h: nat, e: nat, w: nat)
    requires c < dim && h < t && e < el && w == t * el
    ensures var b := Nest(Nest(c, t, h), el, e);
            && b < dim * w
            && start * w + b == Nest(Nest(start + c, t, h), el, e)
            && n * (start * w) + off * (dim * w) + b == Nest(Nest(n * start + Nest(off, dim, c), t, h), el, e)
  {
    hide Nest;
    var r := h * el + e;
    NestFlat(c, t, h, el, e);
    NestFlat(start + c, t, h, el, e);
    NestFlat(n * start + Nest(off, dim, c), t, h, el, e);
    NestIs(off, dim, c);
    Below(h, t, e, el);
    Below(c, dim, r, w);
    Distribute(start, c, w);
    Linear(n, start, off, dim, c, w);
  }

  lemma NestIs(a: nat, m: nat, i: nat)
    ensures Nest(a, m, i) == a * m + i
  {
  }

  lemma Below(i: nat, m: nat, j: nat, l: nat)
    requires i < m && j < l
    ensures i * l + j < m * l
  {
    MulMono(i + 1, m, l);
    Distribute(i, 1, l);
  }

  /** With (history, channel, byte), every history row is cut into the components. */
  lemma RowByte(start: nat, size: nat, dim: nat, n: nat, off: nat, c: nat, el: nat, h: nat, e: nat)
    requires c < dim && e < el
    ensures var b := Nest(c, el, e);
            && b < dim * el
            && h * (size * el) + start * el + b == Nest(Nest(h, size, start + c), el, e)
            && n * (h * (size * el) + start * el) + off * (dim * el) + b
               == Nest(Nest(h, n * size, n * start + Nest(off, dim, c)), el, e)
  {
    hide Nest;
    NestIs(c, el, e);
    NestIs(off, dim, c);
    Below(c, dim, e, el);
    NestFlat(h, size, start + c, el, e);
    NestFlat(h, n * size, n * start + Nest(off, dim, c), el, e);
    Distribute(start, c, el);
    Linear(n, start, off, dim, c, el);
    WideRows(n, h, size * el, start * el);
    Associate(n, size, el);
  }

  lemma WideRows(n: nat, h: nat, row: nat, s: nat)
    ensures n * (h * row + s) == h * (n * row) + n * s
  {
    assert n * (h * row) == h * (n * row);
  }

  /** The segment and byte of a channel. */
  lemma ChannelSegment(k: KdaState, n: nat, off: nat, i: nat, c: nat, h: nat, e: nat) returns (m: nat, b: nat)
    requires i < |k.dims| && c < k.dims[i] && h < k.stateLen && e < k.elemSize
    ensures m < |k.Segments()| && b < k.Segments()[m]
    ensures Start(k.Segments(), m) + b == KdaByte(k, Size(k.dims), Start(k.dims, i) + c, h, e)
    ensures n * Start(k.Segments(), m) + off * k.Segments()[m] + b
         == KdaByte(k, n * Size(k.dims), n * Start(k.dims, i) + Nest(off, k.dims[i], c), h, e)
  {
    hide Start, Lens, Nest, Index;
    var r := if k.convDimFirst then 0 else h;
    m := Index(r, |k.dims|, i);
    IndexBelow(k.Rows(), k.Steps(), k.recurrent, r, i);
    StartInRow(k.Rows(), k.Steps(), k.recurrent, r, i);
    StepsStart(k, i);
    StepsStart(k, |k.dims|);
    var s, d, el, t := Start(k.dims, i), k.dims[i], k.elemSize, k.stateLen;
    if k.convDimFirst {
      b := Nest(Nest(c, t, h), el, e);
      DimFirstByte(s, d, n, off, c, t, el, h, e, k.ChannelBytes());
    } else {
      b := Nest(c, el, e);
      RowByte(s, Size(k.dims), d, n, off, c, el, h, e);
    }
  }

  lemma PagePlaces(k: KdaState, n: nat, off: nat, narrow: nat, wide: nat, swap: bool)
    requires off < n
    ensures PagePlaced(if swap then Scatter(k.Segments(), n, off, wide, narrow) else Gather(k.Segments(), n, off, narrow, wide),
                       k, n, off, narrow, wide, swap)
  {
    hide Copied, Gather, Scatter, Start, Lens, KdaByte, Size;
    var lens := k.Segments();
    var bs := if swap then Scatter(lens, n, off, wide, narrow) else Gather(lens, n, off, narrow, wide);
    forall i: nat, c: nat, h: nat, e: nat | i < |k.dims| && c < k.dims[i] && h < k.stateLen && e < k.elemSize
      ensures ChannelPlaced(bs, k, n, off, narrow, wide, swap, i, c, h, e)
    {
      var m, b := ChannelSegment(k, n, off, i, c, h, e);
      SegmentCopied(lens, n, off, narrow, wide, swap, m, b);
    }
    forall e: nat | e < k.recurrent ensures RecurrentPlaced(bs, k, n, off, narrow, wide, swap, e) {
      KdaSize(k);
      StartOfSsm(k.Rows(), k.Steps(), k.recurrent);
      SegmentCopied(lens, n, off, narrow, wide, swap, Index(k.Rows(), |k.Steps()|, 0), e);
    }
  }

  /** One KDA page, P > D. */
  method EmitKdaPGtD(p: nat, d: nat, groupN: nat, groupOff: nat, k: KdaState, bounds: Bounds, before: seq<IpcBlock>)
    returns (ok: bool, out: seq<IpcBlock>)
    requires bounds.Valid()
    ensures ok ==> out == before + Gather(k.Segments(), groupN, groupOff, p, d)
    ensures ok <==> AllInRange(bounds, Gather(k.Segments(), groupN, groupOff, p, d))
    ensures ok && groupOff < groupN ==> PagePlaced(out[|before|..], k, groupN, groupOff, p, d, false)
  {
    hide Gather, Lens, AllInRange, PagePlaced;
    if groupOff < groupN {
      PagePlaces(k, groupN, groupOff, p, d, false);
      assert (before + Gather(k.Segments(), groupN, groupOff, p, d))[|before|..] == Gather(k.Segments(), groupN, groupOff, p, d);
    }
    if k.convDimFirst {
      ok, out := EmitStatePGtD(p, d, groupN, groupOff, 1, k.Steps(), k.recurrent, bounds, before);
    } else {
      ok, out := EmitStatePGtD(p, d, groupN, groupOff, k.stateLen, k.Steps(), k.recurrent, bounds, before);
    }
  }

  /** The state of one of the n D ranks that share a wide page. */
  function NarrowKda(k: KdaState, n: nat): KdaState
    requires n > 0
  {
    k.(dims := Narrow(k.dims, n), recurrent := k.recurrent / n)
  }

  lemma NarrowStepsAgree(k: KdaState, n: nat)
    requires Divisible(k.dims, n)
    ensures Divisible(k.Steps(), n) && Narrow(k.Steps(), n) == NarrowKda(k, n).Steps()
  {
    var b := k.ChannelBytes();
    forall i | 0 <= i < |k.dims|
      ensures k.Steps()[i] % n == 0 && k.Steps()[i] / n == Times(k.dims[i] / n, b)
    {
      ExactDiv(k.dims[i], n);
      Regroup(k.dims[i] / n, n, b);
      DivMod0(k.dims[i] / n * b, n);
    }
  }

  lemma Regroup(q: nat, n: nat, b: nat)
    ensures q * n * b == q * b * n
  {
  }

  /** One KDA page, P < D. */
  method EmitKdaPLtD(p: nat, d: nat, groupN: nat, groupOff: nat, k: KdaState, bounds: Bounds, before: seq<IpcBlock>)
    returns (ok: bool, out: seq<IpcBlock>)
    requires bounds.Valid() && Divisible(k.dims, groupN) && k.recurrent % groupN == 0
    ensures ok ==> out == before + Scatter(NarrowKda(k, groupN).Segments(), groupN, groupOff, p, d)
    ensures ok <==> AllInRange(bounds, Scatter(NarrowKda(k, groupN).Segments(), groupN, groupOff, p, d))
    ensures ok && groupOff < groupN ==> PagePlaced(out[|before|..], NarrowKda(k, groupN), groupN, groupOff, d, p, true)
  {
    hide Scatter, Lens, AllInRange, PagePlaced;
    if groupOff < groupN {
      var narrow := NarrowKda(k, groupN);
      PagePlaces(narrow, groupN, groupOff, d, p, true);
      assert (before + Scatter(narrow.Segments(), groupN, groupOff, p, d))[|before|..] == Scatter(narrow.Segments(), groupN, groupOff, p, d);
    }
    NarrowStepsAgree(k, groupN);
    if k.convDimFirst {
      ok, out := EmitStatePLtD(p, d, groupN, groupOff, 1, k.Steps(), k.recurrent, bounds, before);
    } else {
      ok, out := EmitStatePLtD(p, d, groupN, groupOff, k.stateLen, k.Steps(), k.recurrent, bounds, before);
    }
  }

  // ---------------------------------------------------------------------------
  // GDN: all groups and pages
  // ---------------------------------------------------------------------------

  /** (source id, destination id) of the pages of one group. */
  function GroupPages(src: seq<nat>, dst: seq<nat>, m: nat): (r: seq<(nat, nat)>)
    requires m <= |src| <= |dst|
    ensures |r| == m
  {
    if m == 0 then [] else GroupPages(src, dst, m - 1) + [(src[m - 1], dst[m - 1])]
  }

  ghost predicate TablesMatch(src: seq<seq<nat>>, dst: seq<seq<nat>>, layers: nat) {
    layers <= |src| && layers <= |dst| && forall g :: 0 <= g < layers ==> |src[g]| <= |dst[g]|
  }

  /** Pages of the first `layers` groups, in order. */
  function Pages(src: seq<seq<nat>>, dst: seq<seq<nat>>, layers: nat): seq<(nat, nat)>
    requires TablesMatch(src, dst, layers)
  {
    if layers == 0 then []
    else Pages(src, dst, layers - 1) + GroupPages(src[layers - 1], dst[layers - 1], |src[layers - 1]|)
  }

  /** Number of pages of the first `layers` groups. */
  function PageCount(src: seq<seq<nat>>, layers: nat): nat
    requires layers <= |src|
  {
    if layers == 0 then 0 else PageCount(src, layers - 1) + |src[layers - 1]|
  }

  lemma {:induction false} GroupPageAt(src: seq<nat>, dst: seq<nat>, m: nat, i: nat)
    requires i < m <= |src| <= |dst|
    ensures GroupPages(src, dst, m)[i] == (src[i], dst[i])
  {
    if i < m - 1 { GroupPageAt(src, dst, m - 1, i); }
  }

  /** Every page of every group is listed once, group by group and in the order of its table. */
  lemma {:induction false} PageListed(src: seq<seq<nat>>, dst: seq<seq<nat>>, layers: nat, g: nat, i: nat)
    requires TablesMatch(src, dst, layers) && g < layers && i < |src[g]|
    ensures |Pages(src, dst, layers)| == PageCount(src, layers)
    ensures PageCount(src, g) + i < PageCount(src, layers)
    ensures Pages(src, dst, layers)[PageCount(src, g) + i] == (src[g][i], dst[g][i])
  {
    PagesNumber(src, dst, layers - 1);
    if g < layers - 1 {
      PageListed(src, dst, layers - 1, g, i);
    } else {
      GroupPageAt(src[g], dst[g], |src[g]|, i);
    }
  }

  lemma {:induction false} PagesNumber(src: seq<seq<nat>>, dst: seq<seq<nat>>, layers: nat)
    requires TablesMatch(src, dst, layers)
    ensures |Pages(src, dst, layers)| == PageCount(src, layers)
  {
    if layers > 0 { PagesNumber(src, dst, layers - 1); }
  }

  /** Records of rank `off` for a list of pages. */
  function GatherPages(pages: seq<(nat, nat)>, lens: seq<nat>, n: nat, off: nat, pBlock: nat,
                       dBlock: nat): seq<IpcBlock> {
    if pages == [] then []
    else GatherPages(pages[..|pages| - 1], lens, n, off, pBlock, dBlock)
         + PageRecords(pages[|pages| - 1], lens, n, off, pBlock, dBlock)
  }

  function PageRecords(page: (nat, nat), lens: seq<nat>, n: nat, off: nat, pBlock: nat, dBlock: nat): seq<IpcBlock> {
    Gather(lens, n, off, Times(page.0, pBlock), Times(page.1, dBlock))
  }

  lemma GatherPagesPush(pages: seq<(nat, nat)>, page: (nat, nat), lens: seq<nat>, n: nat, off: nat, pBlock: nat,
                        dBlock: nat)
    ensures GatherPages(pages + [page], lens, n, off, pBlock, dBlock)
         == GatherPages(pages, lens, n, off, pBlock, dBlock) + PageRecords(page, lens, n, off, pBlock, dBlock)
  {
    hide PageRecords;
    assert (pages + [page])[..|pages|] == pages;
  }

  /** Part [lo, hi) of the records puts every byte of a page in its place. */
  ghost predicate PartPlaced(out: seq<IpcBlock>, lo: nat, hi: nat, rows: nat, steps: seq<nat>, ssm: nat, n: nat, off: nat,
                             narrow: nat, wide: nat) {
    lo <= hi <= |out| && StatePlaced(out[lo..hi], rows, steps, ssm, n, off, narrow, wide, false)
  }

  /** Some part of the records does. */
  ghost predicate PageSent(out: seq<IpcBlock>, rows: nat, steps: seq<nat>, ssm: nat, n: nat, off: nat, narrow: nat, wide: nat) {
    exists lo: nat, hi: nat :: PartPlaced(out, lo, hi, rows, steps, ssm, n, off, narrow, wide)
  }

  lemma {:induction false} PagePart(pages: seq<(nat, nat)>, lens: seq<nat>, n: nat, off: nat, pBlock: nat, dBlock: nat, q: nat)
    returns (lo: nat, hi: nat)
    requires q < |pages|
    ensures lo <= hi <= |GatherPages(pages, lens, n, off, pBlock, dBlock)|
    ensures GatherPages(pages, lens, n, off, pBlock, dBlock)[lo..hi] == PageRecords(pages[q], lens, n, off, pBlock, dBlock)
  {
    hide PageRecords;
    var m := |pages| - 1;
    var all, rest := GatherPages(pages, lens, n, off, pBlock, dBlock), GatherPages(pages[..m], lens, n, off, pBlock, dBlock);
    if q < m {
      lo, hi := PagePart(pages[..m], lens, n, off, pBlock, dBlock, q);
      assert all[lo..hi] == rest[lo..hi];
    } else {
      lo, hi := |rest|, |all|;
    }
  }

  lemma PagesSent(src: seq<seq<nat>>, dst: seq<seq<nat>>, layers: nat, rows: nat, steps: seq<nat>, ssm: nat, n: nat, off: nat,
                  pBlock: nat, dBlock: nat, g: nat, i: nat)
    requires TablesMatch(src, dst, layers) && g < layers && i < |src[g]| && off < n
    ensures PageSent(GatherPages(Pages(src, dst, layers), Lens(rows, steps, ssm), n, off, pBlock, dBlock),
                     rows, steps, ssm, n, off, src[g][i] * pBlock, dst[g][i] * dBlock)
  {
    hide Lens, GatherPages, Pages, StatePlaced, Gather;
    var lens, pages := Lens(rows, steps, ssm), Pages(src, dst, layers);
    var all := GatherPages(pages, lens, n, off, pBlock, dBlock);
    PageListed(src, dst, layers, g, i);
    var lo, hi := PagePart(pages, lens, n, off, pBlock, dBlock, PageCount(src, g) + i);
    StatePlaces(rows, steps, ssm, n, off, src[g][i] * pBlock, dst[g][i] * dBlock, false, all[lo..hi]);
    assert PartPlaced(all, lo, hi, rows, steps, ssm, n, off, src[g][i] * pBlock, dst[g][i] * dBlock);
  }

  /** The GDN driver, P > D: every page of every GDN layer group. */
  method ParseGdnPGtD(pBlock: nat, dBlock: nat, layers: nat, groupN: nat, groupOff: nat,
                      rows: nat, steps: seq<nat>, ssm: nat, src: seq<seq<nat>>, dst: seq<seq<nat>>, bounds: Bounds)
    returns (ok: bool, out: seq<IpcBlock>)
    requires bounds.Valid() && TablesMatch(src, dst, layers)
    ensures ok ==> out == GatherPages(Pages(src, dst, layers), Lens(rows, steps, ssm), groupN, groupOff, pBlock, dBlock)
    ensures ok <==> forall page <- Pages(src, dst, layers) ::
                      AllInRange(bounds, PageRecords(page, Lens(rows, steps, ssm), groupN, groupOff, pBlock, dBlock))
    ensures ok && groupOff < groupN ==> forall g: nat, i: nat :: g < layers && i < |src[g]| ==>
              PageSent(out, rows, steps, ssm, groupN, groupOff, src[g][i] * pBlock, dst[g][i] * dBlock)
  {
    hide Lens, Gather, AllInRange, PageRecords, PageSent;
    ghost var lens := Lens(rows, steps, ssm);
    ghost var done: seq<(nat, nat)> := [];
    out := [];
    var g := 0;
    while g < layers
      invariant g <= layers && done == Pages(src, dst, g)
      invariant out == GatherPages(done, lens, groupN, groupOff, pBlock, dBlock)
      invariant forall page <- done :: AllInRange(bounds, PageRecords(page, lens, groupN, groupOff, pBlock, dBlock))
    {
      ok, out := ParseGdnGroup(pBlock, dBlock, groupN, groupOff, rows, steps, ssm, src[g], dst[g], bounds, out, done);
      ghost var group := GroupPages(src[g], dst[g], |src[g]|);
      done := done + group;
      g := g + 1;
      if !ok {
        ghost var bad :| bad in group && !AllInRange(bounds, PageRecords(bad, lens, groupN, groupOff, pBlock, dBlock));
        PagesPrefix(src, dst, g, layers, bad);
        return;
      }
    }
    ok := true;
    if groupOff < groupN {
      forall a: nat, b: nat | a < layers && b < |src[a]|
        ensures PageSent(out, rows, steps, ssm, groupN, groupOff, src[a][b] * pBlock, dst[a][b] * dBlock)
      {
        PagesSent(src, dst, layers, rows, steps, ssm, groupN, groupOff, pBlock, dBlock, a, b);
      }
    }
  }

  lemma {:induction false} PagesPrefix(src: seq<seq<nat>>, dst: seq<seq<nat>>, g: nat, layers: nat, page: (nat, nat))
    requires TablesMatch(src, dst, layers) && g <= layers && page in Pages(src, dst, g)
    ensures page in Pages(src, dst, layers)
  {
    if g < layers { PagesPrefix(src, dst, g, layers - 1, page); }
  }

  method ParseGdnGroup(pBlock: nat, dBlock: nat, groupN: nat, groupOff: nat, rows: nat, steps: seq<nat>, ssm: nat,
                       src: seq<nat>, dst: seq<nat>, bounds: Bounds, before: seq<IpcBlock>, ghost pages: seq<(nat, nat)>)
    returns (ok: bool, out: seq<IpcBlock>)
    requires bounds.Valid() && |src| <= |dst|
    requires before == GatherPages(pages, Lens(rows, steps, ssm), groupN, groupOff, pBlock, dBlock)
    ensures ok ==> out == GatherPages(pages + GroupPages(src, dst, |src|), Lens(rows, steps, ssm), groupN, groupOff, pBlock, dBlock)
    ensures ok <==> forall page <- GroupPages(src, dst, |src|) ::
                      AllInRange(bounds, PageRecords(page, Lens(rows, steps, ssm), groupN, groupOff, pBlock, dBlock))
  {
    hide Lens, Gather, AllInRange, GatherPages;
    ghost var lens := Lens(rows, steps, ssm);
    out := before;
    var i := 0;
    assert pages + GroupPages(src, dst, 0) == pages;
    while i < |src|
      invariant i <= |src|
      invariant out == GatherPages(pages + GroupPages(src, dst, i), lens, groupN, groupOff, pBlock, dBlock)
      invariant forall page <- GroupPages(src, dst, i) :: AllInRange(bounds, PageRecords(page, lens, groupN, groupOff, pBlock, dBlock))
    {
      ok, out := EmitStatePGtD(Times(src[i], pBlock), Times(dst[i], dBlock), groupN, groupOff, rows, steps, ssm, bounds, out);
      if !ok {
        assert !AllInRange(bounds, PageRecords((src[i], dst[i]), lens, groupN, groupOff, pBlock, dBlock));
        PageInGroup(src, dst, i, |src|);
        return;
      }
      GatherPagesPush(pages + GroupPages(src, dst, i), (src[i], dst[i]), lens, groupN, groupOff, pBlock, dBlock);
      assert pages + GroupPages(src, dst, i) + [(src[i], dst[i])] == pages + GroupPages(src, dst, i + 1);
      i := i + 1;
    }
    ok := true;
  }

  lemma {:induction false} PageInGroup(src: seq<nat>, dst: seq<nat>, i: nat, m: nat)
    requires i < m <= |src| <= |dst|
    ensures (src[i], dst[i]) in GroupPages(src, dst, m)
  {
    if i < m - 1 { PageInGroup(src, dst, i, m - 1); }
  }

  // ---------------------------------------------------------------------------
  // The group of ranks tiles the state of every page
  // ---------------------------------------------------------------------------

  /** tables[i] are the m pages of rank i; all ranks feed the destination pages `ids`. */
  ghost predicate SharedTargets(tables: seq<seq<(nat, nat)>>, ids: seq<nat>) {
    forall i :: 0 <= i < |tables| ==> Feeds(tables[i], ids)
  }

  ghost predicate Feeds(table: seq<(nat, nat)>, ids: seq<nat>) {
    |table| == |ids| && forall q :: 0 <= q < |ids| ==> table[q].1 == ids[q]
  }

  /** Writes to byte x by the first k ranks, for the first m pages. */
  ghost function RanksWrite(tables: seq<seq<(nat, nat)>>, ids: seq<nat>, lens: seq<nat>, k: nat, m: nat,
                            pBlock: nat, dBlock: nat, x: int): nat
    requires SharedTargets(tables, ids) && k <= |tables| && m <= |ids|
  {
    if k == 0 then 0
    else assert Feeds(tables[k - 1], ids);
         RanksWrite(tables, ids, lens, k - 1, m, pBlock, dBlock, x)
         + Writes(GatherPages(tables[k - 1][..m], lens, |tables|, k - 1, pBlock, dBlock), x)
  }

  /** Narrow page offsets of page q on all ranks. */
  ghost function Column(tables: seq<seq<(nat, nat)>>, ids: seq<nat>, q: nat, pBlock: nat): (r: seq<nat>)
    requires SharedTargets(tables, ids) && q < |ids|
    ensures |r| == |tables|
    ensures forall i :: 0 <= i < |tables| ==> Feeds(tables[i], ids) && r[i] == Times(tables[i][q].0, pBlock)
  {
    seq(|tables|, i requires 0 <= i < |tables| => assert Feeds(tables[i], ids); Times(tables[i][q].0, pBlock))
  }

  lemma PagesStep(table: seq<(nat, nat)>, m: nat, lens: seq<nat>, n: nat, off: nat, pBlock: nat, dBlock: nat, x: int)
    requires m < |table|
    ensures Writes(GatherPages(table[..m + 1], lens, n, off, pBlock, dBlock), x)
         == Writes(GatherPages(table[..m], lens, n, off, pBlock, dBlock), x)
            + Writes(PageRecords(table[m], lens, n, off, pBlock, dBlock), x)
  {
    hide *;
    assert table[..m + 1] == table[..m] + [table[m]];
    GatherPagesPush(table[..m], table[m], lens, n, off, pBlock, dBlock);
    WritesConcat(GatherPages(table[..m], lens, n, off, pBlock, dBlock), PageRecords(table[m], lens, n, off, pBlock, dBlock), x);
  }

  lemma {:induction false} RanksStep(tables: seq<seq<(nat, nat)>>, ids: seq<nat>, lens: seq<nat>, k: nat, m: nat,
                                     pBlock: nat, dBlock: nat, x: int)
    requires SharedTargets(tables, ids) && k <= |tables| && m < |ids|
    ensures RanksWrite(tables, ids, lens, k, m + 1, pBlock, dBlock, x)
         == RanksWrite(tables, ids, lens, k, m, pBlock, dBlock, x)
            + GroupWrites(lens, |tables|, Column(tables, ids, m, pBlock), k, Times(ids[m], dBlock), x)
  {
    hide GatherPages, Gather, WritesToCount, Times, Column;
    if k > 0 {
      assert Feeds(tables[k - 1], ids);
      RanksStep(tables, ids, lens, k - 1, m, pBlock, dBlock, x);
      PagesStep(tables[k - 1], m, lens, |tables|, k - 1, pBlock, dBlock, x);
    }
  }

  lemma {:induction false} RanksNothing(tables: seq<seq<(nat, nat)>>, ids: seq<nat>, lens: seq<nat>, k: nat,
                                        pBlock: nat, dBlock: nat, x: int)
    requires SharedTargets(tables, ids) && k <= |tables|
    ensures RanksWrite(tables, ids, lens, k, 0, pBlock, dBlock, x) == 0
  {
    if k > 0 {
      assert Feeds(tables[k - 1], ids);
      RanksNothing(tables, ids, lens, k - 1, pBlock, dBlock, x);
      assert tables[k - 1][..0] == [];
      EmptyWrites();
    }
  }

  /** Byte x lies in the state of page id: its first `size` bytes. */
  ghost predicate InPage(id: nat, size: nat, dBlock: nat, x: int) {
    Times(id, dBlock) <= x < Times(id, dBlock) + size
  }

  ghost predicate InPages(ids: seq<nat>, m: nat, size: nat, dBlock: nat, x: int)
    requires m <= |ids|
  {
    exists q :: 0 <= q < m && InPage(ids[q], size, dBlock, x)
  }

  lemma PagesApart(a: nat, b: nat, size: nat, dBlock: nat, x: int)
    requires size <= dBlock && InPage(a, size, dBlock, x) && InPage(b, size, dBlock, x)
    ensures a == b
  {
    DigitUnique(a, b, dBlock, x - Times(a, dBlock), x - Times(b, dBlock));
  }

  /** Over all ranks of a group, the state of every destination page is written exactly once
      and no other byte is. */
  lemma {:induction false} RanksTile(tables: seq<seq<(nat, nat)>>, ids: seq<nat>, lens: seq<nat>, m: nat,
                                     pBlock: nat, dBlock: nat, x: int)
    requires SharedTargets(tables, ids) && m <= |ids| && Times(|tables|, Size(lens)) <= dBlock
    requires forall i, j :: 0 <= i < j < |ids| ==> ids[i] != ids[j]
    ensures RanksWrite(tables, ids, lens, |tables|, m, pBlock, dBlock, x)
         == if InPages(ids, m, Times(|tables|, Size(lens)), dBlock, x) then 1 else 0
  {
    hide RanksWrite, GroupWrites, Size, InPage, Column;
    if m == 0 {
      RanksNothing(tables, ids, lens, |tables|, pBlock, dBlock, x);
    } else {
      var size := Times(|tables|, Size(lens));
      RanksTile(tables, ids, lens, m - 1, pBlock, dBlock, x);
      RanksStep(tables, ids, lens, |tables|, m - 1, pBlock, dBlock, x);
      OnePage(tables, ids, lens, m - 1, pBlock, dBlock, x);
      if InPages(ids, m - 1, size, dBlock, x) && InPage(ids[m - 1], size, dBlock, x) {
        var q :| 0 <= q < m - 1 && InPage(ids[q], size, dBlock, x);
        PagesApart(ids[q], ids[m - 1], size, dBlock, x);
      }
    }
  }

  lemma OnePage(tables: seq<seq<(nat, nat)>>, ids: seq<nat>, lens: seq<nat>, m: nat, pBlock: nat, dBlock: nat, x: int)
    requires SharedTargets(tables, ids) && m < |ids|
    ensures GroupWrites(lens, |tables|, Column(tables, ids, m, pBlock), |tables|, Times(ids[m], dBlock), x)
         == if InPage(ids[m], Times(|tables|, Size(lens)), dBlock, x) then 1 else 0
  {
    hide GroupWrites, Size, Column;
    GatherTilesState(lens, Column(tables, ids, m, pBlock), Times(ids[m], dBlock), x);
  }
}
