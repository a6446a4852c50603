/** Block-aligned sending: whole pages only, each when its last token has been computed. */
module BlockAligned {
  import opened Arith
  import opened Copies
  import opened RangeCheck
  import opened Sequences

  /** One send task: tokens [seen, seen + new_), the last one of the request or not. */
  datatype Task = Task(seen: nat, new_: nat, reachLast: bool) {
    function End(): nat {
      seen + new_
    }
  }

  function PageRecord(src: seq<nat>, dst: seq<nat>, blockSize: nat, i: nat): IpcBlock
    requires i < |src| && i < |dst|
  {
    IpcBlock(Times(src[i], blockSize), Times(dst[i], blockSize), blockSize)
  }

  /** Whole pages [lo, hi), in order. */
  function PageRecords(src: seq<nat>, dst: seq<nat>, blockSize: nat, lo: nat, hi: nat): (r: seq<IpcBlock>)
    requires lo <= hi <= |src| && hi <= |dst|
    ensures |r| == hi - lo && forall i :: 0 <= i < hi - lo ==> r[i] == PageRecord(src, dst, blockSize, lo + i)
    decreases hi
  {
    if lo == hi then [] else PageRecords(src, dst, blockSize, lo, hi - 1) + [PageRecord(src, dst, blockSize, hi - 1)]
  }

  lemma {:induction false} PagesJoin(src: seq<nat>, dst: seq<nat>, blockSize: nat, lo: nat, mid: nat, hi: nat)
    requires lo <= mid <= hi <= |src| && hi <= |dst|
    ensures PageRecords(src, dst, blockSize, lo, mid) + PageRecords(src, dst, blockSize, mid, hi)
         == PageRecords(src, dst, blockSize, lo, hi)
    decreases hi
  {
    hide PageRecord;
    if mid < hi { PagesJoin(src, dst, blockSize, lo, mid, hi - 1); }
  }

  function CeilDiv(a: nat, n: nat): nat
    requires n > 0
  {
    (a + n - 1) / n
  }

  // ---------------------------------------------------------------------------
  // Which pages a task sends
  // ---------------------------------------------------------------------------

  /** First page of a send task. A closing task without tokens skips a page begun earlier. */
  function FirstPage(t: Task, ntpb: nat): nat
    requires ntpb > 0
  {
    if t.reachLast && t.new_ == 0 then CeilDiv(t.seen, ntpb) else Page(t.seen, ntpb)
  }

  /** One past the last page: every allocated page on completion, otherwise the pages whose
      tokens are all there. */
  function EndPage(t: Task, ntpb: nat, numBlocks: nat): nat
    requires ntpb > 0
  {
    if t.reachLast then numBlocks else Page(t.End(), ntpb)
  }

  predicate Covered(t: Task, ntpb: nat, numBlocks: nat) {
    ntpb > 0 && t.End() <= numBlocks * ntpb
  }

  lemma PageBelow(w: nat, ntpb: nat, num: nat)
    requires ntpb > 0 && w <= num * ntpb
    ensures Page(w, ntpb) <= num && CeilDiv(w, ntpb) <= num
    ensures w < num * ntpb ==> Page(w, ntpb) < num
  {
    var q, c := w / ntpb, CeilDiv(w, ntpb);
    if num < q { MulStrict(num, q, ntpb); }
    if num < c { MulStrict(num, c, ntpb); }
    if num <= q { MulMono(num, q, ntpb); }
  }

  lemma CeilStep(w: nat, ntpb: nat)
    requires ntpb > 0
    ensures Slot(w, ntpb) == 0 ==> CeilDiv(w, ntpb) == Page(w, ntpb)
    ensures Slot(w, ntpb) != 0 ==> CeilDiv(w, ntpb) == Page(w, ntpb) + 1
  {
    var q, r := w / ntpb, w % ntpb;
    assert w == q * ntpb + r;
    if r == 0 {
      DivMod(q, ntpb, ntpb - 1);
    } else {
      Distribute(q, 1, ntpb);
      assert w + ntpb - 1 == (q + 1) * ntpb + (r - 1);
      DivMod(q + 1, ntpb, r - 1);
    }
  }

  lemma PagesInTable(t: Task, ntpb: nat, num: nat)
    requires Covered(t, ntpb, num)
    ensures FirstPage(t, ntpb) <= EndPage(t, ntpb, num) <= num
  {
    hide Page, CeilDiv;
    PageBelow(t.seen, ntpb, num);
    PageBelow(t.End(), ntpb, num);
    PageMono(t.seen, t.End(), ntpb);
  }

  // ---------------------------------------------------------------------------
  // Where every byte of a page goes
  // ---------------------------------------------------------------------------

  /** Byte b of page i is copied to byte b of its target page once if `sent`, and otherwise nothing goes there. */
  ghost predicate PageByte(out: seq<IpcBlock>, src: nat, dst: nat, srcPage: nat, dstPage: nat, b: nat, sent: bool) {
    var x := Nest(dst, dstPage, b);
    if sent then Writes(out, x) == 1 && Count(out, Nest(src, srcPage, b), x) == 1 else Writes(out, x) == 0
  }

  lemma PageBytes(out: seq<IpcBlock>, src: seq<nat>, dst: seq<nat>, srcPage: nat, dstPage: nat, len: nat, lo: nat, hi: nat,
                  i: nat, b: nat)
    requires lo <= hi <= |src| && hi <= |dst| && i < |src| && i < |dst| && b < len <= dstPage && Distinct(dst)
    requires |out| == hi - lo
    requires forall j :: 0 <= j < hi - lo ==> out[j] == IpcBlock(src[lo + j] * srcPage, dst[lo + j] * dstPage, len)
    ensures PageByte(out, src[i], dst[i], srcPage, dstPage, b, lo <= i < hi)
  {
    hide WritesToCount, CountTo;
    var x := Nest(dst[i], dstPage, b);
    forall j | 0 <= j < hi - lo && lo + j != i ensures !WritesTo(out[j], x) {
      if WritesTo(out[j], x) {
        DigitUnique(dst[i], dst[lo + j], dstPage, b, x - dst[lo + j] * dstPage);
      }
    }
    if lo <= i < hi {
      assert Moves(out[i - lo], Nest(src[i], srcPage, b), x);
      WritesUnique(out, x, i - lo, Nest(src[i], srcPage, b));
    } else {
      WritesNone(out, x);
    }
  }

  /** Page i has a token at or after token w. */
  predicate Reaches(i: nat, ntpb: nat, w: nat) {
    w < (i + 1) * ntpb
  }

  /** All tokens of page i come before token w. */
  predicate Before(i: nat, ntpb: nat, w: nat) {
    (i + 1) * ntpb <= w
  }

  /** Page i has tokens of the send and, while the request is open, all of its tokens by the end of it.
      Closing without tokens skips a page begun earlier. */
  predicate Due(t: Task, ntpb: nat, i: nat) {
    && Reaches(i, ntpb, t.seen)
    && (t.reachLast && t.new_ == 0 ==> t.seen <= i * ntpb)
    && (!t.reachLast ==> Before(i, ntpb, t.seen + t.new_))
  }

  lemma PageAt(w: nat, ntpb: nat, i: nat)
    requires ntpb > 0
    ensures Page(w, ntpb) <= i <==> Reaches(i, ntpb, w)
    ensures i < Page(w, ntpb) <==> Before(i, ntpb, w)
    ensures CeilDiv(w, ntpb) <= i <==> w <= i * ntpb
  {
    var q, c := w / ntpb, CeilDiv(w, ntpb);
    assert w == q * ntpb + w % ntpb;
    assert w + ntpb - 1 == c * ntpb + (w + ntpb - 1) % ntpb;
    Distribute(q, 1, ntpb);
    if q <= i { MulMono(q + 1, i + 1, ntpb); } else { MulMono(i + 1, q, ntpb); }
    if c <= i { MulMono(c, i, ntpb); } else { Distribute(i, 1, ntpb); MulMono(i + 1, c, ntpb); }
  }

  /** The pages between first and end page are those that are due. */
  lemma RangeIsDue(t: Task, ntpb: nat, num: nat, i: nat)
    requires Covered(t, ntpb, num) && i < num
    ensures FirstPage(t, ntpb) <= i < EndPage(t, ntpb, num) <==> Due(t, ntpb, i)
  {
    hide Page, CeilDiv;
    PageAt(t.seen, ntpb, i);
    PageAt(t.End(), ntpb, i);
    if t.seen <= i * ntpb { Distribute(i, 1, ntpb); }
  }

  ghost predicate PagesSent(out: seq<IpcBlock>, src: seq<nat>, dst: seq<nat>, blockSize: nat, t: Task, ntpb: nat) {
    forall i: nat, b: nat :: i < |src| && i < |dst| && b < blockSize ==>
      PageByte(out, src[i], dst[i], blockSize, blockSize, b, Due(t, ntpb, i))
  }

  lemma RangeIsSent(src: seq<nat>, dst: seq<nat>, blockSize: nat, t: Task, ntpb: nat)
    requires Covered(t, ntpb, |src|) && Distinct(dst)
    requires FirstPage(t, ntpb) <= EndPage(t, ntpb, |src|) <= |src| && EndPage(t, ntpb, |src|) <= |dst|
    ensures PagesSent(PageRecords(src, dst, blockSize, FirstPage(t, ntpb), EndPage(t, ntpb, |src|)), src, dst, blockSize, t, ntpb)
  {
    hide PageRecords, FirstPage, EndPage, PageByte, Due;
    var first, last := FirstPage(t, ntpb), EndPage(t, ntpb, |src|);
    var out := PageRecords(src, dst, blockSize, first, last);
    forall i: nat, b: nat | i < |src| && i < |dst| && b < blockSize
      ensures PageByte(out, src[i], dst[i], blockSize, blockSize, b, Due(t, ntpb, i))
    {
      RangeIsDue(t, ntpb, |src|, i);
      PageBytes(out, src, dst, blockSize, blockSize, blockSize, first, last, i, b);
    }
  }

  // ---------------------------------------------------------------------------
  // The loop
  // ---------------------------------------------------------------------------

  /** One past the last page sent once `wrote` tokens have been walked. */
  function Mark(t: Task, wrote: nat, ntpb: nat): nat
    requires ntpb > 0
  {
    if t.reachLast && wrote > t.seen then CeilDiv(wrote, ntpb) else Page(wrote, ntpb)
  }

  /** One step of the walk: `tokens` more tokens, up to the page boundary or the end of the
      chunk. */
  lemma WalkStep(t: Task, wrote: nat, tokens: nat, left: nat, ntpb: nat)
    requires ntpb > 0 && t.seen <= wrote && wrote + left == t.End() && 0 < left
    requires wrote == t.seen || Slot(wrote, ntpb) == 0
    requires tokens == Min(ntpb - Slot(wrote, ntpb), left)
    ensures 0 < tokens <= left && Mark(t, wrote, ntpb) == Page(wrote, ntpb)
    ensures Slot(wrote + tokens, ntpb) == 0 || tokens == left
    ensures Mark(t, wrote + tokens, ntpb)
         == if t.reachLast || Slot(wrote, ntpb) + tokens == ntpb then Page(wrote, ntpb) + 1 else Page(wrote, ntpb)
  {
    hide Page, Slot, CeilDiv;
    CeilStep(wrote, ntpb);
    CeilStep(wrote + tokens, ntpb);
    StepTo(wrote, tokens, ntpb);
  }

  /** Sends the pages of one task, in order, or throws if one of them is out of range. */
  method ParseBlockAlignedSend(blockSize: nat, task: Task, src: seq<nat>, dst: seq<nat>, ntpb: nat, bounds: Bounds)
    returns (ok: bool, out: seq<IpcBlock>)
    requires bounds.Valid() && blockSize > 0 && Covered(task, ntpb, |src|) && Covered(task, ntpb, |dst|)
    requires task.reachLast ==> |src| == |dst|
    ensures FirstPage(task, ntpb) <= EndPage(task, ntpb, |src|) <= |src| && EndPage(task, ntpb, |src|) <= |dst|
    ensures ok ==> out == PageRecords(src, dst, blockSize, FirstPage(task, ntpb), EndPage(task, ntpb, |src|))
    ensures ok <==> AllInRange(bounds, PageRecords(src, dst, blockSize, FirstPage(task, ntpb), EndPage(task, ntpb, |src|)))
    ensures ok && Distinct(dst) ==> PagesSent(out, src, dst, blockSize, task, ntpb)
  {
    hide *;
    if Distinct(dst) {
      BothTables(task, ntpb, |src|, |dst|);
      RangeIsSent(src, dst, blockSize, task, ntpb);
    }
    BothTables(task, ntpb, |src|, |dst|);
    PositivePage(task, ntpb, |src|);
    ghost var first, last := FirstPage(task, ntpb), EndPage(task, ntpb, |src|);
    ghost var ref := PageRecords(src, dst, blockSize, first, last);
    var wrote, left := task.seen, task.new_;
    out := [];
    StartMark(task, ntpb, src, dst, blockSize, bounds);
    while left > 0
      invariant task.seen <= wrote && wrote + left == task.End()
      invariant wrote == task.seen || Slot(wrote, ntpb) == 0 || left == 0
      invariant left > 0 || task.new_ > 0 ==> Page(task.seen, ntpb) <= Mark(task, wrote, ntpb) <= |src|
      invariant left > 0 || task.new_ > 0 ==> Mark(task, wrote, ntpb) <= |dst|
      invariant left > 0 || task.new_ > 0 ==> out == PageRecords(src, dst, blockSize, Page(task.seen, ntpb), Mark(task, wrote, ntpb))
      invariant task.new_ == 0 ==> out == []
      invariant AllInRange(bounds, out)
    {
      var blkIdx, tokenIdx := Page(wrote, ntpb), Slot(wrote, ntpb);
      var tokens := Min(ntpb - tokenIdx, left);
      WalkStep(task, wrote, tokens, left, ntpb);
      InsideTable(task, wrote, ntpb, |src|);
      InsideTable(task, wrote, ntpb, |dst|);
      var length := 0;
      if tokens != ntpb {
        if task.reachLast {
          length := blockSize;
        } else if tokenIdx == 0 {
          length := 0;
        } else if tokenIdx + tokens == ntpb {
          length := blockSize;
        } else {
          length := 0;
        }
      } else {
        length := blockSize;
      }
      if length > 0 {
        ghost var prev := out;
        ok, out := AppendIpcBlockChecked(out, bounds, Times(src[blkIdx], blockSize), Times(dst[blkIdx], blockSize), length);
        PageMember(task, src, dst, blockSize, ntpb, wrote, tokens, bounds);
        if !ok { return; }
        NextPage(src, dst, blockSize, Page(task.seen, ntpb), blkIdx, prev, bounds);
      }
      wrote := wrote + tokens;
      left := left - tokens;
    }
    ok := true;
    if task.reachLast {
      var i := CeilDiv(wrote, ntpb);
      assert first <= i <= |src| && out == PageRecords(src, dst, blockSize, first, i) && last == |src| by {
        WalkDone(task, wrote, ntpb, src, dst, blockSize, out);
      }
      while i < |src|
        invariant first <= i <= |src|
        invariant out == PageRecords(src, dst, blockSize, first, i)
        invariant AllInRange(bounds, out)
        invariant ok
      {
        ghost var prev := out;
        ok, out := AppendIpcBlockChecked(out, bounds, Times(src[i], blockSize), Times(dst[i], blockSize), blockSize);
        TailMember(src, dst, blockSize, first, i, bounds);
        if !ok { return; }
        NextPage(src, dst, blockSize, first, i, prev, bounds);
        i := i + 1;
      }
    } else {
      OpenDone(task, ntpb, src, dst, blockSize);
    }
  }

  lemma PositivePage(t: Task, ntpb: nat, num: nat)
    requires Covered(t, ntpb, num)
    ensures ntpb > 0 && t.End() == t.seen + t.new_
  {
  }

  lemma StartMark(t: Task, ntpb: nat, src: seq<nat>, dst: seq<nat>, blockSize: nat, bounds: Bounds)
    requires Covered(t, ntpb, |src|) && Covered(t, ntpb, |dst|)
    ensures Mark(t, t.seen, ntpb) == Page(t.seen, ntpb) <= |src| && Page(t.seen, ntpb) <= |dst|
    ensures PageRecords(src, dst, blockSize, Page(t.seen, ntpb), Page(t.seen, ntpb)) == [] && AllInRange(bounds, [])
  {
    PageBelow(t.seen, ntpb, |src|);
    PageBelow(t.seen, ntpb, |dst|);
  }

  /** A task that is not the last one sends only pages that both tables have. */
  lemma BothTables(t: Task, ntpb: nat, src: nat, dst: nat)
    requires Covered(t, ntpb, src) && Covered(t, ntpb, dst) && (t.reachLast ==> src == dst)
    ensures FirstPage(t, ntpb) <= EndPage(t, ntpb, src) <= src && EndPage(t, ntpb, src) <= dst
  {
    hide Page, CeilDiv;
    PagesInTable(t, ntpb, src);
    PagesInTable(t, ntpb, dst);
  }

  lemma InsideTable(t: Task, wrote: nat, ntpb: nat, num: nat)
    requires Covered(t, ntpb, num) && wrote < t.End()
    ensures Page(wrote, ntpb) < num
  {
    PageBelow(wrote, ntpb, num);
  }

  lemma NextPage(src: seq<nat>, dst: seq<nat>, blockSize: nat, lo: nat, i: nat, prev: seq<IpcBlock>, bounds: Bounds)
    requires lo <= i < |src| && i < |dst| && prev == PageRecords(src, dst, blockSize, lo, i) && AllInRange(bounds, prev)
    ensures prev + [IpcBlock(Times(src[i], blockSize), Times(dst[i], blockSize), blockSize)] == PageRecords(src, dst, blockSize, lo, i + 1)
    ensures InRange(bounds, IpcBlock(Times(src[i], blockSize), Times(dst[i], blockSize), blockSize))
            ==> AllInRange(bounds, PageRecords(src, dst, blockSize, lo, i + 1))
  {
    hide InRange;
  }

  lemma {:induction false} PageIn(src: seq<nat>, dst: seq<nat>, blockSize: nat, lo: nat, hi: nat, i: nat)
    requires lo <= i < hi <= |src| && hi <= |dst|
    ensures PageRecord(src, dst, blockSize, i) in PageRecords(src, dst, blockSize, lo, hi)
    decreases hi
  {
    hide PageRecord;
    if i < hi - 1 { PageIn(src, dst, blockSize, lo, hi - 1, i); }
  }

  lemma TailMember(src: seq<nat>, dst: seq<nat>, blockSize: nat, lo: nat, i: nat, bounds: Bounds)
    requires lo <= i < |src| == |dst|
    ensures !InRange(bounds, IpcBlock(Times(src[i], blockSize), Times(dst[i], blockSize), blockSize))
            ==> !AllInRange(bounds, PageRecords(src, dst, blockSize, lo, |src|))
  {
    hide InRange;
    PageIn(src, dst, blockSize, lo, |src|, i);
  }

  lemma PageMember(t: Task, src: seq<nat>, dst: seq<nat>, blockSize: nat, ntpb: nat, wrote: nat, tokens: nat,
                   bounds: Bounds)
    requires Covered(t, ntpb, |src|) && Covered(t, ntpb, |dst|) && (t.reachLast ==> |src| == |dst|) && t.seen <= wrote < t.End()
    requires t.reachLast || Slot(wrote, ntpb) + tokens == ntpb
    requires tokens == Min(ntpb - Slot(wrote, ntpb), t.End() - wrote)
    ensures Page(wrote, ntpb) < |src| && Page(wrote, ntpb) < |dst|
    ensures FirstPage(t, ntpb) <= EndPage(t, ntpb, |src|) <= |src| && EndPage(t, ntpb, |src|) <= |dst|
    ensures var b := IpcBlock(Times(src[Page(wrote, ntpb)], blockSize), Times(dst[Page(wrote, ntpb)], blockSize), blockSize);
            !InRange(bounds, b) ==> !AllInRange(bounds, PageRecords(src, dst, blockSize, FirstPage(t, ntpb), EndPage(t, ntpb, |src|)))
  {
    hide InRange, PageRecords, Page, Slot, CeilDiv;
    BothTables(t, ntpb, |src|, |dst|);
    InsideTable(t, wrote, ntpb, |src|);
    InsideTable(t, wrote, ntpb, |dst|);
    PageMono(t.seen, wrote, ntpb);
    if !t.reachLast {
      StepTo(wrote, tokens, ntpb);
      PageMono(wrote + tokens, t.End(), ntpb);
    }
    PageIn(src, dst, blockSize, FirstPage(t, ntpb), EndPage(t, ntpb, |src|), Page(wrote, ntpb));
  }

  lemma WalkDone(t: Task, wrote: nat, ntpb: nat, src: seq<nat>, dst: seq<nat>, blockSize: nat, out: seq<IpcBlock>)
    requires Covered(t, ntpb, |src|) && |src| == |dst| && t.reachLast && wrote == t.End()
    requires t.new_ > 0 ==> Page(t.seen, ntpb) <= Mark(t, wrote, ntpb) <= |src|
                            && out == PageRecords(src, dst, blockSize, Page(t.seen, ntpb), Mark(t, wrote, ntpb))
    requires t.new_ == 0 ==> out == []
    ensures FirstPage(t, ntpb) <= CeilDiv(wrote, ntpb) <= |src|
    ensures out == PageRecords(src, dst, blockSize, FirstPage(t, ntpb), CeilDiv(wrote, ntpb))
    ensures EndPage(t, ntpb, |src|) == |src|
  {
    PageBelow(wrote, ntpb, |src|);
  }

  lemma OpenDone(t: Task, ntpb: nat, src: seq<nat>, dst: seq<nat>, blockSize: nat)
    requires Covered(t, ntpb, |src|) && Covered(t, ntpb, |dst|) && !t.reachLast
    ensures FirstPage(t, ntpb) == Page(t.seen, ntpb) && EndPage(t, ntpb, |src|) == Mark(t, t.End(), ntpb) == Page(t.End(), ntpb)
    ensures Page(t.seen, ntpb) <= Page(t.End(), ntpb) <= |src| && Page(t.End(), ntpb) <= |dst|
    ensures t.new_ == 0 ==> PageRecords(src, dst, blockSize, Page(t.seen, ntpb), Page(t.End(), ntpb)) == []
  {
    PageBelow(t.End(), ntpb, |src|);
    PageBelow(t.End(), ntpb, |dst|);
    PageMono(t.seen, t.End(), ntpb);
  }

  // ---------------------------------------------------------------------------
  // Chunked prefill
  // ---------------------------------------------------------------------------

  /** Tokens computed after the first i chunks. */
  function SeenAt(seen: nat, chunks: seq<nat>, i: nat): nat
    requires i <= |chunks|
  {
    if i == 0 then seen else SeenAt(seen, chunks, i - 1) + chunks[i - 1]
  }

  /** Task of chunk i; only the last one carries the last token. */
  function ChunkTask(seen: nat, chunks: seq<nat>, i: nat): Task
    requires i < |chunks|
  {
    Task(SeenAt(seen, chunks, i), chunks[i], i == |chunks| - 1)
  }

  ghost predicate Chunking(seen: nat, chunks: seq<nat>, ntpb: nat, num: nat) {
    && ntpb > 0 && (forall i :: 0 <= i < |chunks| ==> chunks[i] > 0)
    && SeenAt(seen, chunks, |chunks|) <= num * ntpb
  }

  lemma {:induction false} SeenMono(seen: nat, chunks: seq<nat>, i: nat, j: nat)
    requires i <= j <= |chunks|
    ensures SeenAt(seen, chunks, i) <= SeenAt(seen, chunks, j)
  {
    if i < j { SeenMono(seen, chunks, i, j - 1); }
  }

  lemma ChunkCovered(seen: nat, chunks: seq<nat>, ntpb: nat, num: nat, i: nat)
    requires Chunking(seen, chunks, ntpb, num) && i < |chunks|
    ensures Covered(ChunkTask(seen, chunks, i), ntpb, num)
    ensures ChunkTask(seen, chunks, i).End() == SeenAt(seen, chunks, i + 1)
  {
    SeenMono(seen, chunks, i + 1, |chunks|);
  }

  /** What the first i chunks send, in order. */
  ghost function ChunkRecords(src: seq<nat>, dst: seq<nat>, blockSize: nat, seen: nat, chunks: seq<nat>, ntpb: nat,
                              i: nat): seq<IpcBlock>
    requires |src| == |dst| && Chunking(seen, chunks, ntpb, |src|) && i <= |chunks|
  {
    if i == 0 then []
    else
      ChunkCovered(seen, chunks, ntpb, |src|, i - 1);
      var t := ChunkTask(seen, chunks, i - 1);
      PagesInTable(t, ntpb, |src|);
      ChunkRecords(src, dst, blockSize, seen, chunks, ntpb, i - 1)
      + PageRecords(src, dst, blockSize, FirstPage(t, ntpb), EndPage(t, ntpb, |src|))
  }

  lemma ComputedPages(w: nat, ntpb: nat, num: nat)
    requires ntpb > 0 && w <= num * ntpb
    ensures Page(w, ntpb) <= num && Page(w, ntpb) * ntpb <= w
  {
    PageBelow(w, ntpb, num);
  }

  /** Before the last chunk, exactly the pages whose tokens have all been computed are sent. */
  lemma {:induction false} OpenChunks(src: seq<nat>, dst: seq<nat>, blockSize: nat, seen: nat, chunks: seq<nat>,
                                      ntpb: nat, i: nat)
    requires |src| == |dst| && Chunking(seen, chunks, ntpb, |src|) && i < |chunks|
    ensures Page(seen, ntpb) <= Page(SeenAt(seen, chunks, i), ntpb) <= |src|
    ensures Page(SeenAt(seen, chunks, i), ntpb) * ntpb <= SeenAt(seen, chunks, i)
    ensures ChunkRecords(src, dst, blockSize, seen, chunks, ntpb, i)
         == PageRecords(src, dst, blockSize, Page(seen, ntpb), Page(SeenAt(seen, chunks, i), ntpb))
  {
    hide Page, CeilDiv, PageRecords, PageRecord;
    var w := SeenAt(seen, chunks, i);
    SeenMono(seen, chunks, 0, i);
    SeenMono(seen, chunks, i, |chunks|);
    PageMono(seen, w, ntpb);
    ComputedPages(w, ntpb, |src|);
    if i == 0 {
      NoPages(src, dst, blockSize, Page(seen, ntpb));
    } else {
      OpenChunks(src, dst, blockSize, seen, chunks, ntpb, i - 1);
      ChunkCovered(seen, chunks, ntpb, |src|, i - 1);
      PageMono(SeenAt(seen, chunks, i - 1), w, ntpb);
      PagesJoin(src, dst, blockSize, Page(seen, ntpb), Page(SeenAt(seen, chunks, i - 1), ntpb), Page(w, ntpb));
    }
  }

  lemma NoPages(src: seq<nat>, dst: seq<nat>, blockSize: nat, i: nat)
    requires i <= |src| == |dst|
    ensures PageRecords(src, dst, blockSize, i, i) == []
  {
  }

  /** However a request is cut into chunks, the chunks together send every allocated page from
      the first uncached one on, once and in order. */
  lemma AllChunks(src: seq<nat>, dst: seq<nat>, blockSize: nat, seen: nat, chunks: seq<nat>, ntpb: nat)
    requires |src| == |dst| && Chunking(seen, chunks, ntpb, |src|) && chunks != []
    ensures Page(seen, ntpb) <= |src|
    ensures ChunkRecords(src, dst, blockSize, seen, chunks, ntpb, |chunks|)
         == PageRecords(src, dst, blockSize, Page(seen, ntpb), |src|)
    ensures Distinct(dst) ==>
              PagesFrom(ChunkRecords(src, dst, blockSize, seen, chunks, ntpb, |chunks|), src, dst, blockSize, ntpb, seen)
  {
    hide Page, CeilDiv, PageRecords, PageRecord, PagesFrom;
    var n := |chunks| - 1;
    OpenChunks(src, dst, blockSize, seen, chunks, ntpb, n);
    ChunkCovered(seen, chunks, ntpb, |src|, n);
    PagesJoin(src, dst, blockSize, Page(seen, ntpb), Page(SeenAt(seen, chunks, n), ntpb), |src|);
    if Distinct(dst) { RecordsFrom(src, dst, blockSize, ntpb, seen); }
  }

  /** Every byte of every page that reaches token w is copied once, and no byte of the others. */
  ghost predicate PagesFrom(out: seq<IpcBlock>, src: seq<nat>, dst: seq<nat>, blockSize: nat, ntpb: nat, w: nat) {
    forall i: nat, b: nat :: i < |src| && i < |dst| && b < blockSize ==>
      PageByte(out, src[i], dst[i], blockSize, blockSize, b, Reaches(i, ntpb, w))
  }

  lemma RecordsFrom(src: seq<nat>, dst: seq<nat>, blockSize: nat, ntpb: nat, w: nat)
    requires |src| == |dst| && ntpb > 0 && Page(w, ntpb) <= |src| && Distinct(dst)
    ensures PagesFrom(PageRecords(src, dst, blockSize, Page(w, ntpb), |src|), src, dst, blockSize, ntpb, w)
  {
    hide Page, PageRecords, PageByte, Reaches;
    var out := PageRecords(src, dst, blockSize, Page(w, ntpb), |src|);
    RecordsArePages(src, dst, blockSize, Page(w, ntpb), |src|);
    forall i: nat, b: nat | i < |src| && i < |dst| && b < blockSize
      ensures PageByte(out, src[i], dst[i], blockSize, blockSize, b, Reaches(i, ntpb, w))
    {
      PageAt(w, ntpb, i);
      PageBytes(out, src, dst, blockSize, blockSize, blockSize, Page(w, ntpb), |src|, i, b);
    }
  }

  lemma RecordsArePages(src: seq<nat>, dst: seq<nat>, blockSize: nat, lo: nat, hi: nat)
    requires lo <= hi <= |src| && hi <= |dst|
    ensures var r := PageRecords(src, dst, blockSize, lo, hi);
            forall j :: 0 <= j < hi - lo ==> r[j] == IpcBlock(src[lo + j] * blockSize, dst[lo + j] * blockSize, blockSize)
  {
  }

  // ---------------------------------------------------------------------------
  // The closed form of the replicated MLA parser
  // ---------------------------------------------------------------------------

  /** The MLA prefixes of the pages [lo, hi), in order. */
  function MlaRecords(src: seq<nat>, dst: seq<nat>, srcPage: nat, dstPage: nat, mlaSize: nat, lo: nat, hi: nat): (r: seq<IpcBlock>)
    requires lo <= hi <= |src| && hi <= |dst|
    ensures |r| == hi - lo
    ensures forall i :: 0 <= i < hi - lo ==> r[i] == IpcBlock(Times(src[lo + i], srcPage), Times(dst[lo + i], dstPage), mlaSize)
  {
    seq(hi - lo, i requires 0 <= i < hi - lo => IpcBlock(Times(src[lo + i], srcPage), Times(dst[lo + i], dstPage), mlaSize))
  }

  /** Equal-TP branch of the replicated MLA parser: the MLA prefix of every page of a send task. */
  method ParseReplicatedMla(task: Task, src: seq<nat>, dst: seq<nat>, ntpb: nat, srcPage: nat, dstPage: nat,
                            mlaSize: nat, bounds: Bounds)
    returns (ok: bool, out: seq<IpcBlock>)
    requires bounds.Valid() && |src| == |dst| && Covered(task, ntpb, |src|)
    ensures MlaFirst(task, ntpb) <= MlaEnd(task, ntpb, |src|) <= |src|
    ensures var ref := MlaRecords(src, dst, srcPage, dstPage, mlaSize, MlaFirst(task, ntpb), MlaEnd(task, ntpb, |src|));
            (ok <==> AllInRange(bounds, ref)) && (ok ==> out == ref)
    ensures ok && Distinct(dst) && mlaSize <= dstPage ==> MlaSent(out, task, src, dst, ntpb, srcPage, dstPage, mlaSize)
  {
    hide Page, CeilDiv, InRange, Times, MlaRecords, MlaSent;
    MlaInTable(task, ntpb, |src|);
    var firstBlock := MlaFirst(task, ntpb);
    var endBlock := MlaEnd(task, ntpb, |src|);
    ghost var ref := MlaRecords(src, dst, srcPage, dstPage, mlaSize, firstBlock, endBlock);
    out := [];
    ok := true;
    var i := firstBlock;
    while i < endBlock
      invariant firstBlock <= i <= endBlock && ok
      invariant out == ref[..i - firstBlock] && AllInRange(bounds, out)
    {
      ghost var k := i - firstBlock;
      assert ref[k] == IpcBlock(Times(src[firstBlock + k], srcPage), Times(dst[firstBlock + k], dstPage), mlaSize);
      assert ref[..k + 1] == ref[..k] + [ref[k]];
      ok, out := AppendIpcBlockChecked(out, bounds, Times(src[i], srcPage), Times(dst[i], dstPage), mlaSize);
      if !ok {
        assert ref[k] in ref;
        return;
      }
      i := i + 1;
    }
    assert ref[..endBlock - firstBlock] == ref;
    if Distinct(dst) && mlaSize <= dstPage {
      MlaPages(task, src, dst, ntpb, srcPage, dstPage, mlaSize);
    }
  }

  /** Page i has tokens of the send and, while the request is open, all of its tokens by the end of it. */
  predicate MlaDue(t: Task, ntpb: nat, i: nat) {
    Reaches(i, ntpb, t.seen) && (t.reachLast || Before(i, ntpb, t.seen + t.new_))
  }

  ghost predicate MlaSent(out: seq<IpcBlock>, t: Task, src: seq<nat>, dst: seq<nat>, ntpb: nat, srcPage: nat, dstPage: nat,
                          mlaSize: nat)
  {
    forall i: nat, b: nat :: i < |src| && i < |dst| && b < mlaSize ==>
      PageByte(out, src[i], dst[i], srcPage, dstPage, b, MlaDue(t, ntpb, i))
  }

  lemma MlaPages(t: Task, src: seq<nat>, dst: seq<nat>, ntpb: nat, srcPage: nat, dstPage: nat, mlaSize: nat)
    requires |src| == |dst| && Covered(t, ntpb, |src|) && MlaFirst(t, ntpb) <= MlaEnd(t, ntpb, |src|) <= |src|
    requires Distinct(dst) && mlaSize <= dstPage
    ensures MlaSent(MlaRecords(src, dst, srcPage, dstPage, mlaSize, MlaFirst(t, ntpb), MlaEnd(t, ntpb, |src|)),
                    t, src, dst, ntpb, srcPage, dstPage, mlaSize)
  {
    hide Page, MlaRecords, PageByte, Reaches, Before;
    var first, last := MlaFirst(t, ntpb), MlaEnd(t, ntpb, |src|);
    var out := MlaRecords(src, dst, srcPage, dstPage, mlaSize, first, last);
    forall i: nat, b: nat | i < |src| && i < |dst| && b < mlaSize
      ensures PageByte(out, src[i], dst[i], srcPage, dstPage, b, MlaDue(t, ntpb, i))
    {
      PageAt(t.seen, ntpb, i);
      PageAt(t.End(), ntpb, i);
      PageBytes(out, src, dst, srcPage, dstPage, mlaSize, first, last, i, b);
    }
  }

  function MlaFirst(t: Task, ntpb: nat): nat
    requires ntpb > 0
  {
    Page(t.seen, ntpb)
  }

  function MlaEnd(t: Task, ntpb: nat, num: nat): nat
    requires ntpb > 0
  {
    if t.reachLast then num else Page(t.End(), ntpb)
  }

  lemma MlaInTable(t: Task, ntpb: nat, num: nat)
    requires Covered(t, ntpb, num)
    ensures MlaFirst(t, ntpb) <= MlaEnd(t, ntpb, num) <= num
  {
    hide Page, CeilDiv;
    PageBelow(t.seen, ntpb, num);
    PageBelow(t.End(), ntpb, num);
    PageMono(t.seen, t.End(), ntpb);
  }

  /** Both parsers send the same pages of a task, except when a request is closed without new
      tokens in the middle of a page: then only the closed form sends that page. */
  lemma SamePagesAsMla(t: Task, ntpb: nat, num: nat)
    requires Covered(t, ntpb, num)
    ensures EndPage(t, ntpb, num) == MlaEnd(t, ntpb, num)
    ensures FirstPage(t, ntpb) == MlaFirst(t, ntpb) <==> !(t.reachLast && t.new_ == 0 && Slot(t.seen, ntpb) != 0)
  {
    hide Page, CeilDiv, Slot;
    CeilStep(t.seen, ntpb);
  }

  /** One page of two slots, closed after its first token without new ones. */
  lemma ClosedInsidePage()
    ensures var t := Task(1, 0, true); Covered(t, 2, 1) && FirstPage(t, 2) == 1 && MlaFirst(t, 2) == 0
  {
  }
}
