/** Copying between the packed host buffer and the device tensor: a memcpy per block, kernel
    launches in batches that share one metadata buffer, or a mixture decided block by block.

    A copy operation is a record (host offset, device offset, length). Device-to-host copies are
    the mirrored records. */
module CopyKernels {
  import opened Arith
  import opened Copies

  /** Bytes of the first n blocks: where block n starts in the packed host buffer. */
  function Packed(blocks: seq<IpcBlock>, n: nat): nat
    requires n <= |blocks|
  {
    if n == 0 then 0 else Packed(blocks, n - 1) + blocks[n - 1].len
  }

  lemma {:induction false} PackedMono(blocks: seq<IpcBlock>, i: nat, n: nat)
    requires i <= n <= |blocks|
    ensures Packed(blocks, i) <= Packed(blocks, n)
  {
    if i < n { PackedMono(blocks, i, n - 1); }
  }

  /** The copies of the first n blocks, in order. */
  function Copied(blocks: seq<IpcBlock>, n: nat): (r: seq<IpcBlock>)
    requires n <= |blocks|
    ensures |r| == n && forall i :: 0 <= i < n ==> r[i] == IpcBlock(Packed(blocks, i), blocks[i].dst, blocks[i].len)
  {
    if n == 0 then [] else Copied(blocks, n - 1) + [IpcBlock(Packed(blocks, n - 1), blocks[n - 1].dst, blocks[n - 1].len)]
  }

  predicate NonEmpty(blocks: seq<IpcBlock>) {
    forall i :: 0 <= i < |blocks| ==> blocks[i].len > 0
  }

  /** The next block starts where the last one ends, inside the buffer. */
  lemma NextBlock(blocks: seq<IpcBlock>, i: nat)
    requires i < |blocks|
    ensures Packed(blocks, i + 1) == Packed(blocks, i) + blocks[i].len <= Packed(blocks, |blocks|)
    ensures Copied(blocks, i + 1) == Copied(blocks, i) + [IpcBlock(Packed(blocks, i), blocks[i].dst, blocks[i].len)]
  {
    PackedMono(blocks, i + 1, |blocks|);
  }

  lemma NoBlock(blocks: seq<IpcBlock>)
    ensures Packed(blocks, 0) == 0 && Copied(blocks, 0) == []
  {
  }

  /** One memcpy per block. */
  method EnqueueMemcpyLoop(blocks: seq<IpcBlock>, size: nat) returns (ops: seq<IpcBlock>)
    requires NonEmpty(blocks) && size == Packed(blocks, |blocks|)
    ensures ops == Copied(blocks, |blocks|)
  {
    hide Packed, Copied;
    ops := [];
    var offset := 0;
    NoBlock(blocks);
    for i := 0 to |blocks|
      invariant offset == Packed(blocks, i) && ops == Copied(blocks, i)
    {
      NextBlock(blocks, i);
      assert blocks[i].len > 0;
      assert offset + blocks[i].len <= size;
      ops := ops + [IpcBlock(offset, blocks[i].dst, blocks[i].len)];
      offset := offset + blocks[i].len;
    }
    assert offset == size;
  }

  /** Offsets of a launch: those of the records themselves, or packed from the start of the batch. */
  function Offset(blocks: seq<IpcBlock>, explicit: bool, i: nat): nat
    requires i < |blocks|
  {
    if explicit then blocks[i].src else Packed(blocks, i)
  }

  /** What a launch over these blocks copies, when its host pointer is `start`. */
  function Launched(blocks: seq<IpcBlock>, start: nat, explicit: bool): (r: seq<IpcBlock>)
    ensures |r| == |blocks|
    ensures forall i :: 0 <= i < |blocks| ==> r[i] == IpcBlock(start + Offset(blocks, explicit, i), blocks[i].dst, blocks[i].len)
  {
    seq(|blocks|, i requires 0 <= i < |blocks| => IpcBlock(start + Offset(blocks, explicit, i), blocks[i].dst, blocks[i].len))
  }

  ghost predicate Written(meta: seq<nat>, blocks: seq<IpcBlock>, explicit: bool, n: nat)
    requires n <= |blocks| && 3 * |blocks| <= |meta|
  {
    forall i :: 0 <= i < n ==>
      && meta[i] == Offset(blocks, explicit, i)
      && meta[|blocks| + i] == blocks[i].dst
      && meta[2 * |blocks| + i] == blocks[i].len
  }

  /** One kernel launch: fills the metadata buffer and copies what the buffer says. */
  method CopyDirect(meta: array<nat>, start: nat, blocks: seq<IpcBlock>, size: nat, explicit: bool)
    returns (ops: seq<IpcBlock>)
    requires NonEmpty(blocks) && 3 * |blocks| <= meta.Length
    requires Packed(blocks, |blocks|) <= size && (!explicit ==> Packed(blocks, |blocks|) == size)
    requires explicit ==> forall i :: 0 <= i < |blocks| ==> blocks[i].src + blocks[i].len <= size
    modifies meta
    ensures ops == Launched(blocks, start, explicit)
  {
    hide Packed, Written, Offset;
    var n := |blocks|;
    if n == 0 {
      return [];
    }
    var offset := 0;
    NoBlock(blocks);
    NothingWritten(meta[..], blocks, explicit);
    for i := 0 to n
      invariant offset == Packed(blocks, i) && Written(meta[..], blocks, explicit, i)
    {
      NextBlock(blocks, i);
      assert blocks[i].len > 0 && offset + blocks[i].len <= size;
      var host: nat := if explicit then blocks[i].src else offset;
      assert host + blocks[i].len <= size;
      ghost var was: seq<nat> := meta[..];
      meta[i] := host;
      meta[n + i] := blocks[i].dst;
      meta[2 * n + i] := blocks[i].len;
      WriteNext(was, blocks, explicit, i);
      assert meta[..] == was[i := host][n + i := blocks[i].dst][2 * n + i := blocks[i].len];
      offset := offset + blocks[i].len;
    }
    assert !explicit ==> offset == size;
    ops := ReadBack(meta[..], n, start);
    WrittenIsLaunched(meta[..], blocks, explicit, start);
  }

  /** What the kernel reads from the metadata buffer. */
  function ReadBack(meta: seq<nat>, n: nat, start: nat): (r: seq<IpcBlock>)
    requires 3 * n <= |meta|
    ensures |r| == n && forall i :: 0 <= i < n ==> r[i] == IpcBlock(start + meta[i], meta[n + i], meta[2 * n + i])
  {
    seq(n, i requires 0 <= i < n => IpcBlock(start + meta[i], meta[n + i], meta[2 * n + i]))
  }

  lemma NothingWritten(meta: seq<nat>, blocks: seq<IpcBlock>, explicit: bool)
    requires 3 * |blocks| <= |meta|
    ensures Written(meta, blocks, explicit, 0)
  {
  }

  lemma WriteNext(meta: seq<nat>, blocks: seq<IpcBlock>, explicit: bool, i: nat)
    requires i < |blocks| && 3 * |blocks| <= |meta| && Written(meta, blocks, explicit, i)
    ensures var n := |blocks|;
            var host := if explicit then blocks[i].src else Packed(blocks, i);
            Written(meta[i := host][n + i := blocks[i].dst][2 * n + i := blocks[i].len], blocks, explicit, i + 1)
  {
    hide Packed;
  }

  lemma WrittenIsLaunched(meta: seq<nat>, blocks: seq<IpcBlock>, explicit: bool, start: nat)
    requires 3 * |blocks| <= |meta| && Written(meta, blocks, explicit, |blocks|)
    ensures ReadBack(meta, |blocks|, start) == Launched(blocks, start, explicit)
  {
    hide Packed, Offset;
    assert forall i :: 0 <= i < |blocks| ==> ReadBack(meta, |blocks|, start)[i] == Launched(blocks, start, explicit)[i];
  }

  // ---------------------------------------------------------------------------
  // Batches
  // ---------------------------------------------------------------------------

  lemma {:induction false} PackedSlice(blocks: seq<IpcBlock>, lo: nat, n: nat)
    requires lo + n <= |blocks|
    ensures Packed(blocks[lo..lo + n], n) == Packed(blocks, lo + n) - Packed(blocks, lo)
  {
    if n > 0 {
      PackedSlice(blocks, lo, n - 1);
      PackedPrefix(blocks[lo..lo + n], blocks[lo..lo + n - 1], n - 1);
    }
  }

  lemma {:induction false} PackedPrefix(a: seq<IpcBlock>, b: seq<IpcBlock>, n: nat)
    requires n <= |a| && n <= |b| && a[..n] == b[..n]
    ensures Packed(a, n) == Packed(b, n)
  {
    if n > 0 {
      assert a[n - 1] == a[..n][n - 1] == b[..n][n - 1] == b[n - 1];
      assert a[..n - 1] == a[..n][..n - 1] == b[..n - 1];
      PackedPrefix(a, b, n - 1);
    }
  }

  /** A batch relative to its own start copies its part of the whole list. */
  lemma BatchIsPart(blocks: seq<IpcBlock>, lo: nat, n: nat)
    requires lo + n <= |blocks|
    ensures Copied(blocks, lo + n) == Copied(blocks, lo) + Launched(blocks[lo..lo + n], Packed(blocks, lo), false)
  {
    hide Packed;
    var batch := blocks[lo..lo + n];
    var l, r := Copied(blocks, lo + n), Copied(blocks, lo) + Launched(batch, Packed(blocks, lo), false);
    forall i | 0 <= i < lo + n ensures l[i] == r[i] {
      if i >= lo {
        PackedSlice(blocks, lo, i - lo);
        PackedPrefix(batch, blocks[lo..lo + (i - lo)], i - lo);
      }
    }
  }

  /** Kernel launches over at most `most` blocks each, all through the same metadata buffer. */
  method CopyInBatches(meta: array<nat>, blocks: seq<IpcBlock>, size: nat, most: nat) returns (ops: seq<IpcBlock>)
    requires NonEmpty(blocks) && most > 0 && 3 * most <= meta.Length && size == Packed(blocks, |blocks|)
    modifies meta
    ensures ops == Copied(blocks, |blocks|)
  {
    hide Packed, Copied;
    ops := [];
    var offset, done := 0, 0;
    NoBlock(blocks);
    while done < |blocks|
      invariant done <= |blocks| && offset == Packed(blocks, done) && ops == Copied(blocks, done)
    {
      var n := Min(most, |blocks| - done);
      var batch := blocks[done..done + n];
      PackedSlice(blocks, done, n);
      PackedMono(blocks, done, done + n);
      BatchIsPart(blocks, done, n);
      var batchSize := BatchSize(batch);
      offset := offset + batchSize;
      var part := CopyDirect(meta, offset - batchSize, batch, batchSize, false);
      ops := ops + part;
      done := done + n;
    }
  }

  method BatchSize(batch: seq<IpcBlock>) returns (size: nat)
    ensures size == Packed(batch, |batch|)
  {
    size := 0;
    for i := 0 to |batch|
      invariant size == Packed(batch, i)
    {
      size := size + batch[i].len;
    }
  }

  /** The same for records that carry their host offsets. */
  method EnqueueExplicit(meta: array<nat>, blocks: seq<IpcBlock>, size: nat, most: nat) returns (ops: seq<IpcBlock>)
    requires NonEmpty(blocks) && most > 0 && 3 * most <= meta.Length && Packed(blocks, |blocks|) <= size
    requires forall i :: 0 <= i < |blocks| ==> blocks[i].src + blocks[i].len <= size
    modifies meta
    ensures ops == blocks
  {
    hide Packed;
    ops := [];
    var done := 0;
    while done < |blocks|
      invariant done <= |blocks| && ops == blocks[..done]
    {
      var n := Min(most, |blocks| - done);
      var batch := blocks[done..done + n];
      PackedSlice(blocks, done, n);
      PackedMono(blocks, done + n, |blocks|);
      var part := CopyDirect(meta, 0, batch, size, true);
      assert part == batch;
      ops := ops + part;
      done := done + n;
    }
  }

  // ---------------------------------------------------------------------------
  // Mixing both
  // ---------------------------------------------------------------------------

  /** Sorting an operation into either of two lists adds it to the copy. */
  lemma EitherList(a: seq<IpcBlock>, b: seq<IpcBlock>, whole: seq<IpcBlock>, x: IpcBlock)
    requires SameCopy(a + b, whole)
    ensures SameCopy((a + [x]) + b, whole + [x]) && SameCopy(a + (b + [x]), whole + [x])
  {
    hide CountTo;
    forall s: int, d: int
      ensures Count((a + [x]) + b, s, d) == Count(whole + [x], s, d) == Count(a + (b + [x]), s, d)
    {
      CountConcat(a + [x], b, s, d);
      CountConcat(a, [x], s, d);
      CountConcat(a, b, s, d);
      CountConcat(a, b + [x], s, d);
      CountConcat(b, [x], s, d);
      CountConcat(whole, [x], s, d);
    }
  }

  /** Large blocks by memcpy, the others afterwards by kernels; nothing when no block is large. */
  method EnqueueHybrid(meta: array<nat>, blocks: seq<IpcBlock>, size: nat, most: nat, large: nat -> bool)
    returns (handled: bool, ops: seq<IpcBlock>)
    requires NonEmpty(blocks) && most > 0 && 3 * most <= meta.Length && size == Packed(blocks, |blocks|)
    modifies meta
    ensures handled <==> exists i :: 0 <= i < |blocks| && large(blocks[i].len)
    ensures handled ==> SameCopy(ops, Copied(blocks, |blocks|))
    ensures !handled ==> ops == []
  {
    hide Packed, Copied, SameCopy;
    var direct, kernel: seq<IpcBlock> := [], [];
    var offset := 0;
    NoBlock(blocks);
    SameCopyReflexive([]);
    NoBlock([]);
    assert direct + kernel == [];
    for i := 0 to |blocks|
      invariant offset == Packed(blocks, i) && SameCopy(direct + kernel, Copied(blocks, i))
      invariant direct == [] <==> forall k :: 0 <= k < i ==> !large(blocks[k].len)
      invariant NonEmpty(kernel) && Packed(kernel, |kernel|) <= offset
      invariant forall k :: 0 <= k < |kernel| ==> kernel[k].src + kernel[k].len <= size
    {
      NextBlock(blocks, i);
      var x := IpcBlock(offset, blocks[i].dst, blocks[i].len);
      EitherList(direct, kernel, Copied(blocks, i), x);
      if large(blocks[i].len) {
        direct := direct + [x];
      } else {
        PushPacked(kernel, x);
        kernel := kernel + [x];
      }
      offset := offset + blocks[i].len;
    }
    handled := direct != [];
    if !handled {
      return false, [];
    }
    var rest := EnqueueExplicit(meta, kernel, size, most);
    ops := direct + rest;
  }

  lemma PushPacked(blocks: seq<IpcBlock>, x: IpcBlock)
    ensures Packed(blocks + [x], |blocks| + 1) == Packed(blocks, |blocks|) + x.len
  {
    PackedPrefix(blocks + [x], blocks, |blocks|);
  }

  // ---------------------------------------------------------------------------
  // All strategies agree
  // ---------------------------------------------------------------------------

  datatype Method = Memcpy | Kernel

  /** Whatever method is chosen, and whatever blocks count as large, the operations perform the
      copy of the block list. Metadata never exceeds three entries per block of a batch. */
  method CopyHandleData(meta: array<nat>, blocks: seq<IpcBlock>, size: nat, most: nat, chosen: Method,
                        sameSize: bool, large: nat -> bool)
    returns (ops: seq<IpcBlock>)
    requires NonEmpty(blocks) && most > 0 && 3 * most <= meta.Length && size == Packed(blocks, |blocks|)
    modifies meta
    ensures SameCopy(ops, Copied(blocks, |blocks|))
  {
    hide Packed, Copied, SameCopy;
    SameCopyReflexive(Copied(blocks, |blocks|));
    if chosen.Memcpy? {
      ops := EnqueueMemcpyLoop(blocks, size);
      return;
    }
    if !sameSize {
      var handled, mixed := EnqueueHybrid(meta, blocks, size, most, large);
      if handled {
        return mixed;
      }
    }
    ops := CopyInBatches(meta, blocks, size, most);
  }

  ghost predicate WritesApart(bs: seq<IpcBlock>) {
    forall d: int :: Writes(bs, d) <= 1
  }

  lemma {:induction false} WriterOf(bs: seq<IpcBlock>, n: nat, d: int) returns (s: int)
    requires n <= |bs| && WritesToCount(bs, n, d) == 1
    ensures CountTo(bs, n, s, d) == 1
  {
    if WritesTo(bs[n - 1], d) {
      s := bs[n - 1].src + d - bs[n - 1].dst;
      assert Moves(bs[n - 1], s, d);
      NoneBefore(bs, n - 1, s, d);
    } else {
      s := WriterOf(bs, n - 1, d);
    }
  }

  lemma {:induction false} NoneBefore(bs: seq<IpcBlock>, n: nat, s: int, d: int)
    requires n <= |bs| && WritesToCount(bs, n, d) == 0
    ensures CountTo(bs, n, s, d) == 0
  {
    if n > 0 { NoneBefore(bs, n - 1, s, d); }
  }

  /** For disjoint targets, lists that perform the same copy leave the same memory. */
  lemma SameEffect(a: seq<IpcBlock>, b: seq<IpcBlock>, from: Memory, to: Memory, d: int)
    requires SameCopy(a, b) && WritesApart(b)
    ensures Transfer(a, from, to)(d) == Transfer(b, from, to)(d)
  {
    hide CountTo, WritesToCount;
    SameCopySameWrites(a, b, d);
    if Writes(b, d) == 0 {
      TransferUntouched(a, from, to, d);
      TransferUntouched(b, from, to, d);
    } else {
      var s := WriterOf(b, |b|, d);
      assert Count(a, s, d) == Count(b, s, d) == 1;
      TransferOnce(a, from, to, s, d);
      TransferOnce(b, from, to, s, d);
    }
  }

  ghost predicate Apart(blocks: seq<IpcBlock>) {
    forall i, j :: 0 <= i < j < |blocks| ==>
      blocks[i].dst + blocks[i].len <= blocks[j].dst || blocks[j].dst + blocks[j].len <= blocks[i].dst
  }

  lemma {:induction false} DeviceApart(blocks: seq<IpcBlock>, n: nat, d: int)
    requires Apart(blocks) && n <= |blocks|
    ensures Writes(Copied(blocks, n), d) <= 1
  {
    hide WritesToCount, Packed;
    if n == 0 {
      CountEmpty(0, d);
    } else {
      DeviceApart(blocks, n - 1, d);
      var x := IpcBlock(Packed(blocks, n - 1), blocks[n - 1].dst, blocks[n - 1].len);
      Push(Copied(blocks, n - 1), x, 0, d);
      if WritesTo(x, d) {
        WritesNone(Copied(blocks, n - 1), d);
      }
    }
  }

  /** The packed host buffer is never written twice. */
  lemma {:induction false} HostApart(blocks: seq<IpcBlock>, n: nat, d: int)
    requires n <= |blocks|
    ensures Writes(Mirror(Copied(blocks, n)), d) <= 1
    ensures d >= Packed(blocks, n) ==> Writes(Mirror(Copied(blocks, n)), d) == 0
  {
    hide WritesToCount;
    if n == 0 {
      CountEmpty(0, d);
    } else {
      HostApart(blocks, n - 1, d);
      var x := IpcBlock(Packed(blocks, n - 1), blocks[n - 1].dst, blocks[n - 1].len);
      MirrorConcat(Copied(blocks, n - 1), [x]);
      assert Mirror([x]) == [Swap(x)];
      Push(Mirror(Copied(blocks, n - 1)), Swap(x), 0, d);
    }
  }

  /** Host to device: for disjoint device ranges every strategy leaves the same device memory. */
  lemma StrategiesAgreeOnDevice(ops: seq<IpcBlock>, blocks: seq<IpcBlock>, host: Memory, device: Memory, d: int)
    requires Apart(blocks) && SameCopy(ops, Copied(blocks, |blocks|))
    ensures Transfer(ops, host, device)(d) == Transfer(Copied(blocks, |blocks|), host, device)(d)
  {
    forall x: int ensures Writes(Copied(blocks, |blocks|), x) <= 1 {
      DeviceApart(blocks, |blocks|, x);
    }
    SameEffect(ops, Copied(blocks, |blocks|), host, device, d);
  }

  /** Device to host: every strategy leaves the same host buffer. */
  lemma StrategiesAgreeOnHost(ops: seq<IpcBlock>, blocks: seq<IpcBlock>, host: Memory, device: Memory, d: int)
    requires SameCopy(ops, Copied(blocks, |blocks|))
    ensures Transfer(Mirror(ops), device, host)(d) == Transfer(Mirror(Copied(blocks, |blocks|)), device, host)(d)
  {
    hide CountTo;
    var whole := Copied(blocks, |blocks|);
    forall x: int ensures Writes(Mirror(whole), x) <= 1 {
      HostApart(blocks, |blocks|, x);
    }
    forall s: int, x: int ensures Count(Mirror(ops), s, x) == Count(Mirror(whole), s, x) {
      MirrorCount(ops, x, s);
      MirrorCount(whole, x, s);
      assert Count(ops, x, s) == Count(whole, x, s);
    }
    SameEffect(Mirror(ops), Mirror(whole), device, host, d);
  }
}
