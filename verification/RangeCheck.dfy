/** The range check every record passes before it joins a transfer list. */
module RangeCheck {
  import opened Copies

  const SIZE_MAX: nat := 0xFFFF_FFFF_FFFF_FFFF

  /** Capacities are machine words; `srcScale` is 2 when the sender converts bf16 to fp8. */
  datatype Bounds = Bounds(srcCapacity: nat, dstCapacity: nat, srcScale: nat) {
    predicate Valid() {
      srcCapacity <= SIZE_MAX && dstCapacity <= SIZE_MAX
    }
  }

  /** The record is non-empty and both of its ranges lie inside their tensors. */
  predicate InRange(bounds: Bounds, b: IpcBlock) {
    && b.len > 0
    && bounds.srcScale > 0
    && b.src + b.len * bounds.srcScale <= bounds.srcCapacity
    && b.dst + b.len <= bounds.dstCapacity
  }

  predicate AllInRange(bounds: Bounds, bs: seq<IpcBlock>) {
    forall b <- bs :: InRange(bounds, b)
  }

  lemma ScaledOverflow(len: nat, scale: nat, cap: nat)
    requires scale > 0 && len > SIZE_MAX / scale && cap <= SIZE_MAX
    ensures len * scale > cap
  {
    var q := SIZE_MAX / scale;
    assert SIZE_MAX == q * scale + SIZE_MAX % scale;
    assert len * scale >= (q + 1) * scale == q * scale + scale;
  }

  /** Appends (src, dst, len) or throws. The test divides and subtracts so that no machine
      word overflows; it decides exactly the mathematical range condition. */
  method AppendIpcBlockChecked(blocks: seq<IpcBlock>, bounds: Bounds, src: nat, dst: nat, len: nat)
    returns (ok: bool, out: seq<IpcBlock>)
    requires bounds.Valid()
    ensures ok <==> InRange(bounds, IpcBlock(src, dst, len))
    ensures out == if ok then blocks + [IpcBlock(src, dst, len)] else blocks
  {
    var overflow := bounds.srcScale == 0 || len > SIZE_MAX / bounds.srcScale;
    var effective := if overflow then SIZE_MAX else len * bounds.srcScale;
    var srcInvalid := len == 0 || overflow || src > bounds.srcCapacity
                      || effective > bounds.srcCapacity - src;
    var dstInvalid := len == 0 || dst > bounds.dstCapacity || len > bounds.dstCapacity - dst;
    if bounds.srcScale > 0 && overflow {
      ScaledOverflow(len, bounds.srcScale, bounds.srcCapacity);
    }
    ok := !(srcInvalid || dstInvalid);
    out := if ok then blocks + [IpcBlock(src, dst, len)] else blocks;
  }

  lemma {:induction false} CountWitness(bs: seq<IpcBlock>, n: nat, s: int, d: int) returns (i: nat)
    requires n <= |bs| && CountTo(bs, n, s, d) > 0
    ensures i < n && Moves(bs[i], s, d)
  {
    if Moves(bs[n - 1], s, d) {
      i := n - 1;
    } else {
      i := CountWitness(bs, n - 1, s, d);
    }
  }

  lemma {:induction false} CountPositive(bs: seq<IpcBlock>, n: nat, i: nat, s: int, d: int)
    requires i < n <= |bs| && Moves(bs[i], s, d)
    ensures CountTo(bs, n, s, d) > 0
  {
    if i < n - 1 { CountPositive(bs, n - 1, i, s, d); }
  }

  /** Without conversion, whether a list of non-empty records is in range depends only on the
      copy it performs. */
  lemma CopyInRange(bounds: Bounds, a: seq<IpcBlock>, b: seq<IpcBlock>)
    requires bounds.srcScale == 1 && SameCopy(a, b) && AllInRange(bounds, b)
    requires forall i :: 0 <= i < |a| ==> a[i].len > 0
    ensures AllInRange(bounds, a)
  {
    hide CountTo;
    forall i | 0 <= i < |a| ensures InRange(bounds, a[i]) {
      var s, d := a[i].src + a[i].len - 1, a[i].dst + a[i].len - 1;
      CountPositive(a, |a|, i, s, d);
      assert Count(b, s, d) == Count(a, s, d);
      var j := CountWitness(b, |b|, s, d);
      assert InRange(bounds, b[j]);
    }
  }
}
