/** Overwriting a destination run with bytes of the request's zero block. */
module ZeroFill {
  import opened Arith
  import opened Copies
  import opened RangeCheck

  /** The fill passes the range check: its longest read and its whole destination fit. */
  predicate FillInRange(bounds: Bounds, zeroSrc: nat, dst: nat, length: nat, maxSeg: nat) {
    length == 0 ||
    (&& bounds.srcScale > 0
     && zeroSrc + Min(maxSeg, length) * bounds.srcScale <= bounds.srcCapacity
     && dst + length <= bounds.dstCapacity)
  }

  /** Every record from index n on reads at most maxSeg bytes, from the start of the zero block. */
  predicate ReadsZeroBlock(bs: seq<IpcBlock>, n: nat, zeroSrc: nat, maxSeg: nat) {
    forall i :: n <= i < |bs| ==> bs[i].src == zeroSrc && 0 < bs[i].len <= maxSeg
  }

  lemma SegInRange(bounds: Bounds, zeroSrc: nat, dst: nat, length: nat, maxSeg: nat, done: nat, seg: nat)
    requires done < length && seg == Min(maxSeg, length - done) > 0
    requires FillInRange(bounds, zeroSrc, dst, length, maxSeg)
    ensures InRange(bounds, IpcBlock(zeroSrc, dst + done, seg))
  {
    MulMono(seg, Min(maxSeg, length), bounds.srcScale);
  }

  lemma FirstAndLast(bounds: Bounds, zeroSrc: nat, dst: nat, length: nat, maxSeg: nat, last: nat)
    requires 0 < length && maxSeg > 0 && last < length
    requires InRange(bounds, IpcBlock(zeroSrc, dst, Min(maxSeg, length)))
    requires InRange(bounds, IpcBlock(zeroSrc, dst + last, length - last))
    ensures FillInRange(bounds, zeroSrc, dst, length, maxSeg)
  {
  }

  /** Writes [dst, dst + length) once, in segments that never read past maxSeg bytes of the
      zero block; throws exactly when the fill does not fit. */
  method EmitZeroFillSegments(zeroSrc: nat, dst: nat, length: nat, maxSeg: nat, bounds: Bounds, before: seq<IpcBlock>)
    returns (ok: bool, out: seq<IpcBlock>)
    requires maxSeg > 0 && bounds.Valid()
    ensures ok <==> FillInRange(bounds, zeroSrc, dst, length, maxSeg)
    ensures ok ==> |before| <= |out| && out[..|before|] == before
    ensures ok ==> ReadsZeroBlock(out, |before|, zeroSrc, maxSeg)
    ensures ok ==> forall d: int :: Writes(out, d) == Writes(before, d) + if dst <= d < dst + length then 1 else 0
  {
    hide WritesToCount, CountTo, InRange, FillInRange;
    out := before;
    var done := 0;
    ghost var last: nat := 0;
    while done < length
      invariant done <= length
      invariant |before| <= |out| && out[..|before|] == before
      invariant ReadsZeroBlock(out, |before|, zeroSrc, maxSeg)
      invariant forall d: int :: Writes(out, d) == Writes(before, d) + if dst <= d < dst + done then 1 else 0
      invariant done > 0 ==> InRange(bounds, IpcBlock(zeroSrc, dst, Min(maxSeg, length)))
      invariant done > 0 ==> last < done && InRange(bounds, IpcBlock(zeroSrc, dst + last, done - last))
    {
      var seg := Min(maxSeg, length - done);
      ghost var prev := out;
      ok, out := AppendIpcBlockChecked(out, bounds, zeroSrc, dst + done, seg);
      if !ok {
        if FillInRange(bounds, zeroSrc, dst, length, maxSeg) {
          SegInRange(bounds, zeroSrc, dst, length, maxSeg, done, seg);
        }
        return;
      }
      forall d: int
        ensures Writes(out, d) == Writes(prev, d) + if dst + done <= d < dst + done + seg then 1 else 0
      {
        Push(prev, IpcBlock(zeroSrc, dst + done, seg), 0, d);
      }
      last := done;
      done := done + seg;
    }
    ok := true;
    if length > 0 {
      FirstAndLast(bounds, zeroSrc, dst, length, maxSeg, last);
    } else {
      EmptyFill(bounds, zeroSrc, dst, maxSeg);
    }
  }

  lemma EmptyFill(bounds: Bounds, zeroSrc: nat, dst: nat, maxSeg: nat)
    ensures FillInRange(bounds, zeroSrc, dst, 0, maxSeg)
  {
  }
}
