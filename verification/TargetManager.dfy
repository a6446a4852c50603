/** The transfer client's send targets: a list in order of use, an index from (instance, worker)
    to list nodes, and per-target counts of batches that the thread pool has not completed.

    A list node is identified by a number that is never reused, as an iterator would be. Every
    method is one atomic step; the pool completing a batch is the step `Complete`, which may
    happen between any two others. */
module TargetManager {
  import opened Sequences
  import opened Wrappers

  datatype Target = Target(inst: string, wid: nat, inFlight: nat, hint: nat)

  /** A batch handed to the pool: the target it refers to and the pool thread it runs on. */
  datatype Batch = Batch(node: nat, hint: nat)

  type Index = map<string, seq<Option<nat>>>

  // ---------------------------------------------------------------------------
  // The index
  // ---------------------------------------------------------------------------

  function Lookup(m: Index, inst: string, wid: nat): Option<nat> {
    if inst in m && wid < |m[inst]| then m[inst][wid] else None
  }

  predicate Occupied(v: seq<Option<nat>>) {
    exists i :: 0 <= i < |v| && v[i].Some?
  }

  /** No instance is kept without a target. */
  ghost predicate Trim(m: Index) {
    forall inst :: inst in m ==> Occupied(m[inst])
  }

  function Resized(v: seq<Option<nat>>, n: nat): (r: seq<Option<nat>>)
    ensures |r| >= n && |r| >= |v| && r[..|v|] == v
    ensures forall i :: |v| <= i < |r| ==> r[i] == None
  {
    if |v| >= n then v else v + seq(n - |v|, _ => None)
  }

  function Insert(m: Index, inst: string, wid: nat, node: nat): (r: Index)
    ensures Trim(m) ==> Trim(r)
    ensures forall i, w: nat :: Lookup(r, i, w) == if i == inst && w == wid then Some(node) else Lookup(m, i, w)
  {
    var v := Resized(if inst in m then m[inst] else [], wid + 1);
    var r := m[inst := v[wid := Some(node)]];
    assert r[inst][wid].Some?;
    r
  }

  function Remove(m: Index, inst: string, wid: nat): (r: Index)
    requires inst in m && wid < |m[inst]|
    ensures Trim(m) ==> Trim(r)
    ensures forall i, w: nat :: Lookup(r, i, w) == if i == inst && w == wid then None else Lookup(m, i, w)
  {
    var v := m[inst][wid := None];
    assert forall w :: 0 <= w < |v| && w != wid ==> m[inst][w] == v[w];
    if Occupied(v) then m[inst := v] else m - {inst}
  }

  // ---------------------------------------------------------------------------
  // Counting batches
  // ---------------------------------------------------------------------------

  function BatchesOf(bs: seq<Batch>, node: nat): nat {
    if bs == [] then 0 else BatchesOf(bs[..|bs| - 1], node) + if bs[|bs| - 1].node == node then 1 else 0
  }

  lemma BatchPush(bs: seq<Batch>, b: Batch, node: nat)
    ensures BatchesOf(bs + [b], node) == BatchesOf(bs, node) + if b.node == node then 1 else 0
  {
    assert (bs + [b])[..|bs|] == bs;
  }

  lemma {:induction false} BatchRemove(bs: seq<Batch>, i: nat, node: nat)
    requires i < |bs|
    ensures BatchesOf(bs, node) == BatchesOf(bs[..i] + bs[i + 1..], node) + if bs[i].node == node then 1 else 0
  {
    var n := |bs| - 1;
    if i == n {
      assert bs[..i] + bs[i + 1..] == bs[..n];
    } else {
      BatchRemove(bs[..n], i, node);
      assert bs[..i] + bs[i + 1..] == (bs[..n][..i] + bs[..n][i + 1..]) + [bs[n]];
      BatchPush(bs[..n][..i] + bs[..n][i + 1..], bs[n], node);
    }
  }

  lemma BatchCounted(bs: seq<Batch>, i: nat)
    requires i < |bs|
    ensures BatchesOf(bs, bs[i].node) > 0
  {
    BatchRemove(bs, i, bs[i].node);
  }

  lemma {:induction false} NoBatch(bs: seq<Batch>, node: nat)
    requires forall i :: 0 <= i < |bs| ==> bs[i].node != node
    ensures BatchesOf(bs, node) == 0
  {
    if bs != [] { NoBatch(bs[..|bs| - 1], node); }
  }

  // ---------------------------------------------------------------------------
  // The invariant
  // ---------------------------------------------------------------------------

  /** List nodes and index entries are in bijection. */
  ghost predicate Indexed(targets: seq<nat>, node: map<nat, Target>, m: Index) {
    && Distinct(targets) && Trim(m)
    && (forall n :: n in targets ==> n in node && Lookup(m, node[n].inst, node[n].wid) == Some(n))
    && (forall i, w: nat :: Lookup(m, i, w).Some? ==>
          var n := Lookup(m, i, w).value; n in targets && n in node && node[n].inst == i && node[n].wid == w)
  }

  /** The list is in order of use, most recent first. */
  ghost predicate ByUse(targets: seq<nat>, lastUse: map<nat, nat>, clock: nat) {
    && (forall i :: 0 <= i < |targets| ==> targets[i] in lastUse && lastUse[targets[i]] < clock)
    && (forall i, j :: 0 <= i < j < |targets| ==> lastUse[targets[i]] > lastUse[targets[j]])
  }

  /** Every batch of the pool refers to a listed target and carries that target's hint, and the
      targets count their batches. */
  ghost predicate Counted(targets: seq<nat>, node: map<nat, Target>, batches: seq<Batch>) {
    && (forall i :: 0 <= i < |batches| ==>
          batches[i].node in targets && batches[i].node in node && batches[i].hint == node[batches[i].node].hint)
    && (forall n :: n in targets ==> n in node && node[n].inFlight == BatchesOf(batches, n))
  }

  class TargetMgr {
    var targets: seq<nat>
    var node: map<nat, Target>
    var targetMap: Index
    var threadHint: nat
    var nextNode: nat

    ghost var batches: seq<Batch>
    ghost var lastUse: map<nat, nat>
    ghost var clock: nat

    ghost predicate Valid()
      reads this
    {
      && Indexed(targets, node, targetMap) && ByUse(targets, lastUse, clock) && Counted(targets, node, batches)
      && (forall n :: n in node ==> n < nextNode)
    }

    constructor ()
      ensures Valid() && targets == [] && batches == []
    {
      targets, node, targetMap, threadHint, nextNode := [], map[], map[], 0, 0;
      batches, lastUse, clock := [], map[], 0;
    }

    method Peek(inst: string, wid: nat) returns (n: Option<nat>)
      requires Valid()
      ensures n == Lookup(targetMap, inst, wid)
      ensures n.Some? ==> n.value in targets && node[n.value].inst == inst && node[n.value].wid == wid
      ensures n.None? ==> forall t :: t in targets ==> !(node[t].inst == inst && node[t].wid == wid)
    {
      if inst !in targetMap {
        return None;
      }
      if wid >= |targetMap[inst]| {
        return None;
      }
      n := targetMap[inst][wid];
    }

    /** Finds a target and makes it the most recent one. */
    method Get(inst: string, wid: nat) returns (n: Option<nat>)
      requires Valid()
      modifies this`targets, this`lastUse, this`clock
      ensures Valid() && n == Lookup(targetMap, inst, wid)
      ensures n.None? ==> unchanged(this)
      ensures n.Some? ==>
                && n.value in old(targets) && targets == ToFront(old(targets), n.value)
                && node[n.value].inst == inst && node[n.value].wid == wid
    {
      hide ByUse, Counted, ToFront;
      n := Peek(inst, wid);
      if n.None? {
        return;
      }
      FrontKeeps(targets, node, targetMap, batches, n.value);
      FrontByUse(targets, lastUse, clock, n.value);
      targets := ToFront(targets, n.value);
      lastUse, clock := lastUse[n.value := clock], clock + 1;
    }

    /** Adds a target that is not listed yet, as the most recent one. */
    method Create(inst: string, wid: nat) returns (n: nat)
      requires Valid() && Lookup(targetMap, inst, wid).None?
      modifies this
      ensures Valid() && n !in old(targets) && targets == [n] + old(targets)
      ensures node == old(node)[n := Target(inst, wid, 0, 0)] && batches == old(batches) && threadHint == old(threadHint)
      ensures clock == old(clock) + 1 && lastUse == old(lastUse)[n := old(clock)]
    {
      hide Indexed, ByUse, Counted, Lookup, Insert;
      n := nextNode;
      NewKeeps(targets, node, targetMap, batches, n, inst, wid);
      ListedKnown(targets, node, targetMap);
      NewByUse(targets, lastUse, clock, n);
      nextNode := nextNode + 1;
      targets := [n] + targets;
      node := node[n := Target(inst, wid, 0, 0)];
      targetMap := Insert(targetMap, inst, wid, n);
      lastUse, clock := lastUse[n := clock], clock + 1;
    }

    /** The most recent target for a destination, added if there is none. */
    method CreateOrGet(inst: string, wid: nat) returns (n: nat)
      requires Valid()
      modifies this
      ensures Valid() && targets != [] && targets[0] == n && (node[n].inst, node[n].wid) == (inst, wid)
      ensures batches == old(batches)
      ensures if n in old(targets) then targets == ToFront(old(targets), n) && node == old(node)
              else targets == [n] + old(targets) && node == old(node)[n := Target(inst, wid, 0, 0)]
      ensures threadHint == old(threadHint)
    {
      hide Indexed, ByUse, Counted, ToFront, Lookup;
      var found := Get(inst, wid);
      if found.Some? {
        n := found.value;
        FrontFirst(old(targets), n);
      } else {
        n := Create(inst, wid);
      }
    }

    /** Hands one batch to the pool. A target without batches in flight gets a new thread hint. */
    method SubmitBatch(inst: string, wid: nat) returns (n: nat)
      requires Valid()
      modifies this
      ensures Valid() && targets != [] && n == targets[0] && n in node && (node[n].inst, node[n].wid) == (inst, wid)
      ensures batches == old(batches) + [Batch(n, node[n].hint)]
      ensures n in old(targets) && n in old(node) && old(node)[n].inFlight > 0 ==> node[n].hint == old(node)[n].hint
      ensures n !in old(targets) || (n in old(node) && old(node)[n].inFlight == 0) ==>
                node[n].hint == threadHint == old(threadHint) + 1
      ensures targets == if n in old(targets) then ToFront(old(targets), n) else [n] + old(targets)
      ensures forall t :: t in old(targets) ==> t in targets && SameDest(old(node), node, t)
    {
      hide Indexed, ByUse, Counted, ToFront, Lookup;
      ListedKnown(targets, node, targetMap);
      n := CreateOrGet(inst, wid);
      ListedKnown(targets, node, targetMap);
      if n in old(targets) {
        FrontFirst(old(targets), n);
      }
      var t := node[n];
      if t.inFlight == 0 {
        threadHint := threadHint + 1;
        t := t.(hint := threadHint);
      }
      IncrementKeeps(targets, node, targetMap, batches, n, t.hint);
      node := node[n := t.(inFlight := t.inFlight + 1)];
      batches := batches + [Batch(n, t.hint)];
    }

    /** The pool completes a batch. */
    method Complete(n: nat, ghost i: nat)
      requires Valid() && i < |batches| && batches[i].node == n
      modifies this`node, this`batches
      ensures Valid() && batches == old(batches)[..i] + old(batches)[i + 1..]
      ensures n in targets && n in node && node == old(node)[n := node[n]]
      ensures node[n] == old(node[n]).(inFlight := node[n].inFlight) && node[n].inFlight + 1 == old(node[n].inFlight)
    {
      assert n in node;
      BatchCounted(batches, i);
      var t := node[n];
      assert t.inFlight > 0;
      DecrementKeeps(targets, node, targetMap, batches, i);
      node := node[n := t.(inFlight := t.inFlight - 1)];
      batches := batches[..i] + batches[i + 1..];
    }

    /** Takes a target out of the index; an instance without targets is dropped. */
    method TryPopMap(inst: string, wid: nat)
      requires Lookup(targetMap, inst, wid).Some?
      modifies this`targetMap
      ensures targetMap == Remove(old(targetMap), inst, wid)
    {
      var v := targetMap[inst][wid := None];
      targetMap := targetMap[inst := v];
      for i := 0 to |v|
        invariant forall k :: 0 <= k < i ==> v[k].None?
        invariant targetMap == old(targetMap)[inst := v]
      {
        if v[i].Some? {
          return;
        }
      }
      targetMap := targetMap - {inst};
      assert targetMap == old(targetMap) - {inst};
    }

    /** One round of shrinking: drops the least recent target if there are too many and it is idle. */
    method ShrinkOne(cap: nat) returns (more: bool)
      requires Valid()
      modifies this`targets, this`targetMap
      ensures Valid()
      ensures more == (|old(targets)| > cap && Idle(node, old(targets)[|old(targets)| - 1]))
      ensures targets == if more then old(targets)[..|old(targets)| - 1] else old(targets)
      ensures !more ==> targetMap == old(targetMap)
    {
      if |targets| <= cap {
        return false;
      }
      var n := targets[|targets| - 1];
      if node[n].inFlight > 0 {
        return false;
      }
      DropKeeps(targets, node, targetMap, batches);
      TryPopMap(node[n].inst, node[n].wid);
      targets := targets[..|targets| - 1];
      more := true;
    }

    /** Shrinking drops a suffix of idle targets and stops at the cap or at a busy target. */
    method TryShrink(cap: nat)
      requires Valid()
      modifies this`targets, this`targetMap
      ensures Valid() && |targets| <= |old(targets)| && targets == old(targets)[..|targets|]
      ensures forall i :: |targets| <= i < |old(targets)| ==> Idle(node, old(targets)[i])
      ensures |targets| <= cap || !Idle(node, targets[|targets| - 1])
      ensures |targets| < |old(targets)| ==> |targets| >= cap
    {
      hide *;
      ghost var before := targets;
      var more := |targets| > cap;
      while more
        invariant Valid() && |targets| <= |before| && targets == before[..|targets|]
        invariant forall i :: |targets| <= i < |before| ==> Idle(node, before[i])
        invariant more || |targets| <= cap || !Idle(node, targets[|targets| - 1])
        invariant |targets| < |before| ==> |targets| >= cap
        decreases more, |targets|
      {
        more := ShrinkOne(cap);
      }
    }

    /** The pool completes a batch of each of the given targets in turn, if it has one. */
    method PoolSteps(ns: seq<nat>) returns (ghost finished: seq<Batch>)
      requires Valid()
      modifies this`node, this`batches
      ensures Valid() && multiset(batches) + multiset(finished) == multiset(old(batches))
      ensures forall t :: t in targets ==> SameDest(old(node), node, t)
    {
      hide Indexed, ByUse, Counted, BatchesOf;
      ListedKnown(targets, node, targetMap);
      finished := [];
      for k := 0 to |ns|
        invariant Valid() && multiset(batches) + multiset(finished) == multiset(old(batches))
        invariant forall t :: t in targets ==> SameDest(old(node), node, t)
      {
        if ns[k] in targets && ns[k] in node && node[ns[k]].inFlight > 0 {
          ghost var i := BatchOf(targets, node, batches, ns[k]);
          ghost var b := batches[i];
          assert batches == batches[..i] + [b] + batches[i + 1..];
          Complete(ns[k], i);
          finished := finished + [b];
        }
      }
    }

    /** Submits one batch per destination, then shrinks the list. Before every submission, and before
        the shrinking, the pool may complete any batches. */
    method DoSubmit(dests: seq<(string, nat)>, cap: nat, pool: seq<seq<nat>>)
      returns (ghost submitted: seq<Batch>, ghost finished: seq<Batch>)
      requires Valid() && |pool| == |dests| + 1
      modifies this
      ensures Valid() && |submitted| == |dests|
      ensures multiset(batches) + multiset(finished) == multiset(old(batches)) + multiset(submitted)
      ensures forall i :: 0 <= i < |dests| ==>
                && IsFor(node, submitted[i], dests[i])
                && (submitted[i] in batches ==> Reaches(targets, node, submitted[i], dests[i]))
      ensures |targets| <= cap || !Idle(node, targets[|targets| - 1])
      ensures forall t :: t in old(targets) && t !in targets ==> |targets| >= cap && Idle(node, t)
      ensures forall i :: 0 <= i < |dests| && submitted[i].node !in targets ==> |targets| >= cap && Idle(node, submitted[i].node)
    {
      hide *;
      submitted, finished := [], [];
      for i := 0 to |dests|
        invariant Valid() && |submitted| == i
        invariant multiset(batches) + multiset(finished) == multiset(old(batches)) + multiset(submitted)
        invariant forall k :: 0 <= k < i ==> Reaches(targets, node, submitted[k], dests[k])
        invariant forall t :: t in old(targets) ==> t in targets
      {
        ghost var was := node;
        ghost var done := PoolSteps(pool[i]);
        finished := finished + done;
        forall k | 0 <= k < i ensures Reaches(targets, node, submitted[k], dests[k]) {
          StillReaches(targets, targets, was, node, submitted[k], dests[k]);
        }
        ghost var before, flying := targets, batches;
        assert multiset(flying) + multiset(finished) == multiset(old(batches)) + multiset(submitted);
        was := node;
        var n := SubmitBatch(dests[i].0, dests[i].1);
        forall k | 0 <= k < i ensures Reaches(targets, node, submitted[k], dests[k]) {
          StillReaches(before, targets, was, node, submitted[k], dests[k]);
        }
        NowReaches(targets, node, n, node[n].hint, dests[i]);
        Conserve(old(batches), submitted, flying, finished, Batch(n, node[n].hint));
        submitted := submitted + [Batch(n, node[n].hint)];
      }
      ghost var was := node;
      ghost var done := PoolSteps(pool[|dests|]);
      finished := finished + done;
      forall k | 0 <= k < |dests| ensures Reaches(targets, node, submitted[k], dests[k]) {
        StillReaches(targets, targets, was, node, submitted[k], dests[k]);
      }
      ghost var before := targets;
      TryShrink(cap);
      BatchesListed();
      forall t | t in before && t !in targets ensures |targets| >= cap && Idle(node, t) {
        var i :| 0 <= i < |before| && before[i] == t;
        assert i >= |targets|;
      }
      forall i | 0 <= i < |dests| ensures submitted[i].node in before {
        ReachesListed(before, node, submitted[i], dests[i]);
      }
      forall i | 0 <= i < |dests|
        ensures IsFor(node, submitted[i], dests[i])
        ensures submitted[i] in batches ==> Reaches(targets, node, submitted[i], dests[i])
      {
        AfterShrink(before, targets, node, submitted[i], dests[i]);
      }
    }

    /** No batch in flight refers to a removed target, and all batches of one target carry the
        same thread hint, so the pool runs them one after the other. */
    lemma BatchesListed()
      requires Valid()
      ensures forall i :: 0 <= i < |batches| ==> batches[i].node in targets
      ensures forall i, j :: 0 <= i < j < |batches| && batches[i].node == batches[j].node ==> batches[i].hint == batches[j].hint
    {
    }
  }

  ghost predicate Idle(node: map<nat, Target>, n: nat) {
    n in node && node[n].inFlight == 0
  }

  ghost predicate SameDest(was: map<nat, Target>, node: map<nat, Target>, n: nat) {
    n in was && n in node && node[n].inst == was[n].inst && node[n].wid == was[n].wid
  }

  lemma ListedKnown(targets: seq<nat>, node: map<nat, Target>, m: Index)
    requires Indexed(targets, node, m)
    ensures forall n :: n in targets ==> n in node
  {
  }

  lemma Conserve(all: seq<Batch>, submitted: seq<Batch>, flying: seq<Batch>, finished: seq<Batch>, b: Batch)
    requires multiset(flying) + multiset(finished) == multiset(all) + multiset(submitted)
    ensures multiset(flying + [b]) + multiset(finished) == multiset(all) + multiset(submitted + [b])
  {
    assert multiset(flying + [b]) == multiset(flying) + multiset{b};
    assert multiset(submitted + [b]) == multiset(submitted) + multiset{b};
    assert multiset(flying + [b]) + multiset(finished) == (multiset(flying) + multiset(finished)) + multiset{b};
    assert multiset(all) + multiset(submitted + [b]) == (multiset(all) + multiset(submitted)) + multiset{b};
  }

  lemma StillReaches(before: seq<nat>, targets: seq<nat>, was: map<nat, Target>, node: map<nat, Target>, b: Batch,
                     dest: (string, nat))
    requires Reaches(before, was, b, dest)
    requires forall t :: t in before ==> t in targets && SameDest(was, node, t)
    ensures Reaches(targets, node, b, dest)
  {
  }

  lemma NowReaches(targets: seq<nat>, node: map<nat, Target>, n: nat, hint: nat, dest: (string, nat))
    requires n in targets && n in node && (node[n].inst, node[n].wid) == (dest.0, dest.1)
    ensures Reaches(targets, node, Batch(n, hint), dest)
  {
  }

  lemma ReachesListed(targets: seq<nat>, node: map<nat, Target>, b: Batch, dest: (string, nat))
    requires Reaches(targets, node, b, dest)
    ensures b.node in targets
  {
  }

  lemma AfterShrink(before: seq<nat>, targets: seq<nat>, node: map<nat, Target>, b: Batch, dest: (string, nat))
    requires Reaches(before, node, b, dest)
    ensures IsFor(node, b, dest) && (b.node in targets ==> Reaches(targets, node, b, dest))
  {
  }

  /** A target with a positive count has a batch in flight. */
  lemma {:induction false} BatchOf(targets: seq<nat>, node: map<nat, Target>, batches: seq<Batch>, n: nat) returns (i: nat)
    requires Counted(targets, node, batches) && n in targets && n in node && node[n].inFlight > 0
    ensures i < |batches| && batches[i].node == n
  {
    i := FindBatch(batches, n);
  }

  lemma {:induction false} FindBatch(bs: seq<Batch>, n: nat) returns (i: nat)
    requires BatchesOf(bs, n) > 0
    ensures i < |bs| && bs[i].node == n
  {
    i := |bs| - 1;
    if bs[i].node != n { i := FindBatch(bs[..i], n); }
  }

  /** The batch goes to the target of the destination. */
  ghost predicate IsFor(node: map<nat, Target>, b: Batch, dest: (string, nat)) {
    b.node in node && node[b.node].inst == dest.0 && node[b.node].wid == dest.1
  }

  /** That target is listed. */
  ghost predicate Reaches(targets: seq<nat>, node: map<nat, Target>, b: Batch, dest: (string, nat)) {
    b.node in targets && IsFor(node, b, dest)
  }

  function Position(targets: seq<nat>, n: nat): (i: nat)
    requires n in targets
    ensures i < |targets| && targets[i] == n
  {
    if targets[0] == n then 0 else 1 + Position(targets[1..], n)
  }

  /** n first, the others in their order. */
  function ToFront(targets: seq<nat>, n: nat): seq<nat>
    requires n in targets
  {
    var i := Position(targets, n);
    [n] + targets[..i] + targets[i + 1..]
  }

  lemma FrontAt(targets: seq<nat>, n: nat, i: nat)
    requires n in targets && i < |targets|
    ensures |ToFront(targets, n)| == |targets|
    ensures ToFront(targets, n)[i] ==
            var p := Position(targets, n);
            if i == 0 then n else if i <= p then targets[i - 1] else targets[i]
  {
  }

  lemma FrontSame(targets: seq<nat>, n: nat)
    requires n in targets && Distinct(targets)
    ensures Distinct(ToFront(targets, n)) && forall x :: x in ToFront(targets, n) <==> x in targets
  {
    var r := ToFront(targets, n);
    var p := Position(targets, n);
    FrontFirst(targets, n);
    hide ToFront, Position;
    forall i, j | 0 <= i < j < |r| ensures r[i] != r[j] {
      FrontAt(targets, n, i);
      FrontAt(targets, n, j);
    }
    forall i | 0 <= i < |r| ensures r[i] in targets {
      FrontAt(targets, n, i);
    }
  }

  lemma FrontFirst(targets: seq<nat>, n: nat)
    requires n in targets
    ensures |ToFront(targets, n)| == |targets| && ToFront(targets, n)[0] == n
    ensures forall x :: x in targets ==> x in ToFront(targets, n)
  {
    var i := Position(targets, n);
    assert targets == targets[..i] + [n] + targets[i + 1..];
  }

  lemma FrontKeeps(targets: seq<nat>, node: map<nat, Target>, m: Index, batches: seq<Batch>, n: nat)
    requires n in targets && Indexed(targets, node, m) && Counted(targets, node, batches)
    ensures Indexed(ToFront(targets, n), node, m) && Counted(ToFront(targets, n), node, batches)
  {
    hide ToFront, Lookup, BatchesOf, Trim;
    FrontSame(targets, n);
  }

  lemma FrontByUse(targets: seq<nat>, lastUse: map<nat, nat>, clock: nat, n: nat)
    requires n in targets && Distinct(targets) && ByUse(targets, lastUse, clock)
    ensures ByUse(ToFront(targets, n), lastUse[n := clock], clock + 1)
  {
    var p := Position(targets, n);
    var r := ToFront(targets, n);
    forall i | 0 < i < |r| ensures r[i] == targets[if i <= p then i - 1 else i] && r[i] != n {
    }
  }

  lemma NewByUse(targets: seq<nat>, lastUse: map<nat, nat>, clock: nat, n: nat)
    requires n !in targets && ByUse(targets, lastUse, clock)
    ensures ByUse([n] + targets, lastUse[n := clock], clock + 1)
  {
  }

  lemma NewKeeps(targets: seq<nat>, node: map<nat, Target>, m: Index, batches: seq<Batch>, n: nat, inst: string,
                 wid: nat)
    requires n !in node && Indexed(targets, node, m) && Counted(targets, node, batches) && Lookup(m, inst, wid).None?
    ensures Indexed([n] + targets, node[n := Target(inst, wid, 0, 0)], Insert(m, inst, wid, n))
    ensures Counted([n] + targets, node[n := Target(inst, wid, 0, 0)], batches)
  {
    hide Lookup, BatchesOf, Trim, Insert;
    NoBatch(batches, n);
  }

  lemma IncrementKeeps(targets: seq<nat>, node: map<nat, Target>, m: Index, batches: seq<Batch>, n: nat, hint: nat)
    requires n in targets && n in node && Indexed(targets, node, m) && Counted(targets, node, batches)
    requires hint == node[n].hint || node[n].inFlight == 0
    ensures var t := node[n].(hint := hint, inFlight := node[n].inFlight + 1);
            Indexed(targets, node[n := t], m) && Counted(targets, node[n := t], batches + [Batch(n, hint)])
  {
    hide Lookup, BatchesOf, Trim;
    var t := node[n].(hint := hint, inFlight := node[n].inFlight + 1);
    forall x | x in targets ensures node[n := t][x].inFlight == BatchesOf(batches + [Batch(n, hint)], x) {
      BatchPush(batches, Batch(n, hint), x);
    }
    forall i | 0 <= i < |batches| && batches[i].node == n ensures batches[i].hint == hint {
      BatchCounted(batches, i);
    }
  }

  lemma DecrementKeeps(targets: seq<nat>, node: map<nat, Target>, m: Index, batches: seq<Batch>, i: nat)
    requires i < |batches| && Indexed(targets, node, m) && Counted(targets, node, batches)
    requires node[batches[i].node].inFlight > 0
    ensures var n := batches[i].node;
            var t := node[n].(inFlight := node[n].inFlight - 1);
            Indexed(targets, node[n := t], m) && Counted(targets, node[n := t], batches[..i] + batches[i + 1..])
  {
    hide Lookup, BatchesOf, Trim;
    var n := batches[i].node;
    forall x | x in targets {
      BatchRemove(batches, i, x);
    }
  }

  lemma DropKeeps(targets: seq<nat>, node: map<nat, Target>, m: Index, batches: seq<Batch>)
    requires targets != [] && Indexed(targets, node, m) && Counted(targets, node, batches)
    requires node[targets[|targets| - 1]].inFlight == 0
    ensures var n := targets[|targets| - 1];
            && Lookup(m, node[n].inst, node[n].wid).Some?
            && Indexed(targets[..|targets| - 1], node, Remove(m, node[n].inst, node[n].wid))
            && Counted(targets[..|targets| - 1], node, batches)
  {
    hide BatchesOf, Trim, Remove;
    var n := targets[|targets| - 1];
    forall i | 0 <= i < |batches| ensures batches[i].node in targets[..|targets| - 1] {
      BatchCounted(batches, i);
    }
  }
}
