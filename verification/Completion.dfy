/** Completion counting: a request is done once every worker of a tensor-parallel group has
    reported, however often, late or wrongly signals are delivered. */
module Completion {
  import opened Wrappers

  datatype IoRet = IoRet(ex: Option<string>, n: Option<int>, source: Option<string>)

  /** The signals accepted from each worker rank. */
  type Signals = map<nat, seq<IoRet>>

  /** What counts as complete: a number of signals per worker, or, when sources are expected,
      one signal of every source. */
  datatype Rule = Rule(signalsPerWorker: nat, expectedSources: seq<string>)

  predicate Reported(signals: seq<IoRet>, source: string) {
    exists i :: 0 <= i < |signals| && signals[i].source == Some(source)
  }

  /** A worker has reported everything. */
  predicate Ready(rule: Rule, signals: seq<IoRet>) {
    if rule.expectedSources == [] then |signals| >= rule.signalsPerWorker
    else forall s :: s in rule.expectedSources ==> Reported(signals, s)
  }

  function Of(m: Signals, rank: nat): seq<IoRet> {
    if rank in m then m[rank] else []
  }

  /** A signal is new when its worker still owes it. */
  predicate New(rule: Rule, m: Signals, rank: nat, r: IoRet) {
    if rule.expectedSources == [] then |Of(m, rank)| < rule.signalsPerWorker
    else r.source.Some? && r.source.value in rule.expectedSources && !Reported(Of(m, rank), r.source.value)
  }

  /** Every worker of the group has reported everything. */
  ghost predicate Complete(rule: Rule, m: Signals, tpSize: nat) {
    forall rank :: 0 <= rank < tpSize ==> Ready(rule, Of(m, rank))
  }

  /** The signals after one more delivery: new ones are kept, all others ignored. */
  function Deliver(rule: Rule, m: Signals, rank: nat, r: IoRet): Signals {
    if New(rule, m, rank, r) then m[rank := Of(m, rank) + [r]] else m
  }

  // ---------------------------------------------------------------------------
  // Counting ready workers
  // ---------------------------------------------------------------------------

  ghost function Range(n: nat): (s: set<nat>)
    ensures |s| == n && forall i :: i in s <==> 0 <= i < n
  {
    if n == 0 then {} else Range(n - 1) + {n - 1}
  }

  ghost function ReadyRanks(rule: Rule, m: Signals): set<nat> {
    set rank | rank in m && Ready(rule, m[rank])
  }

  lemma {:induction false} SubsetSize(a: set<nat>, b: set<nat>)
    requires a <= b
    ensures |a| <= |b| && (|a| == |b| ==> a == b)
  {
    if a != {} {
      var x :| x in a;
      SubsetSize(a - {x}, b - {x});
      assert a == a - {x} + {x} && b == b - {x} + {x};
    }
  }

  /** Counting ready workers tells whether all ranks are complete: no rank outside the group has
      reported and a worker that reported nothing is not ready. */
  lemma CountDecides(rule: Rule, m: Signals, tpSize: nat)
    requires forall rank :: rank in m ==> rank < tpSize
    requires !Ready(rule, [])
    ensures |ReadyRanks(rule, m)| >= tpSize <==> Complete(rule, m, tpSize)
  {
    var ready, all := ReadyRanks(rule, m), Range(tpSize);
    assert ready <= all;
    SubsetSize(ready, all);
    if Complete(rule, m, tpSize) {
      forall rank | rank in all ensures rank in ready {
        assert Ready(rule, Of(m, rank));
      }
      assert ready == all;
    } else {
      var rank :| 0 <= rank < tpSize && !Ready(rule, Of(m, rank));
      assert rank in all && rank !in ready;
    }
  }

  // ---------------------------------------------------------------------------
  // Exactly once
  // ---------------------------------------------------------------------------

  lemma ReadyGrows(rule: Rule, signals: seq<IoRet>, r: IoRet)
    requires Ready(rule, signals)
    ensures Ready(rule, signals + [r])
  {
    forall s | s in rule.expectedSources && Reported(signals, s) ensures Reported(signals + [r], s) {
      var i :| 0 <= i < |signals| && signals[i].source == Some(s);
      assert (signals + [r])[i].source == Some(s);
    }
  }

  lemma CompleteGrows(rule: Rule, m: Signals, rank: nat, r: IoRet, tpSize: nat)
    requires Complete(rule, m, tpSize)
    ensures Complete(rule, Deliver(rule, m, rank, r), tpSize)
  {
    forall k | 0 <= k < tpSize ensures Ready(rule, Of(Deliver(rule, m, rank, r), k)) {
      ReadyGrows(rule, Of(m, k), r);
    }
  }

  /** Nothing is new once everything was reported. */
  lemma CompleteIsFinal(rule: Rule, m: Signals, rank: nat, r: IoRet, tpSize: nat)
    requires rank < tpSize
    ensures Complete(rule, m, tpSize) ==> !New(rule, m, rank, r)
  {
    if Complete(rule, m, tpSize) {
      assert Ready(rule, Of(m, rank));
    }
  }

  /** A delivery: the rank it came from and what it says. */
  datatype Delivery = Delivery(rank: nat, ret: IoRet)

  function After(rule: Rule, ds: seq<Delivery>): Signals {
    if ds == [] then map[]
    else Deliver(rule, After(rule, ds[..|ds| - 1]), ds[|ds| - 1].rank, ds[|ds| - 1].ret)
  }

  /** Delivery i is the one that completes the request. */
  ghost predicate Completes(rule: Rule, ds: seq<Delivery>, tpSize: nat, i: nat)
    requires i < |ds|
  {
    !Complete(rule, After(rule, ds[..i]), tpSize) && Complete(rule, After(rule, ds[..i + 1]), tpSize)
  }

  lemma {:induction false} StaysComplete(rule: Rule, ds: seq<Delivery>, tpSize: nat, i: nat)
    requires i <= |ds| && Complete(rule, After(rule, ds[..i]), tpSize)
    ensures Complete(rule, After(rule, ds), tpSize)
  {
    var n := |ds|;
    if i < n {
      assert ds[..n - 1][..i] == ds[..i];
      StaysComplete(rule, ds[..n - 1], tpSize, i);
      CompleteGrows(rule, After(rule, ds[..n - 1]), ds[n - 1].rank, ds[n - 1].ret, tpSize);
    } else {
      assert ds[..i] == ds;
    }
  }

  /** Over any sequence of deliveries at most one completes the request ... */
  lemma CompletesOnce(rule: Rule, ds: seq<Delivery>, tpSize: nat, i: nat, j: nat)
    requires i < j < |ds| && Completes(rule, ds, tpSize, i)
    ensures !Completes(rule, ds, tpSize, j)
  {
    assert ds[..j][..i + 1] == ds[..i + 1];
    StaysComplete(rule, ds[..j], tpSize, i + 1);
  }

  /** ... and one does exactly when everything was reported in the end. */
  lemma {:induction false} CompletesEventually(rule: Rule, ds: seq<Delivery>, tpSize: nat)
    requires tpSize > 0 && !Ready(rule, [])
    ensures Complete(rule, After(rule, ds), tpSize) <==> exists i :: 0 <= i < |ds| && Completes(rule, ds, tpSize, i)
  {
    var n := |ds|;
    if n == 0 {
      assert !Ready(rule, Of(After(rule, ds), 0));
    } else {
      CompletesEventually(rule, ds[..n - 1], tpSize);
      assert ds[..n] == ds;
      if i :| 0 <= i < n && Completes(rule, ds, tpSize, i) {
        StaysComplete(rule, ds, tpSize, i + 1);
      }
      if Complete(rule, After(rule, ds), tpSize) {
        if Complete(rule, After(rule, ds[..n - 1]), tpSize) {
          var i :| 0 <= i < n - 1 && Completes(rule, ds[..n - 1], tpSize, i);
          assert ds[..n - 1][..i] == ds[..i] && ds[..n - 1][..i + 1] == ds[..i + 1];
          assert Completes(rule, ds, tpSize, i);
        } else {
          assert Completes(rule, ds, tpSize, n - 1);
        }
      }
    }
  }

  // ---------------------------------------------------------------------------
  // What was delivered
  // ---------------------------------------------------------------------------

  /** All a rank has delivered, in order. */
  ghost function From(ds: seq<Delivery>, rank: nat): seq<IoRet> {
    if ds == [] then []
    else From(ds[..|ds| - 1], rank) + if ds[|ds| - 1].rank == rank then [ds[|ds| - 1].ret] else []
  }

  /** Of these, the first ones up to the number awaited, or the first one of every expected source. */
  ghost function Kept(rule: Rule, rs: seq<IoRet>): seq<IoRet> {
    if rule.expectedSources == [] then if |rs| <= rule.signalsPerWorker then rs else rs[..rule.signalsPerWorker]
    else if rs == [] then []
    else
      var before, r := rs[..|rs| - 1], rs[|rs| - 1];
      var first := r.source.Some? && r.source.value in rule.expectedSources
                   && forall i :: 0 <= i < |before| ==> before[i].source != r.source;
      Kept(rule, before) + if first then [r] else []
  }

  /** These are the awaited number, or something from every expected source. */
  ghost predicate EnoughOf(rule: Rule, rs: seq<IoRet>) {
    if rule.expectedSources == [] then |rs| >= rule.signalsPerWorker
    else forall s :: s in rule.expectedSources ==> exists i :: 0 <= i < |rs| && rs[i].source == Some(s)
  }

  /** Every rank of the group has delivered enough. */
  ghost predicate Enough(rule: Rule, ds: seq<Delivery>, tpSize: nat) {
    forall k: nat :: k < tpSize ==> EnoughOf(rule, From(ds, k))
  }

  lemma {:induction false} KeptSources(rule: Rule, rs: seq<IoRet>, s: string)
    requires rule.expectedSources != [] && s in rule.expectedSources
    ensures Reported(Kept(rule, rs), s) <==> Reported(rs, s)
  {
    if rs != [] {
      var n := |rs| - 1;
      var a, r, b := rs[..n], rs[n], Kept(rule, rs[..n]);
      KeptSources(rule, a, s);
      if Reported(rs, s) && !Reported(a, s) {
        var i :| 0 <= i < |rs| && rs[i].source == Some(s);
        assert i == n;
        assert forall j :: 0 <= j < n ==> a[j].source != r.source;
        assert Kept(rule, rs)[|b|].source == Some(s);
      }
      if Reported(a, s) {
        var i :| 0 <= i < |a| && a[i].source == Some(s);
        assert rs[i].source == Some(s);
        var j :| 0 <= j < |b| && b[j].source == Some(s);
        assert Kept(rule, rs)[j].source == Some(s);
      }
      if Reported(Kept(rule, rs), s) {
        var j :| 0 <= j < |Kept(rule, rs)| && Kept(rule, rs)[j].source == Some(s);
        if j < |b| { assert b[j].source == Some(s); } else { assert rs[n].source == Some(s); }
      }
    }
  }

  /** One more delivery is stored exactly when it is one of those to be kept. */
  lemma KeptPush(rule: Rule, rs: seq<IoRet>, r: IoRet)
    ensures Kept(rule, rs + [r]) == Kept(rule, rs) +
              if (if rule.expectedSources == [] then |Kept(rule, rs)| < rule.signalsPerWorker
                  else r.source.Some? && r.source.value in rule.expectedSources && !Reported(Kept(rule, rs), r.source.value))
              then [r] else []
  {
    var t := rs + [r];
    assert t[..|rs|] == rs && t[|rs|] == r;
    if rule.expectedSources != [] && r.source.Some? && r.source.value in rule.expectedSources {
      KeptSources(rule, rs, r.source.value);
      if Reported(rs, r.source.value) {
        var i :| 0 <= i < |rs| && rs[i].source == r.source;
      }
    }
  }

  lemma FromPush(ds: seq<Delivery>, d: Delivery, k: nat)
    ensures From(ds + [d], k) == From(ds, k) + if d.rank == k then [d.ret] else []
  {
    assert (ds + [d])[..|ds|] == ds;
  }

  ghost predicate Stores(rule: Rule, m: Signals, ds: seq<Delivery>) {
    forall k: nat :: Of(m, k) == Kept(rule, From(ds, k))
  }

  /** Storing what is new keeps exactly what is to be kept. */
  lemma DeliverStores(rule: Rule, m: Signals, n: Signals, ds: seq<Delivery>, d: Delivery)
    requires Stores(rule, m, ds) && forall k: nat :: Of(n, k) == Of(Deliver(rule, m, d.rank, d.ret), k)
    ensures Stores(rule, n, ds + [d])
  {
    hide Kept, From, Reported;
    forall k: nat ensures Of(n, k) == Kept(rule, From(ds + [d], k)) {
      FromPush(ds, d, k);
      assert Of(m, k) == Kept(rule, From(ds, k));
      if d.rank == k {
        KeptPush(rule, From(ds, k), d.ret);
      } else {
        assert From(ds, k) + [] == From(ds, k);
      }
    }
  }

  /** A request is complete exactly when enough was delivered. */
  lemma CompleteIsEnough(rule: Rule, m: Signals, ds: seq<Delivery>, tpSize: nat)
    requires Stores(rule, m, ds)
    ensures Complete(rule, m, tpSize) <==> Enough(rule, ds, tpSize)
  {
    hide From, Ready, EnoughOf;
    forall k: nat | k < tpSize ensures Ready(rule, Of(m, k)) <==> EnoughOf(rule, From(ds, k)) {
      ReadyIsEnough(rule, From(ds, k));
    }
  }

  lemma ReadyIsEnough(rule: Rule, rs: seq<IoRet>)
    ensures Ready(rule, Kept(rule, rs)) <==> EnoughOf(rule, rs)
  {
    hide Kept;
    if rule.expectedSources == [] {
      KeptNumber(rule, rs);
    } else {
      forall s | s in rule.expectedSources ensures Reported(Kept(rule, rs), s) <==> Reported(rs, s) {
        KeptSources(rule, rs, s);
      }
    }
  }

  lemma KeptNumber(rule: Rule, rs: seq<IoRet>)
    requires rule.expectedSources == []
    ensures |Kept(rule, rs)| == if |rs| <= rule.signalsPerWorker then |rs| else rule.signalsPerWorker
  {
  }

  lemma {:induction false} AfterStores(rule: Rule, ds: seq<Delivery>)
    ensures Stores(rule, After(rule, ds), ds)
  {
    hide Stores, Deliver;
    if ds == [] {
      NothingStored(rule);
    } else {
      var n := |ds| - 1;
      AfterStores(rule, ds[..n]);
      assert ds[..n] + [ds[n]] == ds;
      DeliverStores(rule, After(rule, ds[..n]), After(rule, ds), ds[..n], ds[n]);
    }
  }

  lemma NothingStored(rule: Rule)
    ensures Stores(rule, map[], [])
  {
  }

  /** Over any sequence of deliveries the request completes exactly when enough was delivered: delivery i
      completes it if and only if it is the one with which enough was. */
  lemma CompletesWhenEnough(rule: Rule, ds: seq<Delivery>, tpSize: nat, i: nat)
    requires i < |ds|
    ensures Completes(rule, ds, tpSize, i) <==> !Enough(rule, ds[..i], tpSize) && Enough(rule, ds[..i + 1], tpSize)
  {
    hide Stores, Enough, Complete;
    AfterStores(rule, ds[..i]);
    AfterStores(rule, ds[..i + 1]);
    CompleteIsEnough(rule, After(rule, ds[..i]), ds[..i], tpSize);
    CompleteIsEnough(rule, After(rule, ds[..i + 1]), ds[..i + 1], tpSize);
  }

  /** r is one of the first `need` deliveries of a rank of the group. */
  ghost predicate Counts(ds: seq<Delivery>, need: nat, tpSize: nat, r: IoRet) {
    exists k: nat, i: nat :: k < tpSize && i < need && i < |From(ds, k)| && From(ds, k)[i] == r
  }

  /** The result of a request: it fails exactly when one of the deliveries that count failed, with that
      failure; otherwise it has their least count, or none if one has none. */
  ghost predicate Summary(ds: seq<Delivery>, need: nat, tpSize: nat, ret: IoRet) {
    && (ret.ex.Some? <==> exists r :: Counts(ds, need, tpSize, r) && r.ex.Some?)
    && (ret.ex.Some? ==> exists r :: Counts(ds, need, tpSize, r) && r.ex == ret.ex)
    && (ret.ex.None? ==> (ret.n.None? <==> exists r :: Counts(ds, need, tpSize, r) && r.n.None?))
    && (ret.ex.None? && ret.n.Some? ==>
          && (forall r :: Counts(ds, need, tpSize, r) ==> r.n.Some? && ret.n.value <= r.n.value)
          && (exists r :: Counts(ds, need, tpSize, r) && r.n == ret.n))
  }

  lemma CountsAreStored(rule: Rule, m: Signals, ds: seq<Delivery>, tpSize: nat, r: IoRet)
    requires Stores(rule, m, ds) && rule.expectedSources == [] && forall k :: k in m ==> k < tpSize
    ensures FromReady(m, 0, r) <==> Counts(ds, rule.signalsPerWorker, tpSize, r)
  {
    hide From;
    if FromReady(m, 0, r) {
      var k :| k in m && r in m[k];
      assert Of(m, k) == Kept(rule, From(ds, k));
      var i :| 0 <= i < |m[k]| && m[k][i] == r;
      assert From(ds, k)[i] == r;
    }
    if Counts(ds, rule.signalsPerWorker, tpSize, r) {
      var k: nat, i: nat :| k < tpSize && i < rule.signalsPerWorker && i < |From(ds, k)| && From(ds, k)[i] == r;
      assert Of(m, k) == Kept(rule, From(ds, k));
      assert Of(m, k)[i] == r;
    }
  }

  lemma Summarizes(rule: Rule, m: Signals, ds: seq<Delivery>, tpSize: nat, ret: IoRet)
    requires Stores(rule, m, ds) && rule.expectedSources == [] && (forall k :: k in m ==> k < tpSize) && MergedFrom(m, 0, ret)
    ensures Summary(ds, rule.signalsPerWorker, tpSize, ret)
  {
    hide Counts, FromReady, Stores;
    var all: seq<IoRet> :| Merged(all, ret) && forall r :: r in all <==> FromReady(m, 0, r);
    forall r ensures r in all <==> Counts(ds, rule.signalsPerWorker, tpSize, r) {
      CountsAreStored(rule, m, ds, tpSize, r);
    }
    if AnyFailed(all) {
      var i :| 0 <= i < |all| && all[i].ex.Some?;
      assert all[i] in all;
      var j :| 0 <= j < |all| && all[j].ex == ret.ex;
      assert all[j] in all;
    } else {
      if AnyMissing(all) {
        var i :| 0 <= i < |all| && all[i].n.None?;
        assert all[i] in all;
      } else {
        var i :| 0 <= i < |all| && all[i].n == ret.n;
        assert all[i] in all;
      }
    }
  }

  // ---------------------------------------------------------------------------
  // The state of one request
  // ---------------------------------------------------------------------------

  class IoState {
    const rule: Rule
    var workerSignals: Signals
    /** Ranks in the order of their first signal. */
    var ranks: seq<nat>
    /** Everything delivered so far. */
    ghost var delivered: seq<Delivery>

    ghost predicate Valid()
      reads this
    {
      Listed() && Stores(rule, workerSignals, delivered)
    }

    ghost predicate Listed()
      reads this
    {
      && (forall i, j :: 0 <= i < j < |ranks| ==> ranks[i] != ranks[j])
      && (forall rank :: rank in workerSignals <==> rank in ranks)
    }

    constructor (rule: Rule)
      ensures Valid() && this.rule == rule && workerSignals == map[] && delivered == []
    {
      this.rule := rule;
      workerSignals, ranks, delivered := map[], [], [];
    }

    /** Counts the workers that reported everything. */
    method ReadyWorkers() returns (count: nat)
      requires Listed()
      ensures count == |ReadyRanks(rule, workerSignals)|
    {
      hide Ready;
      count := 0;
      ghost var seen := {};
      for i := 0 to |ranks|
        invariant count == |seen|
        invariant forall rank :: rank in seen <==> exists k :: 0 <= k < i && ranks[k] == rank && Ready(rule, workerSignals[rank])
      {
        if Ready(rule, workerSignals[ranks[i]]) {
          count := count + 1;
          seen := seen + {ranks[i]};
        }
      }
      assert seen == ReadyRanks(rule, workerSignals);
    }

    /** Takes one signal; tells whether it completes the request. */
    method TryAdvance(ret: IoRet, rank: nat, tpSize: nat) returns (done: bool)
      requires Valid() && rank < tpSize && !Ready(rule, []) && forall k :: k in workerSignals ==> k < tpSize
      modifies this`workerSignals, this`ranks, this`delivered
      ensures Valid() && forall k :: k in workerSignals ==> k < tpSize
      ensures delivered == old(delivered) + [Delivery(rank, ret)]
      ensures forall k: nat :: Of(workerSignals, k) == Kept(rule, From(delivered, k))
      ensures forall k :: Of(workerSignals, k) == Of(Deliver(rule, old(workerSignals), rank, ret), k)
      ensures done <==> !Complete(rule, old(workerSignals), tpSize) && Complete(rule, workerSignals, tpSize)
      ensures done <==> !Enough(rule, old(delivered), tpSize) && Enough(rule, delivered, tpSize)
    {
      hide Stores, Enough, Kept, From, Complete;
      ghost var before, was := workerSignals, delivered;
      done := Store(ret, rank, tpSize);
      delivered := delivered + [Delivery(rank, ret)];
      DeliverStores(rule, before, workerSignals, was, Delivery(rank, ret));
      CompleteIsEnough(rule, before, was, tpSize);
      CompleteIsEnough(rule, workerSignals, delivered, tpSize);
      StoredAll(rule, workerSignals, delivered);
    }

    method Store(ret: IoRet, rank: nat, tpSize: nat) returns (done: bool)
      requires Listed() && rank < tpSize && !Ready(rule, []) && forall k :: k in workerSignals ==> k < tpSize
      modifies this`workerSignals, this`ranks
      ensures Listed() && forall k :: k in workerSignals ==> k < tpSize
      ensures forall k :: Of(workerSignals, k) == Of(Deliver(rule, old(workerSignals), rank, ret), k)
      ensures done <==> !Complete(rule, old(workerSignals), tpSize) && Complete(rule, workerSignals, tpSize)
    {
      hide Ready, Reported, ReadyRanks, Complete;
      ghost var before := workerSignals;
      if rank !in workerSignals {
        workerSignals := workerSignals[rank := []];
        ranks := ranks + [rank];
      }
      var signals := workerSignals[rank];
      if rule.expectedSources != [] {
        if ret.source.None? || ret.source.value !in rule.expectedSources || Reported(signals, ret.source.value) {
          SameComplete(rule, before, workerSignals, tpSize);
          return false;
        }
      } else if |signals| >= rule.signalsPerWorker {
        SameComplete(rule, before, workerSignals, tpSize);
        return false;
      }
      workerSignals := workerSignals[rank := signals + [ret]];
      var ready := ReadyWorkers();
      CountDecides(rule, workerSignals, tpSize);
      CompleteIsFinal(rule, before, rank, ret, tpSize);
      done := ready >= tpSize;
    }

    /** All signals of the workers with enough of them. */
    method Collect() returns (all: seq<IoRet>)
      requires Listed()
      ensures forall r :: r in all <==> FromReady(workerSignals, rule.signalsPerWorker, r)
    {
      all := [];
      for i := 0 to |ranks|
        invariant forall r :: r in all <==>
                    exists k :: 0 <= k < i && |workerSignals[ranks[k]]| >= rule.signalsPerWorker && r in workerSignals[ranks[k]]
      {
        if |workerSignals[ranks[i]]| >= rule.signalsPerWorker {
          all := all + workerSignals[ranks[i]];
        }
      }
    }

    /** The result of the request: a failure if any signal failed, otherwise the least count. */
    method Merge() returns (ret: IoRet)
      requires Listed()
      requires exists r :: FromReady(workerSignals, rule.signalsPerWorker, r)
      ensures MergedFrom(workerSignals, rule.signalsPerWorker, ret)
    {
      hide FromReady, Merged;
      var all := Collect();
      ghost var r :| FromReady(workerSignals, rule.signalsPerWorker, r);
      assert r in all;
      ret := MergeSignals(all);
    }

    /** A worker reports a send: the signal that completes the request, and no other, yields its
        result, which then takes every accepted signal of every worker into account. */
    method OnSendDone(ret: IoRet, rank: nat, tpSize: nat) returns (result: Option<IoRet>)
      requires Valid() && rank < tpSize && rule.expectedSources == [] && rule.signalsPerWorker > 0
      requires forall k :: k in workerSignals ==> k < tpSize
      modifies this`workerSignals, this`ranks, this`delivered
      ensures Valid() && forall k :: k in workerSignals ==> k < tpSize
      ensures delivered == old(delivered) + [Delivery(rank, ret)]
      ensures result.Some? <==> !Enough(rule, old(delivered), tpSize) && Enough(rule, delivered, tpSize)
      ensures result.Some? ==> Summary(delivered, rule.signalsPerWorker, tpSize, result.value)
    {
      hide Complete, Deliver, FromReady, MergedFrom, Stores, Enough, Kept, From, Summary;
      var done := TryAdvance(ret, rank, tpSize);
      if !done {
        return None;
      }
      AllReady(rule, workerSignals, tpSize);
      var merged := Merge();
      AllAccepted(rule, workerSignals, tpSize, merged);
      Summarizes(rule, workerSignals, delivered, tpSize, merged);
      result := Some(merged);
    }
  }

  /** r was accepted from a worker with at least `need` signals. */
  ghost predicate FromReady(m: Signals, need: nat, r: IoRet) {
    exists rank :: rank in m && |m[rank]| >= need && r in m[rank]
  }

  /** ret merges exactly the signals of the workers with at least `need` of them. */
  ghost predicate MergedFrom(m: Signals, need: nat, ret: IoRet) {
    exists all: seq<IoRet> :: Merged(all, ret) && forall r :: r in all <==> FromReady(m, need, r)
  }

  lemma AllReady(rule: Rule, m: Signals, tpSize: nat)
    requires tpSize > 0 && Complete(rule, m, tpSize) && rule.expectedSources == [] && rule.signalsPerWorker > 0
    ensures exists r :: FromReady(m, rule.signalsPerWorker, r)
  {
    assert Ready(rule, Of(m, 0));
    assert FromReady(m, rule.signalsPerWorker, m[0][0]);
  }

  /** At completion no accepted signal is left out of the result. */
  lemma AllAccepted(rule: Rule, m: Signals, tpSize: nat, ret: IoRet)
    requires Complete(rule, m, tpSize) && rule.expectedSources == [] && forall k :: k in m ==> k < tpSize
    requires MergedFrom(m, rule.signalsPerWorker, ret)
    ensures MergedFrom(m, 0, ret)
  {
    hide Merged;
    var all :| Merged(all, ret) && forall r :: r in all <==> FromReady(m, rule.signalsPerWorker, r);
    forall r ensures r in all <==> FromReady(m, 0, r) {
      if FromReady(m, 0, r) {
        var rank :| rank in m && r in m[rank];
        assert Ready(rule, Of(m, rank));
      }
    }
  }

  lemma StoredAll(rule: Rule, m: Signals, ds: seq<Delivery>)
    requires Stores(rule, m, ds)
    ensures forall k: nat :: Of(m, k) == Kept(rule, From(ds, k))
  {
  }

  lemma SameComplete(rule: Rule, a: Signals, b: Signals, tpSize: nat)
    requires forall k :: Of(a, k) == Of(b, k)
    ensures Complete(rule, a, tpSize) <==> Complete(rule, b, tpSize)
  {
  }

  // ---------------------------------------------------------------------------
  // Merging results
  // ---------------------------------------------------------------------------

  ghost predicate AnyFailed(all: seq<IoRet>) {
    exists i :: 0 <= i < |all| && all[i].ex.Some?
  }

  ghost predicate AnyMissing(all: seq<IoRet>) {
    exists i :: 0 <= i < |all| && all[i].n.None?
  }

  /** ret fails iff some signal failed, with that signal's failure; if none failed it has no
      count iff some count is missing, and otherwise the least one. */
  ghost predicate Merged(all: seq<IoRet>, ret: IoRet) {
    && (ret.ex.Some? <==> AnyFailed(all))
    && (ret.ex.Some? ==> exists i :: 0 <= i < |all| && all[i].ex == ret.ex)
    && (!AnyFailed(all) ==> Least(all, ret.n))
  }

  ghost predicate Least(all: seq<IoRet>, n: Option<int>) {
    && (n.None? <==> AnyMissing(all))
    && (n.Some? ==>
          && (forall i :: 0 <= i < |all| ==> all[i].n.Some? && n.value <= all[i].n.value)
          && (exists i :: 0 <= i < |all| && all[i].n == n))
  }

  method MergeSignals(all: seq<IoRet>) returns (ret: IoRet)
    requires all != []
    ensures Merged(all, ret)
  {
    ret := all[0];
    for i := 1 to |all|
      invariant ret.ex == all[0].ex
      invariant ret.ex.None? ==> !AnyFailed(all[..i]) && Least(all[..i], ret.n)
    {
      var wio := all[i];
      if wio.ex.Some? && ret.ex.None? {
        ret := ret.(ex := wio.ex);
        break;
      }
      if ret.n.None? {
      } else if wio.n.None? {
        ret := ret.(n := None);
      } else if ret.n.value > wio.n.value {
        ret := ret.(n := wio.n);
      }
    }
    assert all[..|all|] == all;
  }
}
