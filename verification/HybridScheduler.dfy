/** The hybrid scheduler: it keeps a request until its blocks are allocated and its cache is
    loaded, hands it to the engine, and holds its blocks while its cache is saved elsewhere.

    The engine's thread and the connector's thread share these queues. Every method is one atomic
    step of either thread; `Valid` is kept by each, hence by every interleaving of them. */
module HybridScheduler {
  import opened Sequences
  import opened Wrappers

  type ReqId = string

  /** A request with its numbers of load and save operations. */
  datatype Plan = Plan(id: ReqId, load: nat, save: nat)

  /** A save in progress and the blocks it holds. */
  datatype Save = Save(id: ReqId, blocks: seq<nat>)

  // ---------------------------------------------------------------------------
  // Where a request is
  // ---------------------------------------------------------------------------

  ghost predicate IsWaiting(waiting: seq<Plan>, r: ReqId) {
    exists i :: 0 <= i < |waiting| && waiting[i].id == r
  }

  ghost predicate DistinctPlans(waiting: seq<Plan>) {
    forall i, j :: 0 <= i < j < |waiting| ==> waiting[i].id != waiting[j].id
  }

  /** Every accepted request is waiting, being loaded or with the engine, and in only one of
      these; a request is loaded exactly when its load operation has ended. */
  ghost predicate Located(accepted: set<ReqId>, waiting: seq<Plan>, loading: set<ReqId>, loaded: seq<ReqId>,
                          engine: set<ReqId>, loadOps: set<ReqId>)
  {
    && DistinctPlans(waiting) && Distinct(loaded) && loadOps <= loading
    && (forall r :: IsWaiting(waiting, r) ==> r in accepted && r !in loading && r !in loaded && r !in engine)
    && (forall r :: r in loading || r in loaded ==> r in accepted && r !in engine)
    && (forall r :: r in engine ==> r in accepted)
    && (forall r :: r in accepted ==> IsWaiting(waiting, r) || r in loading || r in loaded || r in engine)
    && (forall r :: r in loading ==> (r in loadOps <==> r !in loaded))
  }

  // ---------------------------------------------------------------------------
  // What a save holds
  // ---------------------------------------------------------------------------

  ghost predicate IsSaving(saving: seq<Save>, r: ReqId) {
    exists i :: 0 <= i < |saving| && saving[i].id == r
  }

  /** A save is outstanding, or done and about to be torn down. */
  ghost predicate Saves(saving: seq<Save>, saved: seq<ReqId>, saveOps: set<ReqId>, prepared: set<ReqId>) {
    && (forall i, j :: 0 <= i < j < |saving| ==> saving[i].id != saving[j].id)
    && Distinct(saved)
    && (forall r :: IsSaving(saving, r) <==> r in saveOps || r in saved)
    && (forall r :: r in saveOps ==> r !in saved)
    && (forall r :: r in prepared <==> IsSaving(saving, r))
  }

  function Occurrences(blocks: seq<nat>, b: nat): nat {
    if blocks == [] then 0 else Occurrences(blocks[..|blocks| - 1], b) + if blocks[|blocks| - 1] == b then 1 else 0
  }

  /** References that the saves in progress hold on a block. */
  function Held(saving: seq<Save>, b: nat): nat {
    if saving == [] then 0 else Held(saving[..|saving| - 1], b) + Occurrences(saving[|saving| - 1].blocks, b)
  }

  function Ref(m: map<nat, nat>, b: nat): nat {
    if b in m then m[b] else 0
  }

  /** A block's count is the engine's own references plus those of the saves. */
  ghost predicate Counted(refCnt: map<nat, nat>, engineRefs: map<nat, nat>, saving: seq<Save>) {
    forall b: nat :: Ref(refCnt, b) == Ref(engineRefs, b) + Held(saving, b)
  }

  // ---------------------------------------------------------------------------
  // Outstanding operations
  // ---------------------------------------------------------------------------

  function Rc(m: map<ReqId, nat>, r: ReqId): nat {
    if r in m then m[r] else 0
  }

  function Outstanding(loadOps: set<ReqId>, saveOps: set<ReqId>, r: ReqId): nat {
    (if r in loadOps then 1 else 0) + (if r in saveOps then 1 else 0)
  }

  ghost predicate Tracked(cleanupRc: map<ReqId, nat>, loadOps: set<ReqId>, saveOps: set<ReqId>) {
    forall r :: Rc(cleanupRc, r) == Outstanding(loadOps, saveOps, r)
  }

  lemma HeldLast(saving: seq<Save>, b: nat)
    requires saving != []
    ensures Held(saving, b) == Held(saving[..|saving| - 1], b) + Occurrences(saving[|saving| - 1].blocks, b)
  {
  }

  lemma HeldPush(saving: seq<Save>, s: Save, b: nat)
    ensures Held(saving + [s], b) == Held(saving, b) + Occurrences(s.blocks, b)
  {
    hide Held, Occurrences;
    HeldLast(saving + [s], b);
    assert (saving + [s])[..|saving|] == saving;
  }

  function Without(saving: seq<Save>, i: nat): seq<Save>
    requires i < |saving|
  {
    saving[..i] + saving[i + 1..]
  }

  lemma {:induction false} HeldRemove(saving: seq<Save>, i: nat, b: nat)
    requires i < |saving|
    ensures Held(saving, b) == Held(Without(saving, i), b) + Occurrences(saving[i].blocks, b)
  {
    hide Held, Occurrences;
    var n := |saving| - 1;
    HeldLast(saving, b);
    if i == n {
      assert Without(saving, i) == saving[..n];
    } else {
      HeldRemove(saving[..n], i, b);
      HeldPush(Without(saving[..n], i), saving[n], b);
      assert Without(saving, i) == Without(saving[..n], i) + [saving[n]];
    }
  }

  lemma {:induction false} OccurrencesIn(blocks: seq<nat>, i: nat)
    requires i < |blocks|
    ensures Occurrences(blocks, blocks[i]) > 0
  {
    if i < |blocks| - 1 { OccurrencesIn(blocks[..|blocks| - 1], i); }
  }

  lemma OccurrencesPush(blocks: seq<nat>, i: nat, b: nat)
    requires i < |blocks|
    ensures Occurrences(blocks[..i + 1], b) == Occurrences(blocks[..i], b) + if blocks[i] == b then 1 else 0
  {
    assert blocks[..i + 1][..i] == blocks[..i];
  }

  lemma {:induction false} OccurrencesGrow(blocks: seq<nat>, i: nat, b: nat)
    requires i <= |blocks|
    ensures Occurrences(blocks[..i], b) <= Occurrences(blocks, b)
    decreases |blocks| - i
  {
    if i < |blocks| {
      OccurrencesGrow(blocks, i + 1, b);
      OccurrencesPush(blocks, i, b);
    } else {
      assert blocks[..i] == blocks;
    }
  }

  // ---------------------------------------------------------------------------
  // What leaving the queue sets up
  // ---------------------------------------------------------------------------

  /** The saves of a list of requests, each with all blocks it was given. */
  ghost function SavesFor(ps: seq<Plan>, alloc: ReqId -> Option<seq<nat>>): seq<Save> {
    if ps == [] then []
    else
      var p := ps[|ps| - 1];
      SavesFor(ps[..|ps| - 1], alloc)
      + if p.save > 0 && alloc(p.id).Some? then [Save(p.id, alloc(p.id).value)] else []
  }

  ghost function LoadersAmong(ps: seq<Plan>): set<ReqId> {
    set i | 0 <= i < |ps| && ps[i].load > 0 :: ps[i].id
  }

  /** The requests of a list with nothing to load, in order. */
  ghost function WithoutLoad(ps: seq<Plan>): seq<ReqId> {
    if ps == [] then []
    else WithoutLoad(ps[..|ps| - 1]) + if ps[|ps| - 1].load == 0 then [ps[|ps| - 1].id] else []
  }

  lemma NoneLeft(alloc: ReqId -> Option<seq<nat>>, none: seq<Plan>)
    requires none == []
    ensures SavesFor(none, alloc) == [] && LoadersAmong(none) == {} && WithoutLoad(none) == []
  {
  }

  lemma {:induction false} OneLeft(alloc: ReqId -> Option<seq<nat>>, all: seq<Plan>, k: nat)
    requires k < |all|
    ensures var p := all[k];
            && SavesFor(all[..k + 1], alloc) == SavesFor(all[..k], alloc)
               + (if p.save > 0 && alloc(p.id).Some? then [Save(p.id, alloc(p.id).value)] else [])
            && WithoutLoad(all[..k + 1]) == WithoutLoad(all[..k]) + (if p.load == 0 then [p.id] else [])
            && LoadersAmong(all[..k + 1]) == LoadersAmong(all[..k]) + (if p.load > 0 then {p.id} else {})
  {
    var a, b := all[..k], all[..k + 1];
    assert b[..k] == a && b[k] == all[k];
    assert forall i :: 0 <= i < k ==> b[i] == a[i];
    forall x ensures x in LoadersAmong(b) <==> x in LoadersAmong(a) || (all[k].load > 0 && x == all[k].id) {
      if x in LoadersAmong(a) {
        var i :| 0 <= i < |a| && a[i].load > 0 && a[i].id == x;
        assert b[i].id == x;
      }
    }
  }

  lemma {:induction false} HeldConcat(a: seq<Save>, b: seq<Save>, x: nat)
    ensures Held(a + b, x) == Held(a, x) + Held(b, x)
  {
    hide Occurrences;
    if b == [] {
      assert a + b == a;
    } else {
      var n := |b| - 1;
      HeldConcat(a, b[..n], x);
      assert (a + b)[..|a + b| - 1] == a + b[..n];
    }
  }

  lemma RefsGrown(was: map<nat, nat>, now: map<nat, nat>, engineRefs: map<nat, nat>, saving: seq<Save>, more: seq<Save>)
    requires Counted(was, engineRefs, saving) && Counted(now, engineRefs, saving + more)
    ensures forall b: nat :: Ref(now, b) == Ref(was, b) + Held(more, b)
  {
    hide Held, Ref;
    forall b: nat ensures Ref(now, b) == Ref(was, b) + Held(more, b) {
      HeldConcat(saving, more, b);
    }
  }

  // ---------------------------------------------------------------------------
  // What a load brings
  // ---------------------------------------------------------------------------

  /** Token counts of a request; `bound` is the number of tokens it computes at most here. */
  datatype Tokens = Tokens(prompt: nat, computed: nat, external: nat, bound: Option<nat>)

  /** Result of a load: an exception, and the tokens it brought. */
  datatype Result = Result(failed: bool, n: nat)

  function ResultOf(results: map<ReqId, Result>, r: ReqId): Result {
    if r in results then results[r] else Result(false, 0)
  }

  /** The loaded tokens reach the bound: nothing is left to compute here. */
  predicate Stops(t: Tokens, n: nat) {
    t.bound.Some? && t.bound.value <= t.computed + n
  }

  function AfterLoad(t: Tokens, n: nat): Tokens {
    Tokens(t.prompt, t.computed + n, t.external + n, if Stops(t, n) then Some(t.computed + n) else t.bound)
  }

  /** A bound lies below the prompt until the request is with the engine; a stopped request has
      computed exactly its bound. */
  ghost predicate Budgeted(b: Book, accepted: set<ReqId>, engine: set<ReqId>) {
    && (forall r :: r in accepted ==> r in b.budget)
    && (forall r :: r in accepted && r !in engine && b.budget[r].bound.Some? ==> b.budget[r].bound.value < b.budget[r].prompt)
    && (forall r :: r in b.stop0 ==> r in engine && r in b.budget && b.budget[r].bound == Some(b.budget[r].computed))
    && Distinct(b.stop0)
  }

  /** Token counts; requests stopped since the last step; aborts to come; and the requests whose
      blocks were entered in the prefix cache after their load. */
  datatype Book = Book(budget: map<ReqId, Tokens>, stop0: seq<ReqId>, aborting: seq<Abort>, cached: set<ReqId>)

  /** The requests of a list that their load stops. */
  function StoppedOf(rs: seq<ReqId>, budget: map<ReqId, Tokens>, results: map<ReqId, Result>): seq<ReqId>
    requires forall r :: r in rs ==> r in budget
  {
    if rs == [] then []
    else
      var r := rs[|rs| - 1];
      StoppedOf(rs[..|rs| - 1], budget, results) + if Stops(budget[r], ResultOf(results, r).n) then [r] else []
  }

  /** The aborts that failed or aborted loads cause; an aborted request was answered before. */
  function FailedOf(rs: seq<ReqId>, results: map<ReqId, Result>, aborted: set<ReqId>): seq<Abort> {
    if rs == [] then []
    else
      var r := rs[|rs| - 1];
      FailedOf(rs[..|rs| - 1], results, aborted)
      + if ResultOf(results, r).failed || r in aborted then [Abort(r, r !in aborted)] else []
  }

  datatype Abort = Abort(id: ReqId, output: bool)

  function TokensAfter(t: Tokens, rs: seq<ReqId>, results: map<ReqId, Result>, r: ReqId): Tokens {
    if r in rs then AfterLoad(t, ResultOf(results, r).n) else t
  }

  /** The requests of a list have received the tokens of their loads, the others none. */
  ghost predicate BudgetAfter(now: map<ReqId, Tokens>, was: map<ReqId, Tokens>, rs: seq<ReqId>, results: map<ReqId, Result>) {
    && now.Keys == was.Keys
    && forall r :: r in now.Keys ==> now[r] == TokensAfter(was[r], rs, results, r)
  }

  /** A load of n tokens is added to the request's counts. The request stops, with the computed tokens as
      its new bound, exactly when they reach its bound; it is aborted exactly when the load failed or was
      aborted, and then answered unless it was aborted. */
  ghost predicate Received(was: Book, now: Book, r: ReqId, n: nat, failed: bool, aborted: bool) {
    && r in was.budget && r in now.budget && |was.aborting| <= |now.aborting|
    && var t, u := was.budget[r], now.budget[r];
    && u.prompt == t.prompt && u.computed == t.computed + n && u.external == t.external + n
    && (r in now.stop0 <==> t.bound.Some? && t.bound.value <= t.computed + n)
    && (if r in now.stop0 then u.bound == Some(u.computed) else u.bound == t.bound)
    && (Abort(r, !aborted) in now.aborting[|was.aborting|..] <==> failed || aborted)
  }

  lemma {:induction false} StoppedIn(rs: seq<ReqId>, budget: map<ReqId, Tokens>, results: map<ReqId, Result>, r: ReqId)
    requires forall x :: x in rs ==> x in budget
    ensures r in StoppedOf(rs, budget, results) <==> r in rs && Stops(budget[r], ResultOf(results, r).n)
  {
    if rs != [] {
      StoppedIn(rs[..|rs| - 1], budget, results, r);
      assert rs == rs[..|rs| - 1] + [rs[|rs| - 1]];
    }
  }

  lemma {:induction false} FailedIn(rs: seq<ReqId>, results: map<ReqId, Result>, aborted: set<ReqId>, r: ReqId)
    ensures Abort(r, r !in aborted) in FailedOf(rs, results, aborted) <==> r in rs && (ResultOf(results, r).failed || r in aborted)
  {
    if rs != [] {
      FailedIn(rs[..|rs| - 1], results, aborted, r);
      assert rs == rs[..|rs| - 1] + [rs[|rs| - 1]];
    }
  }

  lemma {:induction false} ReceivedOne(was: Book, now: Book, rs: seq<ReqId>, results: map<ReqId, Result>, aborted: set<ReqId>, r: ReqId)
    requires r in rs && r !in was.stop0 && (forall x :: x in rs ==> x in was.budget)
    requires now.stop0 == was.stop0 + StoppedOf(rs, was.budget, results)
    requires now.aborting == was.aborting + FailedOf(rs, results, aborted)
    requires BudgetAfter(now.budget, was.budget, rs, results)
    ensures Received(was, now, r, if r in results then results[r].n else 0, r in results && results[r].failed, r in aborted)
  {
    hide StoppedOf, FailedOf;
    StoppedIn(rs, was.budget, results, r);
    FailedIn(rs, results, aborted, r);
    assert now.aborting[|was.aborting|..] == FailedOf(rs, results, aborted);
  }

  lemma NoneLoaded(was: map<ReqId, Tokens>, results: map<ReqId, Result>, aborted: set<ReqId>, none: seq<ReqId>)
    requires none == []
    ensures StoppedOf(none, was, results) == [] && FailedOf(none, results, aborted) == [] && BudgetAfter(was, was, none, results)
  {
  }

  /** The book after request r was handed over. `caching` says that it was being loaded and the prefix
      cache is enabled. */
  function HandOver(b: Book, r: ReqId, result: Result, aborted: bool, caching: bool): Book
    requires r in b.budget
  {
    var stops, failed := Stops(b.budget[r], result.n), result.failed || aborted;
    Book(b.budget[r := AfterLoad(b.budget[r], result.n)],
         b.stop0 + (if stops then [r] else []),
         b.aborting + (if failed then [Abort(r, !aborted)] else []),
         b.cached + if caching && !failed && result.n > 0 && stops then {r} else {})
  }

  /** Counts the tokens of a load, in the order of the source; the bound has to lie below the prompt. */
  method Settle(b: Book, r: ReqId, result: Result, aborted: bool, caching: bool) returns (now: Book)
    requires r in b.budget && (b.budget[r].bound.Some? ==> b.budget[r].bound.value < b.budget[r].prompt)
    ensures now == HandOver(b, r, result, aborted, caching)
  {
    now := b;
    var t := b.budget[r];
    t := t.(computed := t.computed + result.n, external := t.external + result.n);
    var willStop := false;
    if t.bound.Some? {
      assert t.bound.value < t.prompt;
      willStop := t.bound.value <= t.computed;
    }
    if caching && !result.failed && !aborted && result.n > 0 && t.computed > 0 && willStop {
      now := now.(cached := now.cached + {r});
    }
    if willStop {
      t := t.(bound := Some(t.computed));
      now := now.(stop0 := now.stop0 + [r]);
    }
    now := now.(budget := now.budget[r := t]);
    if result.failed || aborted {
      now := now.(aborting := now.aborting + [Abort(r, !aborted)]);
    }
  }

  lemma {:induction false} OneLoaded(was: map<ReqId, Tokens>, b: Book, next: Book, results: map<ReqId, Result>,
                                     aborted: set<ReqId>, all: seq<ReqId>, k: nat, r: ReqId, caching: bool,
                                     stopped: seq<ReqId>, aborts: seq<Abort>)
    requires Distinct(all) && k < |all| && r == all[k] && forall x :: x in all ==> x in was
    requires BudgetAfter(b.budget, was, all[..k], results) && r in b.budget
    requires b.stop0 == stopped + StoppedOf(all[..k], was, results) && b.aborting == aborts + FailedOf(all[..k], results, aborted)
    requires next == HandOver(b, r, ResultOf(results, r), r in aborted, caching)
    ensures BudgetAfter(next.budget, was, all[..k + 1], results)
    ensures next.stop0 == stopped + StoppedOf(all[..k + 1], was, results)
    ensures next.aborting == aborts + FailedOf(all[..k + 1], results, aborted)
  {
    hide AfterLoad, Stops, ResultOf, BudgetAfter, Distinct;
    BudgetNext(was, b.budget, next.budget, results, all, k, r);
    assert all[..k + 1][|all[..k + 1]| - 1] == r && all[..k + 1][..k] == all[..k];
  }

  lemma BudgetNext(was: map<ReqId, Tokens>, now: map<ReqId, Tokens>, next: map<ReqId, Tokens>, results: map<ReqId, Result>,
                   all: seq<ReqId>, k: nat, r: ReqId)
    requires Distinct(all) && k < |all| && r == all[k] && r in was && BudgetAfter(now, was, all[..k], results) && r in now
    requires next == now[r := AfterLoad(now[r], ResultOf(results, r).n)]
    ensures now[r] == was[r] && BudgetAfter(next, was, all[..k + 1], results)
  {
    hide AfterLoad, ResultOf;
    assert all[..k + 1] == all[..k] + [r];
    assert r !in all[..k];
  }

  class Scheduler {
    var waiting: seq<Plan>
    var loading: set<ReqId>
    var loaded: seq<ReqId>
    var engine: set<ReqId>
    var saving: seq<Save>
    var saved: seq<ReqId>
    var savePrepared: set<ReqId>
    var cleanupRc: map<ReqId, nat>
    var refCnt: map<nat, nat>
    var cleanups: seq<ReqId>
    var book: Book
    /** Requests whose abort was forwarded to the load or save backend. */
    var loadAborted: set<ReqId>
    var saveAborted: set<ReqId>

    ghost var accepted: set<ReqId>
    ghost var loadOps: set<ReqId>
    ghost var saveOps: set<ReqId>
    ghost var engineRefs: map<nat, nat>

    ghost predicate SavesValid()
      reads this`saving, this`saved, this`saveOps, this`savePrepared, this`refCnt, this`engineRefs, this`cleanupRc, this`loadOps
    {
      && Saves(saving, saved, saveOps, savePrepared)
      && Counted(refCnt, engineRefs, saving)
      && Tracked(cleanupRc, loadOps, saveOps)
    }

    ghost predicate Valid()
      reads this
    {
      && Located(accepted, waiting, loading, loaded, engine, loadOps) && SavesValid()
      && NotYet(waiting, savePrepared) && savePrepared <= accepted
      && Budgeted(book, accepted, engine)
    }

    constructor ()
      ensures Valid() && accepted == {} && waiting == [] && loaded == [] && saving == [] && cleanups == []
    {
      waiting, loading, loaded, engine := [], {}, [], {};
      saving, saved, savePrepared, cleanupRc, refCnt, cleanups := [], [], {}, map[], map[], [];
      book := Book(map[], [], [], {});
      loadAborted, saveAborted := {}, {};
      accepted, loadOps, saveOps, engineRefs := {}, {}, {}, map[];
    }

    /** Adds one reference per occurrence of a block. */
    method AcquireBlocks(blocks: seq<nat>)
      modifies this`refCnt
      ensures forall b: nat :: Ref(refCnt, b) == Ref(old(refCnt), b) + Occurrences(blocks, b)
    {
      for i := 0 to |blocks|
        invariant forall b: nat :: Ref(refCnt, b) == Ref(old(refCnt), b) + Occurrences(blocks[..i], b)
      {
        ghost var was := refCnt;
        refCnt := refCnt[blocks[i] := Ref(refCnt, blocks[i]) + 1];
        forall b: nat ensures Ref(refCnt, b) == Ref(old(refCnt), b) + Occurrences(blocks[..i + 1], b) {
          OccurrencesPush(blocks, i, b);
        }
      }
      assert blocks[..|blocks|] == blocks;
    }

    /** Drops one reference per occurrence of a block. */
    method FreeBlocks(blocks: seq<nat>)
      requires forall b: nat :: Ref(refCnt, b) >= Occurrences(blocks, b)
      modifies this`refCnt
      ensures forall b: nat :: Ref(refCnt, b) + Occurrences(blocks, b) == Ref(old(refCnt), b)
    {
      for i := 0 to |blocks|
        invariant forall b: nat :: Ref(refCnt, b) + Occurrences(blocks[..i], b) == Ref(old(refCnt), b)
      {
        OccurrencesPush(blocks, i, blocks[i]);
        OccurrencesGrow(blocks, i + 1, blocks[i]);
        assert Ref(refCnt, blocks[i]) > 0;
        refCnt := refCnt[blocks[i] := Ref(refCnt, blocks[i]) - 1];
        forall b: nat ensures Ref(refCnt, b) + Occurrences(blocks[..i + 1], b) == Ref(old(refCnt), b) {
          OccurrencesPush(blocks, i, b);
        }
      }
      assert blocks[..|blocks|] == blocks;
    }

    /** Starts a save: one more outstanding operation, one reference per block occurrence. */
    method SetupSave(r: ReqId, blocks: seq<nat>)
      requires SavesValid() && r !in savePrepared
      modifies this`cleanupRc, this`saving, this`refCnt, this`savePrepared, this`saveOps
      ensures SavesValid() && saving == old(saving) + [Save(r, blocks)] && saveOps == old(saveOps) + {r}
      ensures savePrepared == old(savePrepared) + {r}
    {
      hide Located, Budgeted, Saves, Counted, Tracked, NotYet, IsWaiting, IsSaving, Held, Occurrences;
      SaveStarts(saving, saved, saveOps, savePrepared, r, blocks);
      RcStarts(cleanupRc, loadOps, saveOps, r);
      cleanupRc := cleanupRc[r := Rc(cleanupRc, r) + 1];
      ghost var was := refCnt;
      AcquireBlocks(blocks);
      RefsStart(was, refCnt, engineRefs, saving, Save(r, blocks));
      saving := saving + [Save(r, blocks)];
      savePrepared := savePrepared + {r};
      saveOps := saveOps + {r};
    }

    /** A save set up later, for a request the engine already runs. */
    method TrySetupSave(r: ReqId, blocks: seq<nat>) returns (started: bool)
      requires Valid() && r in engine
      modifies this`cleanupRc, this`saving, this`refCnt, this`savePrepared, this`saveOps
      ensures Valid() && started == !IsSaving(old(saving), r)
      ensures saving == if started then old(saving) + [Save(r, blocks)] else old(saving)
    {
      hide Located, Budgeted, Saves, Counted, Tracked, NotYet, IsWaiting, IsSaving, Held, Occurrences;
      PreparedIs(saving, saved, saveOps, savePrepared, r);
      if r in savePrepared {
        return false;
      }
      EngineNotWaiting(accepted, waiting, loading, loaded, engine, loadOps, r);
      StillNotYet(waiting, savePrepared, r);
      SetupSave(r, blocks);
      started := true;
    }

    /** Ends a save: drops exactly the references taken at its start. A second call finds nothing. */
    method TryTeardownSave(r: ReqId) returns (found: bool, ghost i: nat)
      requires Counted(refCnt, engineRefs, saving)
      modifies this`saving, this`refCnt, this`savePrepared
      ensures found == old(IsSaving(saving, r))
      ensures !found ==> unchanged(this)
      ensures found ==>
                && i < |old(saving)| && old(saving)[i].id == r && saving == Without(old(saving), i)
                && savePrepared == old(savePrepared) - {r} && Counted(refCnt, engineRefs, saving)
    {
      hide Counted, Occurrences, Held;
      found, i := false, 0;
      for k := 0 to |saving|
        invariant unchanged(this) && !found && forall j :: 0 <= j < k ==> saving[j].id != r
      {
        if saving[k].id == r {
          found, i := true, k;
          RefsEnough(refCnt, engineRefs, saving, k);
          ghost var was := refCnt;
          FreeBlocks(saving[k].blocks);
          RefsEnd(was, refCnt, engineRefs, saving, k);
          saving := Without(saving, k);
          savePrepared := savePrepared - {r};
          return;
        }
      }
    }

    /** Handles one completed save. */
    method StepSavedOne()
      requires Valid() && saved != []
      modifies this`saved, this`saving, this`refCnt, this`savePrepared
      ensures Valid() && saved == old(saved)[1..]
      ensures IsSaving(old(saving), old(saved)[0]) && !IsSaving(saving, old(saved)[0])
    {
      hide Located, Budgeted, Saves, Counted, Tracked, NotYet, IsWaiting, IsSaving, Held, Occurrences;
      var r := saved[0];
      SavedIsSaving(saving, saved, saveOps, savePrepared);
      saved := saved[1..];
      var found, i := TryTeardownSave(r);
      SaveEnds(old(saving), old(saved), saveOps, old(savePrepared), i);
      FewerPrepared(waiting, old(savePrepared), r);
    }

    method StepSaved()
      requires Valid()
      modifies this`saved, this`saving, this`refCnt, this`savePrepared
      ensures Valid() && saved == []
      ensures forall r :: IsSaving(saving, r) ==> r in saveOps
    {
      hide Located, Budgeted, Saves, Counted, Tracked, NotYet, IsWaiting, IsSaving, Held, Occurrences;
      while saved != []
        invariant Valid()
        decreases |saved|
      {
        StepSavedOne();
      }
      OnlyOpen(saving, saveOps, savePrepared);
    }

    /** One operation of a request ends; its resources are cleaned up when none is left. */
    method Cleanup(r: ReqId)
      requires Rc(cleanupRc, r) > 0
      modifies this`cleanupRc, this`cleanups
      ensures cleanupRc == old(cleanupRc)[r := Rc(old(cleanupRc), r) - 1]
      ensures cleanups == old(cleanups) + if Rc(cleanupRc, r) == 0 then [r] else []
    {
      var rc := Rc(cleanupRc, r);
      assert rc > 0;
      rc := rc - 1;
      cleanupRc := cleanupRc[r := rc];
      if rc <= 0 {
        cleanups := cleanups + [r];
      }
    }

    /** The last worker has reported a save. */
    method SaveDone(r: ReqId)
      requires Valid() && r in saveOps
      modifies this`saved, this`saveOps, this`cleanupRc, this`cleanups
      ensures Valid() && saved == old(saved) + [r] && saveOps == old(saveOps) - {r}
      ensures cleanups == old(cleanups) + if Outstanding(loadOps, saveOps, r) == 0 then [r] else []
    {
      hide Located, Budgeted, Saves, Counted, Tracked, NotYet, IsSaving;
      RcEnds(cleanupRc, loadOps, saveOps, r);
      SaveFinishes(saving, saved, saveOps, savePrepared, r);
      saved := saved + [r];
      saveOps := saveOps - {r};
      Cleanup(r);
    }

    /** The load of a request has ended, successfully or not. */
    method MarkLoaded(r: ReqId)
      requires Valid() && r in loadOps
      modifies this`loaded, this`loadOps, this`cleanupRc, this`cleanups
      ensures Valid() && loaded == old(loaded) + [r] && loadOps == old(loadOps) - {r}
      ensures cleanups == old(cleanups) + if Outstanding(loadOps, saveOps, r) == 0 then [r] else []
    {
      hide Located, Budgeted, Saves, Counted, Tracked, NotYet, IsSaving;
      RcEnds(cleanupRc, loadOps, saveOps, r);
      LoadFinishes(accepted, waiting, loading, loaded, engine, loadOps, r);
      loaded := loaded + [r];
      loadOps := loadOps - {r};
      Cleanup(r);
    }

    /** A request joins the queue if it has something to load or save; otherwise the engine takes
        it at once. */
    method OnAddReq(p: Plan, t: Tokens) returns (taken: bool)
      requires Valid() && p.id !in accepted && (t.bound.Some? ==> t.bound.value < t.prompt)
      modifies this`waiting, this`engine, this`accepted, this`book
      ensures Valid() && taken == (p.load > 0 || p.save > 0) && accepted == old(accepted) + {p.id}
      ensures book == old(book).(budget := old(book).budget[p.id := t])
      ensures waiting == (if taken then old(waiting) + [p] else old(waiting))
      ensures engine == (if taken then old(engine) else old(engine) + {p.id})
    {
      hide Located, Budgeted, Saves, Counted, Tracked, NotYet, IsWaiting, IsSaving, Held, Occurrences;
      taken := p.load > 0 || p.save > 0;
      NewBudget(book, accepted, waiting, loading, loaded, loadOps, engine, p.id, t);
      book := book.(budget := book.budget[p.id := t]);
      if taken {
        Joins(accepted, waiting, loading, loaded, engine, loadOps, p);
        JoinsNotYet(waiting, savePrepared, p);
        waiting := waiting + [p];
      } else {
        Bypasses(accepted, waiting, loading, loaded, engine, loadOps, p.id);
        engine := engine + {p.id};
      }
      accepted := accepted + {p.id};
    }

    /** Starts a load: one more outstanding operation. */
    method SetupLoad(r: ReqId)
      requires SavesValid() && r !in loading && r !in loadOps
      modifies this`cleanupRc, this`loading, this`loadOps
      ensures SavesValid() && loading == old(loading) + {r} && loadOps == old(loadOps) + {r}
    {
      hide Located, Budgeted, Saves, Counted, Tracked, NotYet, IsWaiting, IsSaving, Held, Occurrences;
      RcLoads(cleanupRc, loadOps, saveOps, r);
      cleanupRc := cleanupRc[r := Rc(cleanupRc, r) + 1];
      assert r !in loading;
      loading := loading + {r};
      loadOps := loadOps + {r};
    }

    /** The first waiting request got its blocks. */
    method StepWaitingOne(blocks: seq<nat>)
      requires Valid() && waiting != []
      modifies this`waiting, this`loading, this`loaded, this`loadOps, this`saving, this`saveOps, this`refCnt,
               this`savePrepared, this`cleanupRc
      ensures Valid() && waiting == old(waiting)[1..]
      ensures var p := old(waiting)[0];
              && saving == (if p.save > 0 then old(saving) + [Save(p.id, blocks)] else old(saving))
              && loading == (if p.load > 0 then old(loading) + {p.id} else old(loading))
              && loaded == (if p.load > 0 then old(loaded) else old(loaded) + [p.id])
    {
      hide Located, Budgeted, Saves, Counted, Tracked, NotYet, IsWaiting, IsSaving, Held, Occurrences;
      var p := waiting[0];
      FirstNotYet(waiting, savePrepared);
      StartsLoading(accepted, waiting, loading, loaded, engine, loadOps);
      waiting := waiting[1..];
      if p.save > 0 {
        SetupSave(p.id, blocks);
      }
      if p.load > 0 {
        SetupLoad(p.id);
      } else {
        loaded := loaded + [p.id];
      }
    }

    /** Requests leave the queue in order, up to the first that gets no blocks. */
    method StepWaiting(alloc: ReqId -> Option<seq<nat>>)
      requires Valid()
      modifies this`waiting, this`loading, this`loaded, this`loadOps, this`saving, this`saveOps, this`refCnt,
               this`savePrepared, this`cleanupRc
      ensures Valid() && |waiting| <= |old(waiting)| && waiting == old(waiting)[|old(waiting)| - |waiting|..]
      ensures forall i :: 0 <= i < |old(waiting)| - |waiting| ==> alloc(old(waiting)[i].id).Some?
      ensures waiting != [] ==> alloc(waiting[0].id).None?
      ensures var left := old(waiting)[..|old(waiting)| - |waiting|];
              && saving == old(saving) + SavesFor(left, alloc)
              && loading == old(loading) + LoadersAmong(left)
              && loaded == old(loaded) + WithoutLoad(left)
              && forall b: nat :: Ref(refCnt, b) == Ref(old(refCnt), b) + Held(SavesFor(left, alloc), b)
    {
      hide Located, Budgeted, Saves, Counted, Tracked, NotYet, IsWaiting, IsSaving, Held, Occurrences, SavesFor, WithoutLoad,
           LoadersAmong;
      ghost var all := waiting;
      ghost var k := 0;
      NoneLeft(alloc, all[..0]);
      assert saving + [] == saving && loaded + [] == loaded;
      while waiting != []
        invariant Valid() && |waiting| <= |all| && waiting == all[|all| - |waiting|..] && k == |all| - |waiting|
        invariant forall i :: 0 <= i < |all| - |waiting| ==> alloc(all[i].id).Some?
        invariant saving == old(saving) + SavesFor(all[..k], alloc) && loaded == old(loaded) + WithoutLoad(all[..k])
        invariant loading == old(loading) + LoadersAmong(all[..k]) && engineRefs == old(engineRefs)
        decreases |waiting|
      {
        var blocks := alloc(waiting[0].id);
        if blocks.None? {
          break;
        }
        OneLeft(alloc, all, k);
        StepWaitingOne(blocks.value);
        k := k + 1;
      }
      RefsGrown(old(refCnt), refCnt, engineRefs, old(saving), SavesFor(all[..k], alloc));
    }

    /** Hands one loaded request to the engine, with the tokens that its load brought. */
    method StepLoadedOne(results: map<ReqId, Result>, prefixCaching: bool)
      requires Valid() && loaded != []
      modifies this`loaded, this`loading, this`engine, this`book
      ensures Valid() && loaded == old(loaded)[1..]
      ensures var r := old(loaded)[0];
              && r in old(book).budget && engine == old(engine) + {r} && loading == old(loading) - {r}
              && book == HandOver(old(book), r, ResultOf(results, r), r in loadAborted, r in old(loading) && prefixCaching)
    {
      hide Located, Budgeted, Saves, Counted, Tracked, NotYet, IsWaiting, IsSaving, Held, Occurrences, Distinct, ResultOf;
      var r, result := loaded[0], ResultOf(results, loaded[0]);
      HandsOver(accepted, waiting, loading, loaded, engine, loadOps);
      var aborted, caching := r in loadAborted, r in loading && prefixCaching;
      BookKept(book, accepted, waiting, loading, loaded, engine, loadOps, result, aborted, caching);
      var now := Settle(book, r, result, aborted, caching);
      loaded, loading, engine, book := loaded[1..], loading - {r}, engine + {r}, now;
    }

    /** Hands all loaded requests to the engine: exactly those that reached their bound are stopped,
        in order, and exactly those whose load failed are aborted. `results` are the results that
        their loads have reported. */
    method StepLoaded(results: map<ReqId, Result>, prefixCaching: bool)
      requires Valid()
      modifies this`loaded, this`loading, this`engine, this`book
      ensures Valid() && loaded == [] && engine == old(engine) + (set r | r in old(loaded))
      ensures forall r :: r in old(loaded) ==> r in old(book).budget
      ensures book.stop0 == old(book).stop0 + StoppedOf(old(loaded), old(book).budget, results)
      ensures book.aborting == old(book).aborting + FailedOf(old(loaded), results, loadAborted)
      ensures BudgetAfter(book.budget, old(book).budget, old(loaded), results)
      ensures forall r :: r in old(loaded) ==>
                Received(old(book), book, r, if r in results then results[r].n else 0,
                         r in results && results[r].failed, r in loadAborted)
    {
      hide Located, Saves, Counted, Tracked, NotYet, IsWaiting, IsSaving, Held, Occurrences, Budgeted, HandOver,
           StoppedOf, FailedOf, BudgetAfter, Distinct;
      ghost var all, was := loaded, book.budget;
      ghost var k := 0;
      LoadedIs(book, accepted, waiting, loading, loaded, engine, loadOps);
      NoneLoaded(was, results, loadAborted, all[..0]);
      assert all[0..] == loaded;
      while loaded != []
        invariant Valid() && k <= |all| && loaded == all[k..] && engine == old(engine) + (set r | r in all[..k])
        invariant book.stop0 == old(book).stop0 + StoppedOf(all[..k], was, results)
        invariant book.aborting == old(book).aborting + FailedOf(all[..k], results, loadAborted)
        invariant BudgetAfter(book.budget, was, all[..k], results)
        decreases |loaded|
      {
        ghost var before, caching := book, loaded[0] in loading && prefixCaching;
        StepLoadedOne(results, prefixCaching);
        OneLoaded(was, before, book, results, loadAborted, all, k, all[k], caching, old(book).stop0, old(book).aborting);
        assert all[..k + 1] == all[..k] + [all[k]];
        k := k + 1;
      }
      assert all[..k] == all;
      forall r | r in all
        ensures Received(old(book), book, r, if r in results then results[r].n else 0,
                         r in results && results[r].failed, r in loadAborted)
      {
        NotStoppedYet(old(book), accepted, waiting, old(loading), all, old(engine), loadOps, r);
        ReceivedOne(old(book), book, all, results, loadAborted, r);
      }
    }

    /** The stopped requests go into the metadata of the step. */
    method TakeStopped() returns (stopped: seq<ReqId>)
      requires Valid()
      modifies this`book
      ensures Valid() && stopped == old(book).stop0 && book == old(book).(stop0 := [])
      ensures forall r :: r in stopped ==> r in book.budget && book.budget[r].bound == Some(book.budget[r].computed)
    {
      hide Located, Saves, Counted, Tracked, NotYet, IsWaiting, IsSaving, Held, Occurrences;
      stopped := book.stop0;
      book := book.(stop0 := []);
    }

    /** Aborting a request that still waits hands it to the engine, which finishes it. */
    method AbortWaiting(r: ReqId) returns (found: bool)
      requires Valid()
      modifies this`waiting, this`engine
      ensures Valid() && found == old(IsWaiting(waiting, r))
      ensures !found ==> unchanged(this)
      ensures found ==> engine == old(engine) + {r}
      ensures !IsWaiting(waiting, r)
    {
      hide Saves, Counted, Tracked, Located, Budgeted;
      found := false;
      for i := 0 to |waiting|
        invariant unchanged(this) && !found && forall k :: 0 <= k < i ==> waiting[k].id != r
      {
        if waiting[i].id == r {
          Leaves(accepted, waiting, loading, loaded, engine, loadOps, i);
          Gone(accepted, waiting, loading, loaded, engine, loadOps, i);
          MoreEngine(book, accepted, engine, r);
          waiting := waiting[..i] + waiting[i + 1..];
          engine := engine + {r};
          return true;
        }
      }
    }

    /** One abort. A waiting request leaves the queue; the abort of a loading or saving request is
        forwarded to its backend at most once, and its operation stays outstanding until that
        backend reports. */
    method StepAbortingOne(r: ReqId) returns (toLoad: bool, toSave: bool)
      requires Valid()
      modifies this`waiting, this`engine, this`loadAborted, this`saveAborted, this`book
      ensures Valid() && !IsWaiting(waiting, r)
      ensures engine == if old(IsWaiting(waiting, r)) then old(engine) + {r} else old(engine)
      ensures book == if r in old(engine) then old(book).(stop0 := Drop(old(book).stop0, r)) else old(book)
      ensures r in old(engine) ==> r !in book.stop0
      ensures toLoad <==> r in loading && r !in old(loadAborted)
      ensures toSave <==> r !in loading && IsSaving(saving, r) && r !in old(saveAborted)
      ensures loadAborted == if toLoad then old(loadAborted) + {r} else old(loadAborted)
      ensures saveAborted == if toSave then old(saveAborted) + {r} else old(saveAborted)
    {
      hide Located, Budgeted, Saves, Counted, Tracked, NotYet, Held, Occurrences;
      toLoad, toSave := false, false;
      ghost var was := waiting;
      var found := AbortWaiting(r);
      if found {
        WaitingNotEngine(accepted, was, loading, loaded, old(engine), loadOps, r);
        LeftQueue(accepted, was, loading, loaded, savePrepared, saving, saved, saveOps, r, old(engine), loadOps);
        return;
      }
      if r in loading {
        LoadingNotEngine(accepted, waiting, loading, loaded, engine, loadOps, r);
        if r in loadAborted {
          return;
        }
        assert r !in engine;
        loadAborted := loadAborted + {r};
        toLoad := true;
        return;
      }
      if r in engine {
        DropStopped(book, accepted, engine, r);
        book := book.(stop0 := Drop(book.stop0, r));
      }
      PreparedIs(saving, saved, saveOps, savePrepared, r);
      if r in savePrepared && r !in saveAborted {
        saveAborted := saveAborted + {r};
        toSave := true;
      }
    }

    /** The engine takes or drops a reference of its own. */
    method EngineRef(b: nat, take: bool)
      requires Valid() && (!take ==> Ref(engineRefs, b) > 0)
      modifies this`refCnt, this`engineRefs
      ensures Valid() && engineRefs == old(engineRefs)[b := Ref(old(engineRefs), b) + (if take then 1 else -1)]
    {
      hide Located, Budgeted, Saves, Tracked, Held, NotYet;
      refCnt := refCnt[b := Ref(refCnt, b) + if take then 1 else -1];
      engineRefs := engineRefs[b := Ref(engineRefs, b) + if take then 1 else -1];
    }

    /** An accepted request is in exactly one place; its cleanup count is the number of its
        outstanding operations; and every block of a save in progress is still referenced. */
    lemma Conserved(r: ReqId)
      requires Valid()
      ensures r in accepted <==> IsWaiting(waiting, r) || r in loading || r in loaded || r in engine
      ensures !(IsWaiting(waiting, r) && (r in loading || r in loaded || r in engine))
      ensures !((r in loading || r in loaded) && r in engine)
      ensures Rc(cleanupRc, r) == Outstanding(loadOps, saveOps, r)
      ensures r in saveOps ==> IsSaving(saving, r)
      ensures forall i, j :: 0 <= i < |saving| && 0 <= j < |saving[i].blocks| ==> Ref(refCnt, saving[i].blocks[j]) > 0
    {
      hide Held, Occurrences;
      forall i, j | 0 <= i < |saving| && 0 <= j < |saving[i].blocks| ensures Ref(refCnt, saving[i].blocks[j]) > 0 {
        HeldRemove(saving, i, saving[i].blocks[j]);
        OccurrencesIn(saving[i].blocks, j);
      }
    }
  }

  function Drop(ids: seq<ReqId>, r: ReqId): seq<ReqId> {
    if ids == [] then [] else if ids[0] == r then ids[1..] else [ids[0]] + Drop(ids[1..], r)
  }

  lemma {:induction false} DropIn(ids: seq<ReqId>, r: ReqId)
    requires Distinct(ids)
    ensures Distinct(Drop(ids, r)) && forall x :: x in Drop(ids, r) <==> x != r && x in ids
  {
    if ids != [] {
      var rest := ids[1..];
      assert ids == [ids[0]] + rest && Distinct(rest);
      assert ids[0] !in rest;
      DropIn(rest, r);
    }
  }

  lemma DropStopped(b: Book, accepted: set<ReqId>, engine: set<ReqId>, r: ReqId)
    requires Budgeted(b, accepted, engine)
    ensures Budgeted(b.(stop0 := Drop(b.stop0, r)), accepted, engine) && r !in Drop(b.stop0, r)
  {
    DropIn(b.stop0, r);
  }

  lemma NewBudget(b: Book, accepted: set<ReqId>, waiting: seq<Plan>, loading: set<ReqId>, loaded: seq<ReqId>,
                  loadOps: set<ReqId>, engine: set<ReqId>, r: ReqId, t: Tokens)
    requires Budgeted(b, accepted, engine) && Located(accepted, waiting, loading, loaded, engine, loadOps)
    requires r !in accepted && (t.bound.Some? ==> t.bound.value < t.prompt)
    ensures Budgeted(b.(budget := b.budget[r := t]), accepted + {r}, engine)
    ensures Budgeted(b.(budget := b.budget[r := t]), accepted + {r}, engine + {r})
  {
  }

  lemma MoreEngine(b: Book, accepted: set<ReqId>, engine: set<ReqId>, r: ReqId)
    requires Budgeted(b, accepted, engine)
    ensures Budgeted(b, accepted, engine + {r})
  {
  }

  lemma LoadedIs(b: Book, accepted: set<ReqId>, waiting: seq<Plan>, loading: set<ReqId>, loaded: seq<ReqId>,
                 engine: set<ReqId>, loadOps: set<ReqId>)
    requires Budgeted(b, accepted, engine) && Located(accepted, waiting, loading, loaded, engine, loadOps)
    ensures Distinct(loaded) && forall r :: r in loaded ==> r in b.budget
  {
  }

  /** The bound of the first loaded request lies below its prompt, and its new counts keep the budget. */
  lemma BookKept(b: Book, accepted: set<ReqId>, waiting: seq<Plan>, loading: set<ReqId>, loaded: seq<ReqId>,
                 engine: set<ReqId>, loadOps: set<ReqId>, result: Result, aborted: bool, caching: bool)
    requires Budgeted(b, accepted, engine) && Located(accepted, waiting, loading, loaded, engine, loadOps)
    requires loaded != []
    ensures var r := loaded[0];
            && r in b.budget && (b.budget[r].bound.Some? ==> b.budget[r].bound.value < b.budget[r].prompt)
            && Budgeted(HandOver(b, r, result, aborted, caching), accepted, engine + {r})
  {
    assert loaded[0] in loaded;
  }

  /** A stopped request is with the engine, so a loaded one was not stopped before. */
  lemma NotStoppedYet(b: Book, accepted: set<ReqId>, waiting: seq<Plan>, loading: set<ReqId>, loaded: seq<ReqId>,
                      engine: set<ReqId>, loadOps: set<ReqId>, r: ReqId)
    requires Budgeted(b, accepted, engine) && Located(accepted, waiting, loading, loaded, engine, loadOps) && r in loaded
    ensures r !in b.stop0
  {
  }

  lemma WaitingNotEngine(accepted: set<ReqId>, waiting: seq<Plan>, loading: set<ReqId>, loaded: seq<ReqId>,
                         engine: set<ReqId>, loadOps: set<ReqId>, r: ReqId)
    requires Located(accepted, waiting, loading, loaded, engine, loadOps) && IsWaiting(waiting, r)
    ensures r !in engine
  {
  }

  /** No save is set up before its request has left the queue. */
  ghost predicate NotYet(waiting: seq<Plan>, prepared: set<ReqId>) {
    forall i :: 0 <= i < |waiting| ==> waiting[i].id !in prepared
  }

  lemma PreparedIs(saving: seq<Save>, saved: seq<ReqId>, saveOps: set<ReqId>, prepared: set<ReqId>, r: ReqId)
    requires Saves(saving, saved, saveOps, prepared)
    ensures r in prepared <==> IsSaving(saving, r)
  {
  }

  lemma EngineNotWaiting(accepted: set<ReqId>, waiting: seq<Plan>, loading: set<ReqId>, loaded: seq<ReqId>,
                         engine: set<ReqId>, loadOps: set<ReqId>, r: ReqId)
    requires Located(accepted, waiting, loading, loaded, engine, loadOps) && r in engine
    ensures r in accepted && forall i :: 0 <= i < |waiting| ==> waiting[i].id != r
  {
    forall i | 0 <= i < |waiting| ensures waiting[i].id != r {
      assert IsWaiting(waiting, waiting[i].id);
    }
  }

  lemma StillNotYet(waiting: seq<Plan>, prepared: set<ReqId>, r: ReqId)
    requires NotYet(waiting, prepared) && forall i :: 0 <= i < |waiting| ==> waiting[i].id != r
    ensures NotYet(waiting, prepared + {r})
  {
  }

  lemma FewerPrepared(waiting: seq<Plan>, prepared: set<ReqId>, r: ReqId)
    requires NotYet(waiting, prepared)
    ensures NotYet(waiting, prepared - {r})
  {
  }

  lemma JoinsNotYet(waiting: seq<Plan>, prepared: set<ReqId>, p: Plan)
    requires NotYet(waiting, prepared) && p.id !in prepared
    ensures NotYet(waiting + [p], prepared)
  {
  }

  lemma FirstNotYet(waiting: seq<Plan>, prepared: set<ReqId>)
    requires NotYet(waiting, prepared) && waiting != []
    ensures waiting[0].id !in prepared && NotYet(waiting[1..], prepared)
    ensures DistinctPlans(waiting) ==> NotYet(waiting[1..], prepared + {waiting[0].id})
  {
  }

  lemma RcStarts(rc: map<ReqId, nat>, loadOps: set<ReqId>, saveOps: set<ReqId>, r: ReqId)
    requires Tracked(rc, loadOps, saveOps) && r !in saveOps
    ensures Tracked(rc[r := Rc(rc, r) + 1], loadOps, saveOps + {r})
  {
    forall x ensures Rc(rc[r := Rc(rc, r) + 1], x) == Outstanding(loadOps, saveOps + {r}, x) {
      assert Rc(rc, x) == Outstanding(loadOps, saveOps, x);
    }
  }

  lemma RcLoads(rc: map<ReqId, nat>, loadOps: set<ReqId>, saveOps: set<ReqId>, r: ReqId)
    requires Tracked(rc, loadOps, saveOps)
    ensures r !in loadOps ==> Tracked(rc[r := Rc(rc, r) + 1], loadOps + {r}, saveOps)
  {
    if r !in loadOps {
      forall x ensures Rc(rc[r := Rc(rc, r) + 1], x) == Outstanding(loadOps + {r}, saveOps, x) {
        assert Rc(rc, x) == Outstanding(loadOps, saveOps, x);
      }
    }
  }

  lemma RcEnds(rc: map<ReqId, nat>, loadOps: set<ReqId>, saveOps: set<ReqId>, r: ReqId)
    requires Tracked(rc, loadOps, saveOps) && (r in loadOps || r in saveOps)
    ensures Rc(rc, r) > 0 && Rc(rc, r) == Outstanding(loadOps, saveOps, r)
    ensures r in loadOps ==> Tracked(rc[r := Rc(rc, r) - 1], loadOps - {r}, saveOps)
    ensures r in saveOps ==> Tracked(rc[r := Rc(rc, r) - 1], loadOps, saveOps - {r})
  {
    assert Rc(rc, r) == Outstanding(loadOps, saveOps, r);
    var t := rc[r := Rc(rc, r) - 1];
    forall x ensures r in loadOps ==> Rc(t, x) == Outstanding(loadOps - {r}, saveOps, x)
             ensures r in saveOps ==> Rc(t, x) == Outstanding(loadOps, saveOps - {r}, x)
    {
      assert Rc(rc, x) == Outstanding(loadOps, saveOps, x);
    }
  }

  lemma RefsStart(was: map<nat, nat>, now: map<nat, nat>, engineRefs: map<nat, nat>, saving: seq<Save>, s: Save)
    requires Counted(was, engineRefs, saving)
    requires forall b: nat :: Ref(now, b) == Ref(was, b) + Occurrences(s.blocks, b)
    ensures Counted(now, engineRefs, saving + [s])
  {
    hide Held, Occurrences, Ref;
    forall b: nat ensures Ref(now, b) == Ref(engineRefs, b) + Held(saving + [s], b) {
      HeldPush(saving, s, b);
    }
  }

  lemma RefsEnough(refCnt: map<nat, nat>, engineRefs: map<nat, nat>, saving: seq<Save>, i: nat)
    requires Counted(refCnt, engineRefs, saving) && i < |saving|
    ensures forall b: nat :: Ref(refCnt, b) >= Occurrences(saving[i].blocks, b)
  {
    hide Held, Occurrences, Ref;
    forall b: nat ensures Ref(refCnt, b) >= Occurrences(saving[i].blocks, b) {
      HeldRemove(saving, i, b);
    }
  }

  lemma RefsEnd(was: map<nat, nat>, now: map<nat, nat>, engineRefs: map<nat, nat>, saving: seq<Save>, i: nat)
    requires Counted(was, engineRefs, saving) && i < |saving|
    requires forall b: nat :: Ref(now, b) + Occurrences(saving[i].blocks, b) == Ref(was, b)
    ensures Counted(now, engineRefs, Without(saving, i))
  {
    hide Held, Occurrences, Ref;
    forall b: nat ensures Ref(now, b) == Ref(engineRefs, b) + Held(Without(saving, i), b) {
      HeldRemove(saving, i, b);
    }
  }

  lemma SavedIsSaving(saving: seq<Save>, saved: seq<ReqId>, saveOps: set<ReqId>, prepared: set<ReqId>)
    requires Saves(saving, saved, saveOps, prepared) && saved != []
    ensures IsSaving(saving, saved[0])
  {
    assert saved[0] in saved;
  }

  lemma SavingWithout(saving: seq<Save>, i: nat, x: ReqId)
    requires i < |saving| && forall k, j :: 0 <= k < j < |saving| ==> saving[k].id != saving[j].id
    ensures IsSaving(Without(saving, i), x) <==> x != saving[i].id && IsSaving(saving, x)
  {
    var t := Without(saving, i);
    if IsSaving(t, x) {
      var k :| 0 <= k < |t| && t[k].id == x;
      assert saving[if k < i then k else k + 1].id == x;
    }
    if x != saving[i].id && IsSaving(saving, x) {
      var k :| 0 <= k < |saving| && saving[k].id == x;
      assert t[if k < i then k else k - 1].id == x;
    }
  }

  lemma SaveEnds(saving: seq<Save>, saved: seq<ReqId>, saveOps: set<ReqId>, prepared: set<ReqId>, i: nat)
    requires Saves(saving, saved, saveOps, prepared) && saved != [] && i < |saving| && saving[i].id == saved[0]
    ensures Saves(Without(saving, i), saved[1..], saveOps, prepared - {saved[0]})
    ensures !IsSaving(Without(saving, i), saved[0])
  {
    hide IsSaving;
    var r, t := saved[0], Without(saving, i);
    forall x ensures IsSaving(t, x) <==> x != r && IsSaving(saving, x) {
      SavingWithout(saving, i, x);
    }
    assert saved == [r] + saved[1..];
    assert r in saved && r !in saved[1..];
  }

  lemma OnlyOpen(saving: seq<Save>, saveOps: set<ReqId>, prepared: set<ReqId>)
    requires Saves(saving, [], saveOps, prepared)
    ensures forall r :: IsSaving(saving, r) ==> r in saveOps
  {
  }

  lemma SaveFinishes(saving: seq<Save>, saved: seq<ReqId>, saveOps: set<ReqId>, prepared: set<ReqId>, r: ReqId)
    requires Saves(saving, saved, saveOps, prepared) && r in saveOps
    ensures Saves(saving, saved + [r], saveOps - {r}, prepared)
  {
    hide IsSaving;
  }

  lemma LoadFinishes(accepted: set<ReqId>, waiting: seq<Plan>, loading: set<ReqId>, loaded: seq<ReqId>,
                     engine: set<ReqId>, loadOps: set<ReqId>, r: ReqId)
    requires Located(accepted, waiting, loading, loaded, engine, loadOps) && r in loadOps
    ensures Located(accepted, waiting, loading, loaded + [r], engine, loadOps - {r})
  {
    hide IsWaiting, DistinctPlans;
  }

  lemma Joins(accepted: set<ReqId>, waiting: seq<Plan>, loading: set<ReqId>, loaded: seq<ReqId>, engine: set<ReqId>,
              loadOps: set<ReqId>, p: Plan)
    requires Located(accepted, waiting, loading, loaded, engine, loadOps) && p.id !in accepted
    ensures Located(accepted + {p.id}, waiting + [p], loading, loaded, engine, loadOps)
  {
    var t := waiting + [p];
    assert t[|waiting|].id == p.id;
    forall i | 0 <= i < |waiting| ensures waiting[i].id != p.id {
      assert IsWaiting(waiting, waiting[i].id);
    }
    forall x ensures IsWaiting(t, x) <==> x == p.id || IsWaiting(waiting, x) {
      if IsWaiting(waiting, x) {
        var i :| 0 <= i < |waiting| && waiting[i].id == x;
        assert t[i].id == x;
      }
    }
  }

  lemma Bypasses(accepted: set<ReqId>, waiting: seq<Plan>, loading: set<ReqId>, loaded: seq<ReqId>,
                 engine: set<ReqId>, loadOps: set<ReqId>, r: ReqId)
    requires Located(accepted, waiting, loading, loaded, engine, loadOps) && r !in accepted
    ensures Located(accepted + {r}, waiting, loading, loaded, engine + {r}, loadOps)
  {
    hide IsWaiting, DistinctPlans;
  }

  lemma Rest(waiting: seq<Plan>, i: nat)
    requires DistinctPlans(waiting) && i < |waiting|
    ensures DistinctPlans(waiting[..i] + waiting[i + 1..])
    ensures forall x :: IsWaiting(waiting[..i] + waiting[i + 1..], x) <==> x != waiting[i].id && IsWaiting(waiting, x)
  {
    var t := waiting[..i] + waiting[i + 1..];
    forall x ensures IsWaiting(t, x) <==> x != waiting[i].id && IsWaiting(waiting, x) {
      if IsWaiting(t, x) {
        var k :| 0 <= k < |t| && t[k].id == x;
        assert waiting[if k < i then k else k + 1].id == x;
      }
      if x != waiting[i].id && IsWaiting(waiting, x) {
        var k :| 0 <= k < |waiting| && waiting[k].id == x;
        assert t[if k < i then k else k - 1].id == x;
      }
    }
  }

  lemma StartsLoading(accepted: set<ReqId>, waiting: seq<Plan>, loading: set<ReqId>, loaded: seq<ReqId>,
                      engine: set<ReqId>, loadOps: set<ReqId>)
    requires Located(accepted, waiting, loading, loaded, engine, loadOps) && waiting != []
    ensures DistinctPlans(waiting)
    ensures var r := waiting[0].id;
            && r in accepted && r !in loading && r !in loadOps
            && Located(accepted, waiting[1..], loading + {r}, loaded, engine, loadOps + {r})
            && Located(accepted, waiting[1..], loading, loaded + [r], engine, loadOps)
  {
    var r := waiting[0].id;
    Rest(waiting, 0);
    assert waiting[..0] + waiting[1..] == waiting[1..];
    assert IsWaiting(waiting, r);
    hide IsWaiting, DistinctPlans;
    assert r !in loading && r !in loaded;
  }

  lemma HandsOver(accepted: set<ReqId>, waiting: seq<Plan>, loading: set<ReqId>, loaded: seq<ReqId>,
                  engine: set<ReqId>, loadOps: set<ReqId>)
    requires Located(accepted, waiting, loading, loaded, engine, loadOps) && loaded != []
    ensures Located(accepted, waiting, loading - {loaded[0]}, loaded[1..], engine + {loaded[0]}, loadOps)
  {
    hide IsWaiting, DistinctPlans;
    var r := loaded[0];
    assert loaded == [r] + loaded[1..];
    assert r in loaded && r !in loaded[1..];
  }

  lemma Gone(accepted: set<ReqId>, waiting: seq<Plan>, loading: set<ReqId>, loaded: seq<ReqId>, engine: set<ReqId>,
             loadOps: set<ReqId>, i: nat)
    requires Located(accepted, waiting, loading, loaded, engine, loadOps) && i < |waiting|
    ensures !IsWaiting(waiting[..i] + waiting[i + 1..], waiting[i].id)
  {
    Rest(waiting, i);
  }

  lemma LoadingNotEngine(accepted: set<ReqId>, waiting: seq<Plan>, loading: set<ReqId>, loaded: seq<ReqId>,
                         engine: set<ReqId>, loadOps: set<ReqId>, r: ReqId)
    requires Located(accepted, waiting, loading, loaded, engine, loadOps) && r in loading
    ensures r !in engine
  {
  }

  /** A request that was still waiting is neither loading nor saving. */
  lemma LeftQueue(accepted: set<ReqId>, waiting: seq<Plan>, loading: set<ReqId>, loaded: seq<ReqId>,
                  prepared: set<ReqId>,
                  saving: seq<Save>, saved: seq<ReqId>, saveOps: set<ReqId>, r: ReqId, engine: set<ReqId>, loadOps: set<ReqId>)
    requires Located(accepted, waiting, loading, loaded, engine, loadOps) && IsWaiting(waiting, r)
    requires Saves(saving, saved, saveOps, prepared) && NotYet(waiting, prepared)
    ensures r !in loading && !IsSaving(saving, r)
  {
    var i :| 0 <= i < |waiting| && waiting[i].id == r;
  }

  lemma Leaves(accepted: set<ReqId>, waiting: seq<Plan>, loading: set<ReqId>, loaded: seq<ReqId>, engine: set<ReqId>,
               loadOps: set<ReqId>, i: nat)
    requires Located(accepted, waiting, loading, loaded, engine, loadOps) && i < |waiting|
    ensures Located(accepted, waiting[..i] + waiting[i + 1..], loading, loaded, engine + {waiting[i].id}, loadOps)
  {
    Rest(waiting, i);
    assert IsWaiting(waiting, waiting[i].id);
    hide IsWaiting, DistinctPlans;
  }

  lemma SaveStarts(saving: seq<Save>, saved: seq<ReqId>, saveOps: set<ReqId>, prepared: set<ReqId>, r: ReqId,
                   blocks: seq<nat>)
    requires Saves(saving, saved, saveOps, prepared) && r !in prepared
    ensures Saves(saving + [Save(r, blocks)], saved, saveOps + {r}, prepared + {r})
    ensures r !in saveOps
  {
    var t := saving + [Save(r, blocks)];
    assert t[|saving|].id == r;
    forall x ensures IsSaving(t, x) <==> x == r || IsSaving(saving, x) {
      if IsSaving(saving, x) {
        var i :| 0 <= i < |saving| && saving[i].id == x;
        assert t[i].id == x;
      }
    }
  }
}
