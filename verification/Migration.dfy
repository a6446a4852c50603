/** Migration of a request, across scheduler and backend: the backend sets up a save for the request
    and asserts that there was none. */
module Migration {
  import opened HybridScheduler
  import opened SendProtocol
  import opened TransferDone
  import opened Wrappers

  /** A migration is announced for a request that the engine runs. The backend breaks exactly when
      the scheduler still holds a save of the request, and otherwise sets one up. */
  method Announce(s: Scheduler, r: HybridScheduler.ReqId, blocks: seq<nat>, q: SendProtocol.Request, v: View,
                  cached: nat, limit: nat, numTokens: nat)
    returns (outcome: Outcome)
    requires s.Valid() && r in s.engine && cached < limit && cached < numTokens
    requires !v.waiting.Over? && v.dest.None? && !q.Covered(cached)
    modifies s
    ensures s.Valid() && (outcome.Broken? <==> old(IsSaving(s.saving, r)))
    ensures s.saving == if outcome.Broken? then old(s.saving) else old(s.saving) + [Save(r, blocks)]
  {
    var started := s.TrySetupSave(r, blocks);
    outcome := SendProtocol.Step(q, v, Info(cached, limit, numTokens, true, true, !started));
    MigrationWithSave(q, v, Info(cached, limit, numTokens, true, true, !started));
  }

  /** A request is added, gets its blocks, is handed to the engine and is then migrated: the backend
      breaks exactly when a save was planned for the request. */
  method AddAndMigrate(a: Added, r: HybridScheduler.ReqId, blocks: seq<nat>, q: SendProtocol.Request, v: View,
                       cached: nat, limit: nat, numTokens: nat)
    returns (outcome: Outcome)
    requires cached < limit && cached < numTokens && !v.waiting.Over? && v.dest.None? && !q.Covered(cached)
    ensures outcome.Broken? <==> PlannedSaves(a) > 0
  {
    hide Located, Budgeted, Saves, Counted, Tracked, NotYet, IsWaiting;
    var s := new Scheduler();
    var taken := s.OnAddReq(Plan(r, 0, PlannedSaves(a)), Tokens(a.promptLen, 0, 0, None));
    if taken {
      s.StepWaitingOne(blocks);
      assert PlannedSaves(a) > 0 ==> s.saving[0].id == r;
      assert s.loaded == [r];
      s.StepLoaded(map[], false);
    }
    outcome := Announce(s, r, blocks, q, v, cached, limit, numTokens);
  }

  /** A prompt of four tokens that decodes elsewhere has a save, so its migration fails. */
  lemma SavedRequestIsNotMigrated()
    ensures PlannedSaves(Added(4, false, true, false, 0)) == 1
    ensures var q := SendProtocol.Request(4, None, true);
            SendProtocol.Step(q, SendProtocol.START.view, Info(0, 4, 4, true, true, true)) == Broken
  {
  }
}
