/** The end of a remotely decoded request: its finish and the completion of its save come in any
    order, and the one that comes second reports that the transfer is done. */
module TransferDone {

  // ---------------------------------------------------------------------------
  // Which saves a request gets
  // ---------------------------------------------------------------------------

  /** What decides the operations of a request when it is added. Hybrid models drop the last
      `gamma` + 1 prompt tokens. */
  datatype Added = Added(promptLen: nat, announced: bool, remoteDecode: bool, hybrid: bool, gamma: nat)

  /** Prompt tokens that remain to be transferred; negative when too few are there to be dropped. */
  function Remaining(a: Added): int {
    if a.hybrid then a.promptLen - (a.gamma + 1) else a.promptLen
  }

  /** Number of save operations planned for a request: one for a request that is handed over with its
      destination, unless a hybrid model drops its whole prompt, and one for a remotely decoded request
      with more than one remaining token; none for any other. */
  function PlannedSaves(a: Added): (n: nat)
    ensures n <= 1
    ensures n == 1 <==> (a.announced && (a.hybrid ==> Remaining(a) > 0)) || (a.remoteDecode && Remaining(a) > 1)
  {
    if a.hybrid && a.promptLen <= a.gamma + 1 then 0
    else
      var prompt := if a.hybrid then a.promptLen - (a.gamma + 1) else a.promptLen;
      if a.announced then 1
      else if !a.remoteDecode || prompt <= 1 then 0
      else 1
  }

  // ---------------------------------------------------------------------------
  // Finish and save
  // ---------------------------------------------------------------------------

  datatype Event = SetUp | Saved | Finish(aborted: bool)

  /** What is remembered on the request: its finish came first, or its save did. */
  datatype Notes = Notes(finished: bool, saved: bool)

  /** The notes after an event and whether it reports the transfer as done. */
  function Step(n: Notes, e: Event): (Notes, bool) {
    match e
    case SetUp => (n, false)
    case Finish(aborted) =>
      if aborted then (n, false) else if n.saved then (n, true) else (n.(finished := true), false)
    case Saved => if n.finished then (n, true) else (n.(saved := true), false)
  }

  class Request {
    var finished: bool
    var saved: bool

    constructor ()
      ensures View() == Notes(false, false)
    {
      finished, saved := false, false;
    }

    function View(): Notes
      reads this
    {
      Notes(finished, saved)
    }

    method OnSaved() returns (done: bool)
      modifies this
      ensures (View(), done) == Step(old(View()), Saved)
    {
      done := finished;
      if !finished {
        saved := true;
      }
    }

    method OnFinished(aborted: bool) returns (done: bool)
      modifies this
      ensures (View(), done) == Step(old(View()), Finish(aborted))
    {
      done := false;
      if aborted {
        return;
      }
      if saved {
        return true;
      }
      finished := true;
    }
  }

  // ---------------------------------------------------------------------------
  // Runs
  // ---------------------------------------------------------------------------

  /** A run so far: whether a save is set up, how many were, whether the request has ended, and
      how often the transfer was reported as done. */
  datatype Life = Life(notes: Notes, open: bool, setUps: nat, over: bool, aborted: bool, reports: nat)

  const START := Life(Notes(false, false), false, 0, false, false, 0)

  /** A save is set up for a request the scheduler still knows and that has none open; a save that
      is set up completes once, as the scheduler's queues guarantee; a request finishes once. */
  predicate Legal(l: Life, e: Event) {
    match e
    case SetUp => !l.open && !l.over
    case Saved => l.open
    case Finish(_) => !l.over
  }

  function Next(l: Life, e: Event): Life {
    var (notes, done) := Step(l.notes, e);
    var n := l.(notes := notes, reports := l.reports + if done then 1 else 0);
    match e
    case SetUp => n.(open := true, setUps := l.setUps + 1)
    case Saved => n.(open := false)
    case Finish(aborted) => n.(over := true, aborted := aborted)
  }

  predicate LegalRun(es: seq<Event>) {
    es == [] || (LegalRun(es[..|es| - 1]) && Legal(Run(es[..|es| - 1]), es[|es| - 1]))
  }

  function Run(es: seq<Event>): Life {
    if es == [] then START else Next(Run(es[..|es| - 1]), es[|es| - 1])
  }

  /** Nothing is reported before the end; after it exactly one of these holds: the save came first
      and was reported at the finish, the finish waits for the open save, the save reported it, or
      there never was a save. */
  predicate Inv(l: Life) {
    && (l.open ==> l.setUps > 0)
    && (l.aborted ==> l.over)
    && (!l.over ==> l.reports == 0 && !l.notes.finished && (l.notes.saved || l.open <==> l.setUps > 0))
    && (l.over && l.aborted ==> l.reports == 0 && !l.notes.finished)
    && (l.over && !l.aborted ==>
          if l.notes.finished then !l.notes.saved && l.reports == (if l.open || l.setUps == 0 then 0 else 1)
          else l.reports == 1 && l.setUps > 0)
  }

  lemma {:induction false} RunKeeps(es: seq<Event>)
    requires LegalRun(es)
    ensures Inv(Run(es))
  {
    if es != [] {
      RunKeeps(es[..|es| - 1]);
    }
  }

  /** The transfer is never reported more than once, and never for an aborted request. When a
      request has finished and no save of it is open, it was reported exactly once if and only if
      a save was ever set up for it. */
  lemma ReportedOnce(es: seq<Event>)
    requires LegalRun(es)
    ensures var l := Run(es);
            && l.reports <= 1
            && (l.aborted ==> l.reports == 0)
            && (l.over && !l.aborted && !l.open ==> (l.reports == 1 <==> l.setUps > 0))
  {
    RunKeeps(es);
  }

  /** The run of a request that is added with the given plan: its save, if any, is set up first,
      and no other is set up later. */
  predicate RunOf(a: Added, es: seq<Event>) {
    && LegalRun(es)
    && Run(es).setUps == PlannedSaves(a)
  }

  /** A remotely decoded request whose remaining prompt is at most one token gets no save, so its
      finish is never followed by a report; any other is reported exactly once. */
  lemma ShortPromptsAreNeverReported(a: Added, es: seq<Event>)
    requires a.remoteDecode && !a.announced && RunOf(a, es)
    requires var l := Run(es); l.over && !l.aborted && !l.open
    ensures Run(es).reports == 0 <==> a.promptLen <= 1 + if a.hybrid then a.gamma + 1 else 0
    ensures Run(es).reports == 1 <==> a.promptLen > 1 + if a.hybrid then a.gamma + 1 else 0
  {
    ReportedOnce(es);
  }

  /** One prompt token: the request finishes, nothing is reported, and nothing can follow. */
  lemma OneTokenPrompt()
    ensures PlannedSaves(Added(1, false, true, false, 0)) == 0
    ensures LegalRun([Finish(false)]) && Run([Finish(false)]).reports == 0
    ensures forall e :: !Legal(Run([Finish(false)]), e)
  {
    var es := [Finish(false)];
    assert es[..0] == [];
    assert Run(es) == Next(START, Finish(false));
  }
}
