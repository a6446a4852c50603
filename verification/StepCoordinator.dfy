/** The transfer client's coordination of steps and bypass substeps.

    The main thread opens a step, drains the substeps that came early, and flushes the step; the
    bypass thread delivers substeps at any time. Each atomic section of either thread is one
    transition, so a run of the transition system is one interleaving of the two threads. */
module StepCoordinator {
  import opened Wrappers

  datatype Substep = Substep(stepId: nat, subId: nat)

  /** The state guarded by the coordination lock. */
  datatype Shared = Shared(coordStepId: nat, guarded: Option<nat>, pending: seq<Substep>)

  /** Where a substep's transfers go: kept for a later step, attached to an open step, or sent
      as a step of their own whose data is ready. */
  datatype Action = Postpone | Attach(step: nat) | NewFreeze

  // ---------------------------------------------------------------------------
  // The sections under the lock
  // ---------------------------------------------------------------------------

  /** What a substep finds under the lock; None when its assertions fail. */
  function Decide(c: Shared, s: Substep): Option<(Shared, Action)> {
    if s.stepId < c.coordStepId then Some((c, NewFreeze))
    else if s.stepId > c.coordStepId then
      if c.pending != [] && !Before(c.pending[|c.pending| - 1], s) then None
      else Some((c.(pending := c.pending + [s]), Postpone))
    else if c.guarded.Some? then Some((c, Attach(c.guarded.value)))
    else Some((c, NewFreeze))
  }

  /** Substeps of one step in increasing order. */
  predicate Before(a: Substep, b: Substep) {
    a.stepId == b.stepId && a.subId < b.subId
  }

  /** Opening a step: it becomes the current one and takes over the substeps that came early. */
  function Open(c: Shared, id: nat): Option<(Shared, seq<Substep>)> {
    if c.guarded.Some? then None else Some((Shared(id, Some(id), []), c.pending))
  }

  /** Flushing a step: later substeps of it find no open step. */
  function Release(c: Shared): Option<Shared> {
    if c.pending != [] then None else Some(c.(guarded := None))
  }

  /** Substeps of step id in increasing order, above a bound. */
  ghost predicate InOrder(subs: seq<Substep>, id: nat, above: nat) {
    && (forall i :: 0 <= i < |subs| ==> subs[i].stepId == id && subs[i].subId > above)
    && (forall i, j :: 0 <= i < j < |subs| ==> subs[i].subId < subs[j].subId)
  }

  class Client {
    var coordStepId: nat
    var lastStepGuard: Option<nat>
    var pendingStepMetas: seq<Substep>

    constructor ()
      ensures View() == Shared(0, None, [])
    {
      coordStepId, lastStepGuard, pendingStepMetas := 0, None, [];
    }

    function View(): Shared
      reads this
    {
      Shared(coordStepId, lastStepGuard, pendingStepMetas)
    }

    /** The locked section of a bypass substep. */
    method StartSendSubstep(stepId: nat, subId: nat) returns (action: Action)
      requires Decide(View(), Substep(stepId, subId)).Some?
      modifies this
      ensures Decide(old(View()), Substep(stepId, subId)) == Some((View(), action))
    {
      if stepId < coordStepId {
        action := NewFreeze;
      } else if stepId > coordStepId {
        if pendingStepMetas != [] {
          var meta := pendingStepMetas[|pendingStepMetas| - 1];
          assert meta.stepId == stepId;
          assert meta.subId < subId;
        }
        pendingStepMetas := pendingStepMetas + [Substep(stepId, subId)];
        action := Postpone;
      } else if lastStepGuard.Some? {
        action := Attach(lastStepGuard.value);
      } else {
        action := NewFreeze;
      }
    }

    /** The locked section of opening a step. */
    method StartSend(stepId: nat) returns (early: seq<Substep>)
      requires Open(View(), stepId).Some?
      modifies this
      ensures Open(old(View()), stepId) == Some((View(), early))
    {
      assert lastStepGuard.None?;
      coordStepId := stepId;
      lastStepGuard := Some(stepId);
      early := pendingStepMetas;
      pendingStepMetas := [];
    }

    /** Submits the early substeps of a step that was just opened, in order. */
    method SubmitEarly(stepId: nat, early: seq<Substep>) returns (submitted: seq<Routed>)
      requires InOrder(early, stepId, 0)
      ensures |submitted| == |early|
      ensures forall i :: 0 <= i < |early| ==> submitted[i] == Routed(early[i], Attach(early[i].stepId))
    {
      submitted := [];
      var subId := 0;
      for i := 0 to |early|
        invariant |submitted| == i && forall k :: i <= k < |early| ==> subId < early[k].subId
        invariant forall k :: 0 <= k < i ==> submitted[k] == Routed(early[k], Attach(early[k].stepId))
      {
        assert early[i].stepId == stepId;
        assert subId < early[i].subId;
        subId := early[i].subId;
        submitted := submitted + [Routed(early[i], Attach(stepId))];
      }
    }

    /** The locked section of flushing a step. */
    method FlushSend()
      requires Release(View()).Some?
      modifies this
      ensures Release(old(View())) == Some(View())
    {
      assert pendingStepMetas == [];
      lastStepGuard := None;
    }
  }

  // ---------------------------------------------------------------------------
  // Both threads
  // ---------------------------------------------------------------------------

  /** The main thread: idle, about to take the lock for a step, submitting the early substeps,
      running the step, or about to release it after its data is ready. */
  datatype Main =
    | Idle
    | Created(id: nat)
    | Draining(id: nat, early: seq<Substep>, subId: nat)
    | Running(id: nat)
    | Flushing(id: nat)

  /** A substep whose destination is decided, and one handed to the target manager. */
  datatype Routed = Routed(sub: Substep, action: Action)

  datatype Sys = Failed | Sys(
    shared: Shared, main: Main, flushed: nat,
    arrived: seq<Substep>, decided: seq<Routed>, submitted: seq<Routed>)

  datatype Event =
    | Create
    | Lock
    | Drain
    | Ready
    | Flush
    | Arrive(i: nat, sub: Substep)
    | Submit(i: nat)

  const START := Sys(Shared(0, None, []), Idle, 0, [], [], [])

  /** The ids of the steps the main thread opens: positive and increasing. */
  ghost predicate Steps(steps: seq<nat>) {
    && (forall i :: 0 <= i < |steps| ==> steps[i] > 0)
    && (forall i, j :: 0 <= i < j < |steps| ==> steps[i] < steps[j])
  }

  /** What the threads and the scheduler can do next. A substep belongs to one of the steps the
      main thread opens, comes after the flush of the step before that one, and after the earlier
      substeps of its own step. */
  ghost predicate Legal(steps: seq<nat>, y: Sys, e: Event)
    requires y.Sys?
  {
    match e
    case Create => y.main.Idle? && y.flushed < |steps|
    case Lock => y.main.Created?
    case Drain => y.main.Draining?
    case Ready => y.main.Running?
    case Flush => y.main.Flushing?
    case Arrive(i, sub) =>
      && i < |steps| && i <= y.flushed && sub.stepId == steps[i] && sub.subId > 0
      && forall a :: a in y.arrived && a.stepId == sub.stepId ==> a.subId < sub.subId
    case Submit(i) => i < |y.decided|
  }

  function Next(steps: seq<nat>, y: Sys, e: Event): Sys
    requires y.Sys?
    requires e.Create? ==> y.flushed < |steps|
    requires e.Lock? ==> y.main.Created?
    requires e.Drain? ==> y.main.Draining?
    requires e.Ready? ==> y.main.Running?
    requires e.Submit? ==> e.i < |y.decided|
  {
    match e
    case Create => y.(main := Created(steps[y.flushed]))
    case Lock =>
      var c := Open(y.shared, y.main.id);
      if c.None? then Failed else y.(shared := c.value.0, main := Draining(y.main.id, c.value.1, 0))
    case Drain =>
      if y.main.early == [] then y.(main := Running(y.main.id))
      else
        var s := y.main.early[0];
        if s.stepId != y.main.id || y.main.subId >= s.subId then Failed
        else y.(main := Draining(y.main.id, y.main.early[1..], s.subId),
                submitted := y.submitted + [Routed(s, Attach(y.main.id))])
    case Ready => y.(main := Flushing(y.main.id))
    case Flush =>
      var c := Release(y.shared);
      if c.None? then Failed else y.(shared := c.value, main := Idle, flushed := y.flushed + 1)
    case Arrive(_, s) =>
      var d := Decide(y.shared, s);
      if d.None? then Failed
      else
        y.(shared := d.value.0, arrived := y.arrived + [s],
           decided := if d.value.1.Postpone? then y.decided else y.decided + [Routed(s, d.value.1)])
    case Submit(i) =>
      y.(decided := y.decided[..i] + y.decided[i + 1..], submitted := y.submitted + [y.decided[i]])
  }

  ghost function Run(steps: seq<nat>, es: seq<Event>): Option<Sys> {
    if es == [] then Some(START)
    else
      var p := Run(steps, es[..|es| - 1]);
      var e := es[|es| - 1];
      if p.None? || p.value.Failed? then p
      else if !Legal(steps, p.value, e) then None
      else Some(Next(steps, p.value, e))
  }

  // ---------------------------------------------------------------------------
  // The invariant
  // ---------------------------------------------------------------------------

  /** How many steps have taken the lock. */
  function Locked(y: Sys): nat
    requires y.Sys?
  {
    if y.main.Idle? || y.main.Created? then y.flushed else y.flushed + 1
  }

  ghost predicate MainInv(steps: seq<nat>, y: Sys)
    requires y.Sys?
  {
    && y.flushed <= Locked(y) <= |steps|
    && (!y.main.Idle? ==> y.flushed < |steps| && y.main.id == steps[y.flushed])
    && y.shared.guarded == (if Locked(y) == y.flushed then None else Some(y.main.id))
    && y.shared.coordStepId == if Locked(y) == 0 then 0 else steps[Locked(y) - 1]
  }

  function Early(y: Sys): seq<Substep>
    requires y.Sys?
  {
    if y.main.Draining? then y.main.early else []
  }

  ghost predicate PendingInv(steps: seq<nat>, y: Sys)
    requires y.Sys?
  {
    && (y.shared.pending != [] ==>
          && Locked(y) == y.flushed < |steps|
          && InOrder(y.shared.pending, steps[y.flushed], 0))
    && (y.main.Draining? ==> InOrder(y.main.early, y.main.id, y.main.subId))
  }

  ghost predicate FlushedStep(steps: seq<nat>, flushed: nat, id: nat) {
    exists i :: 0 <= i < flushed && i < |steps| && steps[i] == id
  }

  /** A substep is attached only to the step with its own id, and sent as a step of its own only
      after that step was flushed. */
  ghost predicate WellRouted(steps: seq<nat>, flushed: nat, r: Routed) {
    match r.action
    case Postpone => false
    case Attach(step) => step == r.sub.stepId
    case NewFreeze => FlushedStep(steps, flushed, r.sub.stepId)
  }

  ghost predicate RoutedInv(steps: seq<nat>, y: Sys)
    requires y.Sys?
  {
    && (forall i :: 0 <= i < |y.decided| ==> WellRouted(steps, y.flushed, y.decided[i]))
    && (forall i :: 0 <= i < |y.submitted| ==> WellRouted(steps, y.flushed, y.submitted[i]))
  }

  function Times(subs: seq<Substep>, s: Substep): nat {
    if subs == [] then 0 else Times(subs[..|subs| - 1], s) + if subs[|subs| - 1] == s then 1 else 0
  }

  function TimesRouted(rs: seq<Routed>, s: Substep): nat {
    if rs == [] then 0 else TimesRouted(rs[..|rs| - 1], s) + if rs[|rs| - 1].sub == s then 1 else 0
  }

  /** Where a substep that arrived is now: waiting for its step, being drained, decided or submitted. */
  function Places(y: Sys, s: Substep): nat
    requires y.Sys?
  {
    Times(y.shared.pending, s) + Times(Early(y), s) + TimesRouted(y.decided, s) + TimesRouted(y.submitted, s)
  }

  ghost predicate PlacesInv(y: Sys)
    requires y.Sys?
  {
    forall s :: Places(y, s) == (if s in y.arrived then 1 else 0)
  }

  ghost predicate Inv(steps: seq<nat>, y: Sys) {
    y.Sys? && MainInv(steps, y) && PendingInv(steps, y) && RoutedInv(steps, y) && PlacesInv(y)
  }

  lemma TimesPush(subs: seq<Substep>, a: Substep, s: Substep)
    ensures Times(subs + [a], s) == Times(subs, s) + if a == s then 1 else 0
  {
    assert (subs + [a])[..|subs|] == subs;
  }

  lemma {:induction false} TimesFirst(subs: seq<Substep>, s: Substep)
    requires subs != []
    ensures Times(subs, s) == (if subs[0] == s then 1 else 0) + Times(subs[1..], s)
  {
    var n := |subs| - 1;
    if n > 0 {
      assert subs[1..][..n - 1] == subs[..n][1..];
      TimesFirst(subs[..n], s);
    }
  }

  lemma {:induction false} TimesIn(subs: seq<Substep>, i: nat)
    requires i < |subs|
    ensures Times(subs, subs[i]) > 0
  {
    if i < |subs| - 1 {
      TimesIn(subs[..|subs| - 1], i);
    }
  }

  lemma RoutedPush(rs: seq<Routed>, r: Routed, s: Substep)
    ensures TimesRouted(rs + [r], s) == TimesRouted(rs, s) + if r.sub == s then 1 else 0
  {
    assert (rs + [r])[..|rs|] == rs;
  }

  lemma {:induction false} RoutedRemove(rs: seq<Routed>, i: nat, s: Substep)
    requires i < |rs|
    ensures TimesRouted(rs, s) == TimesRouted(rs[..i] + rs[i + 1..], s) + if rs[i].sub == s then 1 else 0
  {
    var n := |rs| - 1;
    if i == n {
      assert rs[..i] + rs[i + 1..] == rs[..n];
    } else {
      RoutedRemove(rs[..n], i, s);
      assert rs[..i] + rs[i + 1..] == (rs[..n][..i] + rs[..n][i + 1..]) + [rs[n]];
      RoutedPush(rs[..n][..i] + rs[..n][i + 1..], rs[n], s);
    }
  }

  lemma LaterFlushed(steps: seq<nat>, flushed: nat, r: Routed)
    requires WellRouted(steps, flushed, r)
    ensures WellRouted(steps, flushed + 1, r)
  {
    if r.action.NewFreeze? {
      var i :| 0 <= i < flushed && i < |steps| && steps[i] == r.sub.stepId;
      assert i < flushed + 1;
    }
  }

  lemma CreateKeeps(steps: seq<nat>, y: Sys)
    requires Steps(steps) && Inv(steps, y) && Legal(steps, y, Create)
    ensures Inv(steps, Next(steps, y, Create))
  {
    var z := Next(steps, y, Create);
    assert forall s :: Places(z, s) == Places(y, s);
  }

  lemma LockKeeps(steps: seq<nat>, y: Sys)
    requires Steps(steps) && Inv(steps, y) && Legal(steps, y, Lock)
    ensures Inv(steps, Next(steps, y, Lock))
  {
    var z := Next(steps, y, Lock);
    assert forall s :: Places(z, s) == Places(y, s);
  }

  lemma DrainKeeps(steps: seq<nat>, y: Sys)
    requires Steps(steps) && Inv(steps, y) && Legal(steps, y, Drain)
    ensures Inv(steps, Next(steps, y, Drain))
  {
    hide Times, TimesRouted;
    var z := Next(steps, y, Drain);
    if y.main.early == [] {
      assert forall s :: Places(z, s) == Places(y, s);
    } else {
      forall s ensures Places(z, s) == Places(y, s) {
        TimesFirst(y.main.early, s);
        RoutedPush(y.submitted, Routed(y.main.early[0], Attach(y.main.id)), s);
      }
    }
  }

  lemma ReadyKeeps(steps: seq<nat>, y: Sys)
    requires Steps(steps) && Inv(steps, y) && Legal(steps, y, Ready)
    ensures Inv(steps, Next(steps, y, Ready))
  {
    var z := Next(steps, y, Ready);
    assert forall s :: Places(z, s) == Places(y, s);
  }

  lemma FlushKeeps(steps: seq<nat>, y: Sys)
    requires Steps(steps) && Inv(steps, y) && Legal(steps, y, Flush)
    ensures Inv(steps, Next(steps, y, Flush))
  {
    hide WellRouted;
    var z := Next(steps, y, Flush);
    assert forall s :: Places(z, s) == Places(y, s);
    forall i | 0 <= i < |z.decided| ensures WellRouted(steps, z.flushed, z.decided[i]) {
      LaterFlushed(steps, y.flushed, y.decided[i]);
    }
    forall i | 0 <= i < |z.submitted| ensures WellRouted(steps, z.flushed, z.submitted[i]) {
      LaterFlushed(steps, y.flushed, y.submitted[i]);
    }
  }

  lemma SubmitKeeps(steps: seq<nat>, y: Sys, i: nat)
    requires Steps(steps) && Inv(steps, y) && Legal(steps, y, Submit(i))
    ensures Inv(steps, Next(steps, y, Submit(i)))
  {
    hide WellRouted;
    var z := Next(steps, y, Submit(i));
    forall s ensures Places(z, s) == Places(y, s) {
      RoutedRemove(y.decided, i, s);
      RoutedPush(y.submitted, y.decided[i], s);
    }
  }

  lemma PendingArrived(y: Sys, i: nat)
    requires y.Sys? && PlacesInv(y) && i < |y.shared.pending|
    ensures y.shared.pending[i] in y.arrived
  {
    TimesIn(y.shared.pending, i);
    assert Places(y, y.shared.pending[i]) > 0;
  }

  /** A substep is decided as its step's phase demands: early ones wait, those of the open step
      join it, late ones go on their own. */
  lemma Decision(steps: seq<nat>, y: Sys, i: nat, s: Substep)
    requires Steps(steps) && Inv(steps, y) && Legal(steps, y, Arrive(i, s))
    ensures Decide(y.shared, s) ==
            if i < y.flushed then Some((y.shared, NewFreeze))
            else if Locked(y) == y.flushed then Some((y.shared.(pending := y.shared.pending + [s]), Postpone))
            else Some((y.shared, Attach(s.stepId)))
    ensures Locked(y) == y.flushed == i && y.shared.pending != [] ==>
              y.shared.pending[|y.shared.pending| - 1].subId < s.subId
  {
    if y.shared.pending != [] {
      PendingArrived(y, |y.shared.pending| - 1);
    }
    if i < y.flushed && i < Locked(y) - 1 {
      assert steps[i] < steps[Locked(y) - 1];
    }
    if i == y.flushed && i == Locked(y) && i > 0 {
      assert steps[i - 1] < steps[i];
    }
  }

  lemma ArrivePlaces(steps: seq<nat>, y: Sys, i: nat, s: Substep)
    requires Steps(steps) && Inv(steps, y) && Legal(steps, y, Arrive(i, s))
    ensures Next(steps, y, Arrive(i, s)).Sys? && PlacesInv(Next(steps, y, Arrive(i, s)))
  {
    hide Times, TimesRouted, MainInv, PendingInv, RoutedInv, Decide;
    Decision(steps, y, i, s);
    var z := Next(steps, y, Arrive(i, s));
    assert s !in y.arrived;
    forall x ensures Places(z, x) == if x in z.arrived then 1 else 0 {
      TimesPush(y.shared.pending, s, x);
      RoutedPush(y.decided, Routed(s, Decide(y.shared, s).value.1), x);
    }
  }

  lemma ArriveKeeps(steps: seq<nat>, y: Sys, i: nat, s: Substep)
    requires Steps(steps) && Inv(steps, y) && Legal(steps, y, Arrive(i, s))
    ensures Inv(steps, Next(steps, y, Arrive(i, s)))
  {
    hide PlacesInv, Decide;
    Decision(steps, y, i, s);
    ArrivePlaces(steps, y, i, s);
    if i < y.flushed {
      assert FlushedStep(steps, y.flushed, s.stepId);
    }
  }

  lemma StepKeeps(steps: seq<nat>, y: Sys, e: Event)
    requires Steps(steps) && Inv(steps, y) && Legal(steps, y, e)
    ensures Inv(steps, Next(steps, y, e))
  {
    hide Inv, Steps;
    match e
    case Create => CreateKeeps(steps, y);
    case Lock => LockKeeps(steps, y);
    case Drain => DrainKeeps(steps, y);
    case Ready => ReadyKeeps(steps, y);
    case Flush => FlushKeeps(steps, y);
    case Arrive(i, s) => ArriveKeeps(steps, y, i, s);
    case Submit(i) => SubmitKeeps(steps, y, i);
  }

  lemma {:induction false} RunKeeps(steps: seq<nat>, es: seq<Event>)
    requires Steps(steps) && Run(steps, es).Some?
    ensures Inv(steps, Run(steps, es).value)
  {
    if es != [] {
      RunKeeps(steps, es[..|es| - 1]);
      StepKeeps(steps, Run(steps, es[..|es| - 1]).value, es[|es| - 1]);
    }
  }

  // ---------------------------------------------------------------------------
  // What every interleaving guarantees
  // ---------------------------------------------------------------------------

  /** In every interleaving no assertion of the client fails, every substep is in exactly one
      place, so it is submitted at most once, and it is attached only to the step with its own id
      or sent on its own after that step was flushed. Waiting substeps all belong to the step
      that is opened next, in increasing order. */
  lemma EveryInterleaving(steps: seq<nat>, es: seq<Event>)
    requires Steps(steps) && Run(steps, es).Some?
    ensures Run(steps, es).value.Sys?
    ensures var y := Run(steps, es).value;
            && (forall s :: s in y.arrived ==> Places(y, s) == 1)
            && (forall s :: TimesRouted(y.submitted, s) <= if s in y.arrived then 1 else 0)
            && (forall i :: 0 <= i < |y.submitted| ==> WellRouted(steps, y.flushed, y.submitted[i]))
            && (y.shared.pending != [] ==>
                  && y.flushed < |steps| && y.shared.coordStepId < steps[y.flushed]
                  && InOrder(y.shared.pending, steps[y.flushed], 0))
  {
    hide Times, TimesRouted, WellRouted;
    RunKeeps(steps, es);
    var y := Run(steps, es).value;
    forall s ensures TimesRouted(y.submitted, s) <= if s in y.arrived then 1 else 0 {
      assert Places(y, s) == if s in y.arrived then 1 else 0;
    }
    if y.shared.pending != [] && y.flushed > 0 {
      assert steps[y.flushed - 1] < steps[y.flushed];
    }
  }

  /** Once both threads are at rest and the next step is open or nothing waits for it, every
      substep that arrived has been submitted exactly once. */
  lemma EverySubstepIsSubmitted(steps: seq<nat>, es: seq<Event>)
    requires Steps(steps) && Run(steps, es).Some? && Run(steps, es).value.Sys?
    requires var y := Run(steps, es).value;
             y.decided == [] && (y.main.Running? || y.main.Flushing? || (y.main.Idle? && y.shared.pending == []))
    ensures var y := Run(steps, es).value;
            forall s :: TimesRouted(y.submitted, s) == if s in y.arrived then 1 else 0
  {
    RunKeeps(steps, es);
    var y := Run(steps, es).value;
    forall s ensures TimesRouted(y.submitted, s) == if s in y.arrived then 1 else 0 {
      assert Places(y, s) == if s in y.arrived then 1 else 0;
    }
  }
}
