/** The prefill backend's per-request send protocol: which token ranges are sent, and when.

    A request is seen by the backend through events: its chunks are scheduled, the decode side
    announces its destination, a bypass step replays the current chunk, the request finishes or
    its save is aborted. `Step` is what the backend does with one event; a failed assertion of
    the backend is the outcome `Broken`. */
module SendProtocol {
  import opened Arith
  import opened Wrappers

  /** What is fixed about a request: its prompt length, an optional bound on the tokens this
      instance computes, and whether decoding happens elsewhere. */
  datatype Request = Request(prompt: nat, maxComputed: Option<nat>, remoteDecode: bool) {
    function LastToken(): nat {
      if maxComputed.Some? then maxComputed.value else prompt
    }

    /** Nothing is left to send: the decode side already holds all this instance computes. */
    predicate Covered(cached: nat) {
      maxComputed.Some? && maxComputed.value <= cached
    }
  }

  /** A transfer of tokens [seen, seen + count); an opening transfer carries the block tables. */
  datatype Transfer = Transfer(opening: bool, seen: nat, count: nat, last: bool, freeze: bool) {
    function End(): nat { seen + count }
  }

  /** Destination known for a request; untouched until its first transfer. */
  datatype Destination = Destination(cached: nat, max: nat, untouched: bool)

  /** Entry of a request among those whose last token was scheduled before their destination was
      known: absent, still running, or finished. */
  datatype Waiting = Absent | Running | Over

  /** Everything the backend remembers about one request. */
  datatype View = View(dest: Option<Destination>, waiting: Waiting, inFlight: Option<Transfer>)

  /** What happens to a request. An announced destination finds it still known to the scheduler
      (`live`) or not, and with or without a save set up. */
  datatype Event =
    | Stop
    | AbortSave
    | Info(cached: nat, limit: nat, numTokens: nat, migration: bool, live: bool, hasSave: bool)
    | Finish
    | Schedule(isNew: bool, computed: nat, count: nat)
    | Replay(isNew: bool, computed: nat, count: nat)

  /** `replay` tells that the request may be replayed in the same bypass step. */
  datatype Outcome = Broken | Done(view: View, out: seq<Transfer>, replay: bool)

  // ---------------------------------------------------------------------------
  // What the backend does with one event
  // ---------------------------------------------------------------------------

  function Whole(d: Destination): Transfer
    requires d.cached <= d.max
  {
    Transfer(true, d.cached, d.max - d.cached, true, true)
  }

  /** Records a transfer among the open ones. */
  function Emit(v: View, m: Transfer): Outcome {
    if m.opening != v.inFlight.None? then Broken
    else Done(v.(inFlight := if m.last then None else Some(m)), [m], false)
  }

  function StepStop(q: Request, v: View): Outcome {
    if v.dest.Some? || !v.waiting.Absent? then Broken
    else Done(v.(waiting := if q.remoteDecode then Over else Absent), [], false)
  }

  function StepAbortSave(v: View): Outcome {
    if v.dest.Some? && !v.dest.value.untouched then Done(v, [], false)
    else if v.inFlight.Some? then Broken
    else Done(v.(waiting := Absent), [], false)
  }

  function Limit(q: Request, e: Event): nat
    requires e.Info?
  {
    var m := Min(e.numTokens, e.limit);
    if q.maxComputed.Some? then Min(m, q.maxComputed.value) else m
  }

  function StepInfo(q: Request, v: View, e: Event): Outcome
    requires e.Info? && e.cached < e.limit && e.cached < e.numTokens
  {
    if v.waiting.Absent? && !e.live then Done(v, [], false)
    else if v.dest.Some? then Broken
    else
      var d := Destination(e.cached, Limit(q, e), false);
      if q.Covered(e.cached) then Done(v.(dest := Some(d), waiting := Absent), [], false)
      else if !v.waiting.Over? then
        if e.migration then if e.hasSave then Broken else Done(v.(dest := Some(d)), [Whole(d)], false)
        else Done(v.(dest := Some(d.(untouched := true))), [], true)
      else if e.limit > q.prompt then Done(v.(dest := Some(d)), [], false)
      else Done(v.(dest := Some(d), waiting := Absent), [Whole(d)], false)
  }

  function StepFinish(v: View): Outcome {
    if v.inFlight.Some? then
      var m := v.inFlight.value;
      if !v.waiting.Absent? || m.last || m.count == 0 then Broken
      else Done(v.(inFlight := None), [Transfer(false, m.End(), 0, true, false)], false)
    else if v.waiting.Absent? then Done(v, [], false)
    else if v.waiting.Over? then if v.dest.Some? then Broken else Done(v, [], false)
    else if v.dest.None? then Done(v.(waiting := Over), [], false)
    else if !v.dest.value.untouched then Done(v.(waiting := Absent), [], false)
    else
      var d := v.dest.value;
      if d.max < d.cached then Broken
      else Done(v.(dest := Some(d.(untouched := false)), waiting := Absent), [Whole(d)], false)
  }

  function StepSchedule(q: Request, v: View, isNew: bool, computed: nat, count: nat, replay: bool): Outcome {
    var end := computed + count;
    var reqLast := end >= q.LastToken();
    if v.dest.None? then
      if replay then Broken
      else if q.remoteDecode && reqLast && v.waiting.Absent? then Done(v.(waiting := Running), [], false)
      else Done(v, [], false)
    else
      var d := v.dest.value;
      if end <= d.cached then Done(v, [], false)
      else
        var last := end >= d.max;
        if (reqLast && !last) || (replay && !d.untouched) then Broken
        else if replay && !last then Done(v, [], false)
        else
          var stop := if last then d.max else end;
          if isNew || d.untouched || computed <= d.cached then
            if stop < d.cached then Broken
            else Emit(v.(dest := Some(d.(untouched := false))), Transfer(true, d.cached, stop - d.cached, last, false))
          else if computed < d.max then
            if replay then Broken
            else Emit(v, Transfer(false, computed, stop - computed, last, false))
          else Done(v, [], false)
  }

  function Step(q: Request, v: View, e: Event): Outcome
    requires e.Info? ==> e.cached < e.limit && e.cached < e.numTokens
  {
    match e
    case Stop => StepStop(q, v)
    case AbortSave => StepAbortSave(v)
    case Info(_, _, _, _, _, _) => StepInfo(q, v, e)
    case Finish => StepFinish(v)
    case Schedule(f, c, n) => StepSchedule(q, v, f, c, n, false)
    case Replay(f, c, n) => StepSchedule(q, v, f, c, n, true)
  }

  // ---------------------------------------------------------------------------
  // What the engine promises
  // ---------------------------------------------------------------------------

  /** Progress of the request in the engine. `parked`: it will not be scheduled again. */
  datatype Engine = Engine(
    progress: nat, started: bool, parked: bool, finished: bool, saveAborted: bool,
    chunk: Option<(bool, nat, nat)>)

  const NEW_ENGINE := Engine(0, false, false, false, false, None)

  function Advance(q: Request, g: Engine, e: Event): Engine {
    match e
    case Stop => g.(started := true, parked := true, progress := q.LastToken())
    case AbortSave => g.(saveAborted := true)
    case Info(_, _, _, migration, _, _) => if migration then g.(parked := true) else g
    case Finish => g.(parked := true, finished := true)
    case Schedule(f, c, n) => g.(started := true, progress := c + n, chunk := Some((f, c, n)))
    case Replay(_, _, _) => g
  }

  datatype State = Failed | State(view: View, sent: seq<Transfer>, engine: Engine, replay: bool)

  const START := State(View(None, Absent, None), [], NEW_ENGINE, false)

  /** Which events the engine and the decode side can produce in a state.
      - A request is stopped without computing only before it was ever scheduled, and only if
        its computed tokens are bounded.
      - The decode side announces a destination once. It asks for no more than is computed here,
        and of a request that is over for no more than its prompt, unless it migrates a suspended
        request without a save. A finished request is no longer known to the scheduler.
      - Chunks are contiguous, never exceed the request's bound, and end when it is parked.
      - A bypass step replays the latest chunk, and only of a request announced in that step. */
  ghost predicate Legal(q: Request, s: State, e: Event)
    requires s.State?
  {
    var g := s.engine;
    match e
    case Stop => q.maxComputed.Some? && !g.started && !g.parked && s.view.dest.None?
    case AbortSave => true
    case Info(cached, limit, numTokens, migration, live, hasSave) =>
      && cached < limit && cached < numTokens && q.prompt <= numTokens
      && (live ==> !g.finished)
      && (live || !s.view.waiting.Absent? ==> s.view.dest.None?)
      && (if migration then live && !g.parked && !hasSave
          else if s.view.waiting.Over? then limit <= q.prompt || q.Covered(cached)
          else Limit(q, e) <= q.LastToken())
    case Finish => !g.finished
    case Schedule(f, c, n) =>
      && !g.parked && n > 0 && f == !g.started && (!f ==> c == g.progress)
      && (q.maxComputed.Some? ==> c + n <= q.maxComputed.value)
    case Replay(f, c, n) => !g.parked && s.replay && g.chunk == Some((f, c, n))
  }

  ghost function Next(q: Request, s: State, e: Event): State
    requires s.State? && Legal(q, s, e)
  {
    match Step(q, s.view, e)
    case Broken => Failed
    case Done(v, out, r) => State(v, s.sent + out, Advance(q, s.engine, e), r || (e.Info? && s.replay))
  }

  /** The state after the events es; None when the engine could not have produced them. */
  ghost function Run(q: Request, es: seq<Event>): Option<State> {
    if es == [] then Some(START)
    else
      var p := Run(q, es[..|es| - 1]);
      var e := es[|es| - 1];
      if p.None? || p.value.Failed? then p
      else if !Legal(q, p.value, e) then None
      else Some(Next(q, p.value, e))
  }

  // ---------------------------------------------------------------------------
  // The receiver's view: transfers form one contiguous chain
  // ---------------------------------------------------------------------------

  /** The receiving request info: where the next transfer must start, and whether it is closed. */
  datatype Receiver = Receiver(next: Option<nat>, closed: bool)

  /** None when the receiver's assertions fail. */
  function Receive(ms: seq<Transfer>): Option<Receiver> {
    if ms == [] then Some(Receiver(None, false))
    else
      var r := Receive(ms[..|ms| - 1]);
      var m := ms[|ms| - 1];
      if r.None? || r.value.closed || (r.value.next.Some? && r.value.next.value != m.seen) then None
      else Some(Receiver(Some(m.End()), m.last))
  }

  /** An accepted list whose opening transfer, and only that one, comes first. */
  ghost predicate Chain(ms: seq<Transfer>) {
    && Receive(ms).Some?
    && forall i :: 0 <= i < |ms| ==> (ms[i].opening <==> i == 0)
  }

  ghost predicate Closed(ms: seq<Transfer>) {
    ms != [] && ms[|ms| - 1].last
  }

  /** The chain covers [cached, max): it starts at cached, is contiguous and ends at max. */
  ghost predicate Covers(ms: seq<Transfer>, cached: nat, max: nat) {
    Chain(ms) && Closed(ms) && ms[0].seen == cached && ms[|ms| - 1].End() == max
  }

  // ---------------------------------------------------------------------------
  // The invariant
  // ---------------------------------------------------------------------------

  ghost predicate Silent(s: State)
    requires s.State?
  {
    s.sent == [] && s.view.inFlight.None?
  }

  ghost predicate OpenInv(q: Request, s: State, d: Destination)
    requires s.State? && s.view.inFlight.Some?
  {
    var m := s.view.inFlight.value;
    && s.sent != [] && s.sent[|s.sent| - 1] == m && s.sent[0].seen == d.cached
    && m.count > 0 && !m.last && d.cached < m.End() == s.engine.progress < d.max
    && s.view.waiting.Absent? && !s.engine.parked && s.engine.started
  }

  ghost predicate ClosedInv(q: Request, s: State, d: Destination)
    requires s.State?
  {
    && (s.engine.parked || s.engine.progress >= d.max || q.Covered(d.cached))
    && (s.sent == [] ==> q.Covered(d.cached))
    && (s.sent != [] ==>
          var m := s.sent[|s.sent| - 1];
          && m.last && s.sent[0].seen == d.cached
          && if m.count > 0 then m.End() == d.max else s.engine.progress < d.max <= q.LastToken())
  }

  ghost predicate DestInv(q: Request, s: State, d: Destination)
    requires s.State?
  {
    && (q.Covered(d.cached) ==> !d.untouched && Silent(s))
    && (!q.Covered(d.cached) ==> d.cached < d.max)
    && if d.untouched then Silent(s) && d.max <= q.LastToken() && (s.engine.parked ==> s.view.waiting.Absent?)
       else if s.view.inFlight.Some? then OpenInv(q, s, d) && d.max <= q.LastToken()
       else ClosedInv(q, s, d)
  }

  ghost predicate WaitingInv(q: Request, s: State)
    requires s.State?
  {
    var v := s.view;
    && (!v.waiting.Absent? ==> q.remoteDecode && s.engine.progress >= q.LastToken())
    && (v.waiting.Over? ==> s.engine.parked && v.dest.None?)
    && (v.waiting.Running? && s.engine.parked ==> v.dest.Some? && !v.dest.value.untouched)
    && (s.engine.started && v.waiting.Absent? && q.remoteDecode && !s.engine.saveAborted && (v.dest.None? || v.dest.value.untouched) ==>
          s.engine.progress < q.LastToken())
  }

  ghost predicate EngineInv(q: Request, s: State)
    requires s.State?
  {
    var g := s.engine;
    && (g.finished ==> g.parked)
    && (g.chunk.Some? ==> g.started && g.chunk.value.1 + g.chunk.value.2 == g.progress && g.chunk.value.2 > 0)
    && (q.maxComputed.Some? ==> g.progress <= q.maxComputed.value)
    && (s.replay ==> s.view.dest.Some? && s.view.dest.value.untouched)
    && (!g.started && !g.parked ==> g.progress == 0 && s.view.waiting.Absent?)
  }

  ghost predicate Inv(q: Request, s: State) {
    && s.State? && Chain(s.sent) && EngineInv(q, s) && WaitingInv(q, s)
    && if s.view.dest.None? then Silent(s) else DestInv(q, s, s.view.dest.value)
  }

  lemma ReceiveLast(ms: seq<Transfer>, m: Transfer)
    ensures Receive(ms + [m]) ==
            (var r := Receive(ms);
             if r.None? || r.value.closed || (r.value.next.Some? && r.value.next.value != m.seen) then None
             else Some(Receiver(Some(m.End()), m.last)))
  {
    assert (ms + [m])[..|ms|] == ms;
  }

  lemma ReceivedEnd(ms: seq<Transfer>)
    requires Receive(ms).Some? && ms != []
    ensures Receive(ms) == Some(Receiver(Some(ms[|ms| - 1].End()), ms[|ms| - 1].last))
  {
  }

  /** An opening transfer starts a chain, a delta that begins at its end extends an open one. */
  lemma Extend(ms: seq<Transfer>, m: Transfer)
    requires Chain(ms) && (m.opening <==> ms == [])
    requires ms != [] ==> !ms[|ms| - 1].last && m.seen == ms[|ms| - 1].End()
    ensures Chain(ms + [m])
  {
    ReceiveLast(ms, m);
    if ms != [] { ReceivedEnd(ms); }
  }

  lemma StopKeeps(q: Request, s: State)
    requires Inv(q, s) && Legal(q, s, Stop)
    ensures Inv(q, Next(q, s, Stop))
  {
    hide Chain, Receive;
    assert s.sent + [] == s.sent;
  }

  lemma AbortSaveKeeps(q: Request, s: State)
    requires Inv(q, s)
    ensures Inv(q, Next(q, s, AbortSave))
  {
    hide Chain, Receive;
    assert s.sent + [] == s.sent;
  }

  lemma InfoKeeps(q: Request, s: State, e: Event)
    requires e.Info? && Inv(q, s) && Legal(q, s, e)
    ensures Inv(q, Next(q, s, e))
  {
    hide Chain, Receive;
    if s.view.waiting.Absent? && !e.live {
      assert s.sent + [] == s.sent;
    } else if q.Covered(e.cached) {
      assert s.sent + [] == s.sent;
    } else if s.view.waiting.Over? {
      DeliverWaiting(q, s, e);
    } else if e.migration {
      Migrate(q, s, e);
    } else {
      assert s.sent + [] == s.sent;
    }
  }

  lemma DeliverWaiting(q: Request, s: State, e: Event)
    requires e.Info? && Inv(q, s) && Legal(q, s, e)
    requires !q.Covered(e.cached) && s.view.waiting.Over?
    ensures Inv(q, Next(q, s, e))
  {
    hide Chain, Receive;
    var m := Whole(Destination(e.cached, Limit(q, e), false));
    Extend(s.sent, m);
    assert Next(q, s, e).sent == [m];
  }

  lemma Migrate(q: Request, s: State, e: Event)
    requires e.Info? && Inv(q, s) && Legal(q, s, e)
    requires !q.Covered(e.cached) && !s.view.waiting.Over? && e.migration
    ensures Inv(q, Next(q, s, e))
  {
    hide Chain, Receive;
    var m := Whole(Destination(e.cached, Limit(q, e), false));
    Extend(s.sent, m);
    assert Next(q, s, e).sent == [m];
  }

  lemma FinishKeeps(q: Request, s: State)
    requires Inv(q, s) && Legal(q, s, Finish)
    ensures Inv(q, Next(q, s, Finish))
  {
    hide Chain, Receive;
    if s.view.inFlight.Some? {
      CloseOpenChain(q, s);
    } else if s.view.waiting.Running? && s.view.dest.Some? && s.view.dest.value.untouched {
      DeliverAtFinish(q, s);
    } else {
      assert s.sent + [] == s.sent;
    }
  }

  lemma CloseOpenChain(q: Request, s: State)
    requires Inv(q, s) && Legal(q, s, Finish) && s.view.inFlight.Some?
    ensures Inv(q, Next(q, s, Finish))
  {
    hide Chain, Receive;
    Extend(s.sent, Transfer(false, s.view.inFlight.value.End(), 0, true, false));
  }

  lemma DeliverAtFinish(q: Request, s: State)
    requires Inv(q, s) && Legal(q, s, Finish) && s.view.inFlight.None?
    requires s.view.waiting.Running? && s.view.dest.Some? && s.view.dest.value.untouched
    ensures Inv(q, Next(q, s, Finish))
  {
    hide Chain, Receive;
    var m := Whole(s.view.dest.value);
    Extend(s.sent, m);
    assert Next(q, s, Finish).sent == [m];
  }

  lemma ScheduleKeeps(q: Request, s: State, e: Event)
    requires e.Schedule? && Inv(q, s) && Legal(q, s, e)
    ensures Inv(q, Next(q, s, e))
  {
    hide Chain, Receive;
    if s.view.dest.None? {
      assert s.sent + [] == s.sent;
    } else if s.view.dest.value.untouched {
      OpenChain(q, s, e);
    } else if s.view.inFlight.Some? {
      ExtendChain(q, s, e);
    } else {
      PastTheLimit(q, s, e);
    }
  }

  lemma OpenChain(q: Request, s: State, e: Event)
    requires e.Schedule? && Inv(q, s) && Legal(q, s, e) && s.view.dest.Some? && s.view.dest.value.untouched
    ensures Inv(q, Next(q, s, e))
  {
    hide Chain, Receive;
    var d := s.view.dest.value;
    var end := e.computed + e.count;
    if end <= d.cached {
      assert s.sent + [] == s.sent;
    } else {
      var m := Transfer(true, d.cached, Min(end, d.max) - d.cached, end >= d.max, false);
      Extend(s.sent, m);
      assert Next(q, s, e).sent == [m];
    }
  }

  lemma ExtendChain(q: Request, s: State, e: Event)
    requires e.Schedule? && Inv(q, s) && Legal(q, s, e) && s.view.inFlight.Some? && s.view.dest.Some?
    ensures Inv(q, Next(q, s, e))
  {
    hide Chain, Receive;
    var d := s.view.dest.value;
    var end := e.computed + e.count;
    Extend(s.sent, Transfer(false, e.computed, Min(end, d.max) - e.computed, end >= d.max, false));
  }

  lemma PastTheLimit(q: Request, s: State, e: Event)
    requires e.Schedule? && Inv(q, s) && Legal(q, s, e) && s.view.inFlight.None?
    requires s.view.dest.Some? && !s.view.dest.value.untouched
    ensures Inv(q, Next(q, s, e))
  {
    hide Chain, Receive;
    assert s.sent + [] == s.sent;
  }

  lemma ReplayKeeps(q: Request, s: State, e: Event)
    requires e.Replay? && Inv(q, s) && Legal(q, s, e)
    ensures Inv(q, Next(q, s, e))
  {
    hide Chain, Receive;
    var d := s.view.dest.value;
    if e.computed + e.count >= d.max {
      var m := Transfer(true, d.cached, d.max - d.cached, true, false);
      Extend(s.sent, m);
      assert Next(q, s, e).sent == [m];
    } else {
      assert s.sent + [] == s.sent;
    }
  }

  /** Every event the engine can produce keeps the invariant; in particular no assertion fails. */
  lemma StepKeeps(q: Request, s: State, e: Event)
    requires Inv(q, s) && Legal(q, s, e)
    ensures Inv(q, Next(q, s, e))
  {
    hide *;
    match e
    case Stop => StopKeeps(q, s);
    case AbortSave => AbortSaveKeeps(q, s);
    case Info(_, _, _, _, _, _) => InfoKeeps(q, s, e);
    case Finish => FinishKeeps(q, s);
    case Schedule(_, _, _) => ScheduleKeeps(q, s, e);
    case Replay(_, _, _) => ReplayKeeps(q, s, e);
  }

  lemma {:induction false} RunKeeps(q: Request, es: seq<Event>)
    requires Run(q, es).Some?
    ensures Inv(q, Run(q, es).value)
  {
    hide Inv, Legal, Next;
    if es == [] {
      StartHolds(q);
    } else {
      var p := Run(q, es[..|es| - 1]);
      RunKeeps(q, es[..|es| - 1]);
      InvAlive(q, p.value);
      StepKeeps(q, p.value, es[|es| - 1]);
    }
  }

  lemma StartHolds(q: Request)
    ensures Inv(q, START)
  {
  }

  lemma InvAlive(q: Request, s: State)
    requires Inv(q, s)
    ensures s.State?
  {
  }

  // ---------------------------------------------------------------------------
  // What every run guarantees
  // ---------------------------------------------------------------------------

  /** How far the decode side may ask: the least of the request's tokens, the announced limit and the
      tokens computed here. */
  ghost function Asked(q: Request, e: Event): (m: nat)
    requires e.Info?
    ensures m <= e.numTokens && m <= e.limit && (q.maxComputed.Some? ==> m <= q.maxComputed.value)
    ensures m in [e.numTokens, e.limit] + if q.maxComputed.Some? then [q.maxComputed.value] else []
  {
    if q.maxComputed.Some? && q.maxComputed.value <= e.numTokens && q.maxComputed.value <= e.limit then q.maxComputed.value
    else if e.limit <= e.numTokens then e.limit
    else e.numTokens
  }

  /** Event i announces a destination for a request that the scheduler or the backend still knows. */
  ghost predicate Accepted(q: Request, es: seq<Event>, i: nat) {
    && i < |es| && es[i].Info? && Run(q, es[..i]).Some? && Run(q, es[..i]).value.State?
    && (es[i].live || !Run(q, es[..i]).value.view.waiting.Absent?)
  }

  ghost predicate DestOf(q: Request, s: State, e: Event) {
    e.Info? && s.State? && s.view.dest.Some? && s.view.dest.value.cached == e.cached && s.view.dest.value.max == Asked(q, e)
  }

  /** An accepted announcement fixes the destination, and nothing else does. */
  lemma DestKept(q: Request, s: State, e: Event)
    requires Inv(q, s) && Legal(q, s, e) && Next(q, s, e).State?
    ensures s.view.dest.Some? ==>
              && Next(q, s, e).view.dest.Some? && Next(q, s, e).view.dest.value.cached == s.view.dest.value.cached
              && Next(q, s, e).view.dest.value.max == s.view.dest.value.max
    ensures e.Info? && (e.live || !s.view.waiting.Absent?) ==> DestOf(q, Next(q, s, e), e)
    ensures s.view.dest.None? && !(e.Info? && (e.live || !s.view.waiting.Absent?)) ==> Next(q, s, e).view.dest.None?
  {
    hide Chain, DestInv, WaitingInv, EngineInv;
  }

  /** Whatever follows an accepted announcement, the destination starts at the tokens it names as held and
      ends where it asked. */
  lemma {:induction false} AnnouncedOnce(q: Request, es: seq<Event>, i: nat)
    requires Run(q, es).Some? && Accepted(q, es, i)
    ensures DestOf(q, Run(q, es).value, es[i])
  {
    hide Inv, Legal, Next, DestOf;
    RunKeeps(q, es);
    var n := |es| - 1;
    RunKeeps(q, es[..n]);
    InvAlive(q, Run(q, es[..n]).value);
    InvAlive(q, Run(q, es).value);
    DestKept(q, Run(q, es[..n]).value, es[n]);
    if i < n {
      assert es[..n][..i] == es[..i];
      AnnouncedOnce(q, es[..n], i);
      SameDest(q, Run(q, es[..n]).value, es[n], es[i]);
    }
  }

  lemma SameDest(q: Request, s: State, e: Event, first: Event)
    requires Inv(q, s) && Legal(q, s, e) && Next(q, s, e).State? && DestOf(q, s, first)
    ensures DestOf(q, Next(q, s, e), first)
  {
    hide Inv, Legal, Next;
    DestKept(q, s, e);
  }

  /** A destination comes from an accepted announcement. */
  lemma {:induction false} DestWasAnnounced(q: Request, es: seq<Event>) returns (i: nat)
    requires Run(q, es).Some? && Run(q, es).value.State? && Run(q, es).value.view.dest.Some?
    ensures Accepted(q, es, i)
  {
    hide Inv, Legal, Next;
    var n := |es| - 1;
    RunKeeps(q, es[..n]);
    InvAlive(q, Run(q, es[..n]).value);
    DestKept(q, Run(q, es[..n]).value, es[n]);
    if Run(q, es[..n]).value.view.dest.Some? {
      i := DestWasAnnounced(q, es[..n]);
      assert es[..n][..i] == es[..i];
    } else {
      i := n;
    }
  }

  /** Over every run no assertion of the backend fails and the transfers of a request are accepted
      by its receiver as one chain: nothing is sent before a destination was accepted, the opening
      transfer starts at the tokens the decode side holds, every other one starts where the previous
      ended, and nothing follows a last one. A closed chain ends where the decode side asked, unless
      the request stopped before computing it. */
  lemma EveryRunIsAChain(q: Request, es: seq<Event>)
    requires Run(q, es).Some?
    ensures Run(q, es).value.State?
    ensures var s := Run(q, es).value;
            && Chain(s.sent)
            && (s.sent != [] ==> exists i: nat :: Accepted(q, es, i))
            && forall i: nat :: Accepted(q, es, i) ==>
                 && (s.sent != [] ==> s.sent[0].seen == es[i].cached)
                 && (Closed(s.sent) ==>
                       || Covers(s.sent, es[i].cached, Asked(q, es[i]))
                       || (s.sent[|s.sent| - 1].count == 0 && s.engine.progress < Asked(q, es[i])))
  {
    RunKeeps(q, es);
    var s := Run(q, es).value;
    if s.sent != [] {
      var i := DestWasAnnounced(q, es);
    }
    forall i: nat | Accepted(q, es, i) ensures DestOf(q, s, es[i]) {
      AnnouncedOnce(q, es, i);
    }
  }

  /** The request was computed to its last token and finished. */
  ghost predicate Ended(q: Request, g: Engine) {
    && g.started && g.finished
    && (if q.maxComputed.Some? then g.progress >= q.maxComputed.value else g.progress >= q.prompt)
  }

  /** Event i announces a destination that lacks some of the request's tokens. */
  ghost predicate Lacking(q: Request, es: seq<Event>, i: nat) {
    Accepted(q, es, i) && (q.maxComputed.Some? ==> es[i].cached < q.maxComputed.value)
  }

  /** Whenever a request has computed its last token and finished, and its destination is known, then
      its chain covers exactly what the decode side lacks and asked for if and only if the destination
      was touched, in whatever order the chunks, the destination, the bypass steps and the finish came;
      otherwise nothing was sent. The destination of a request that decodes elsewhere and whose save
      was not aborted is always touched. */
  lemma FinishedIsDelivered(q: Request, es: seq<Event>, i: nat)
    requires Run(q, es).Some? && Run(q, es).value.State?
    requires Ended(q, Run(q, es).value.engine) && Lacking(q, es, i)
    ensures var s := Run(q, es).value;
            && s.view.dest.Some?
            && (Covers(s.sent, es[i].cached, Asked(q, es[i])) <==> !s.view.dest.value.untouched)
            && (s.view.dest.value.untouched ==> s.sent == [])
            && (q.remoteDecode && !s.engine.saveAborted ==> !s.view.dest.value.untouched)
  {
    RunKeeps(q, es);
    AnnouncedOnce(q, es, i);
  }

  /** The first event announces the destination: the prefill call of the decode side hands the
      request over together with it. */
  ghost predicate HandedOver(q: Request, es: seq<Event>) {
    && es != [] && es[0].Info? && es[0].live && !es[0].migration
    && (q.maxComputed.Some? ==> es[0].cached < q.maxComputed.value)
  }

  lemma {:induction false} HandedOverKeeps(q: Request, es: seq<Event>)
    requires HandedOver(q, es) && Run(q, es).Some?
    ensures Run(q, es).value.State? && Lacking(q, es, 0)
    ensures var s := Run(q, es).value;
            && s.view.dest.Some? && s.view.dest.value.cached == es[0].cached
            && (s.view.dest.value.untouched ==> s.engine.progress < q.LastToken())
  {
    RunKeeps(q, es);
    assert es[..0] == [];
    var n := |es| - 1;
    if n > 0 {
      RunKeeps(q, es[..n]);
      HandedOverKeeps(q, es[..n]);
      StaysTouched(q, Run(q, es[..n]).value, es[n]);
    }
  }

  /** The chunk with the last token touches a known destination. */
  lemma StaysTouched(q: Request, s: State, e: Event)
    requires Inv(q, s) && Legal(q, s, e) && s.view.dest.Some? && !q.Covered(s.view.dest.value.cached)
    requires s.view.dest.value.untouched ==> s.engine.progress < q.LastToken()
    ensures var t := Next(q, s, e);
            t.State? ==>
              && t.view.dest.Some? && t.view.dest.value.cached == s.view.dest.value.cached
              && (t.view.dest.value.untouched ==> t.engine.progress < q.LastToken())
  {
    hide Chain;
  }

  /** A request that the decode side hands over with its destination is sent completely once it is
      computed and finished, wherever it decodes and whatever happens to its save. */
  lemma HandedOverIsDelivered(q: Request, es: seq<Event>)
    requires HandedOver(q, es) && Run(q, es).Some? && Run(q, es).value.State?
    requires Ended(q, Run(q, es).value.engine)
    ensures es[0].Info? && Covers(Run(q, es).value.sent, es[0].cached, Asked(q, es[0]))
  {
    hide Covers, Run, Inv;
    HandedOverKeeps(q, es);
    FinishedIsDelivered(q, es, 0);
  }

  /** A request that does not decode elsewhere, announced after its last chunk, is never sent. */
  lemma LateInfoIsNotDelivered()
    ensures var q, es := Request(4, None, false), [Schedule(true, 0, 4), Info(0, 4, 4, false, true, false), Finish];
            var r := Run(q, es);
            r.Some? && r.value.State? && Ended(q, r.value.engine) && Lacking(q, es, 1) && r.value.sent == []
  {
    var q, es := Request(4, None, false), [Schedule(true, 0, 4), Info(0, 4, 4, false, true, false), Finish];
    assert es[..2][..1][..0] == [] && es[..2][..1] == es[..1];
    assert Run(q, es[..1]) == Some(Next(q, START, es[0]));
    assert Run(q, es[..2]) == Some(Next(q, Run(q, es[..1]).value, es[1]));
    assert Run(q, es) == Some(Next(q, Run(q, es[..2]).value, es[2]));
  }

  /** A prompt of four with one generated token, announced with limit four after its finish: four tokens
      are sent. */
  lemma LimitBelowTokens()
    ensures var q, es := Request(4, None, true), [Schedule(true, 0, 4), Finish, Info(0, 4, 5, false, false, false)];
            Run(q, es).Some? && Run(q, es).value.State? && Run(q, es).value.sent == [Transfer(true, 0, 4, true, true)]
  {
    var q, es := Request(4, None, true), [Schedule(true, 0, 4), Finish, Info(0, 4, 5, false, false, false)];
    assert es[..2][..1][..0] == [] && es[..2][..1] == es[..1];
    assert Run(q, es[..1]) == Some(Next(q, START, es[0]));
    assert Run(q, es[..2]) == Some(Next(q, Run(q, es[..1]).value, es[1]));
    assert Run(q, es) == Some(Next(q, Run(q, es[..2]).value, es[2]));
  }

  /** A receiver that accepts a list got contiguous ranges, with no last transfer before the end. */
  lemma {:induction false} ChainIsContiguous(ms: seq<Transfer>, i: nat)
    requires Chain(ms) && i + 1 < |ms|
    ensures ms[i + 1].seen == ms[i].End() && !ms[i].last && !ms[i + 1].opening
  {
    assert ms == ms[..|ms| - 1] + [ms[|ms| - 1]];
    ReceiveLast(ms[..|ms| - 1], ms[|ms| - 1]);
    if i + 2 == |ms| {
      ReceivedEnd(ms[..|ms| - 1]);
    } else {
      ChainIsContiguous(ms[..|ms| - 1], i);
    }
  }

  /** After a last transfer no event of the engine makes the backend send anything. */
  lemma NothingAfterLast(q: Request, s: State, e: Event)
    requires Inv(q, s) && Legal(q, s, e) && Closed(s.sent)
    ensures Next(q, s, e).State? && Next(q, s, e).sent == s.sent
  {
    hide *;
    ChainOf(q, s);
    StepKeeps(q, s, e);
    SentGrows(q, s, e);
    var t := Next(q, s, e);
    ClosedIs(s.sent);
    if t.sent != s.sent {
      ChainOf(q, t);
      assert s.sent[|s.sent| - 1] == t.sent[|s.sent| - 1];
      ChainIsContiguous(t.sent, |s.sent| - 1);
    }
  }

  lemma ClosedIs(ms: seq<Transfer>)
    ensures Closed(ms) <==> ms != [] && ms[|ms| - 1].last
  {
  }

  lemma ChainOf(q: Request, s: State)
    requires Inv(q, s)
    ensures s.State? && Chain(s.sent)
  {
  }

  /** One event sends at most one transfer, and outside scheduling only a last one. */
  lemma SentGrows(q: Request, s: State, e: Event)
    requires Inv(q, s) && Legal(q, s, e)
    ensures Next(q, s, e).State?
    ensures var t := Next(q, s, e).sent;
            || t == s.sent
            || (|t| == |s.sent| + 1 && t[..|s.sent|] == s.sent && (e.Schedule? || e.Replay? || Closed(t)))
  {
    hide *;
    StepKeeps(q, s, e);
    InvAlive(q, s);
    InvAlive(q, Next(q, s, e));
    NextSends(q, s, e);
    StepSends(q, s.view, e);
    var t := Next(q, s, e).sent;
    assert s.sent + [] == s.sent;
    ClosedIs(t);
  }

  lemma NextSends(q: Request, s: State, e: Event)
    requires s.State? && Legal(q, s, e) && Next(q, s, e).State?
    ensures e.Info? ==> e.cached < e.limit && e.cached < e.numTokens
    ensures Step(q, s.view, e).Done? && Next(q, s, e).sent == s.sent + Step(q, s.view, e).out
  {
  }

  lemma StepSends(q: Request, v: View, e: Event)
    requires e.Info? ==> e.cached < e.limit && e.cached < e.numTokens
    requires Step(q, v, e).Done?
    ensures var out := Step(q, v, e).out;
            out == [] || (|out| == 1 && (e.Schedule? || e.Replay? || out[0].last))
  {
  }

  /** Exactly when a destination announced for a request that is over leaves its waiting entry
      behind, so that the request's finish, if still to come, fails an assertion: the announced
      limit exceeds the prompt. */
  lemma FinishAfterInfo(q: Request, v: View, e: Event)
    requires e.Info? && e.cached < e.limit && e.cached < e.numTokens
    requires v.waiting.Over? && v.dest.None? && v.inFlight.None?
    ensures Step(q, v, e).Done?
    ensures Step(q, Step(q, v, e).view, Finish).Broken? <==> e.limit > q.prompt && !q.Covered(e.cached)
  {
  }

  /** A prompt of four tokens of which three are computed elsewhere, announced with limit five. */
  lemma LimitAbovePromptFails()
    ensures var q := Request(4, Some(3), true);
            && Legal(q, START, Stop)
            && var v := Step(q, START.view, Stop).view;
               var w := Step(q, v, Info(0, 5, 4, false, true, true)).view;
               Step(q, w, Finish) == Broken
  {
  }

  /** Which chunks fail the backend's last-token assertion after a destination was announced for a
      request that is not over: those that reach the request's last token but not the limit. No
      chunk does if and only if the limit is within the last token, or one token is asked for. */
  lemma ChunkBelowLimit(q: Request, v: View, e: Event)
    requires e.Info? && e.cached < e.limit && e.cached < e.numTokens && !e.migration && e.live
    requires !v.waiting.Over? && v.dest.None? && v.inFlight.None? && !q.Covered(e.cached)
    ensures Step(q, v, e).Done?
    ensures forall isNew: bool, c: nat, n: nat :: Step(q, Step(q, v, e).view, Schedule(isNew, c, n)).Broken? <==>
              e.cached < c + n && q.LastToken() <= c + n < Limit(q, e)
    ensures (forall isNew: bool, c: nat, n: nat :: !Step(q, Step(q, v, e).view, Schedule(isNew, c, n)).Broken?) <==>
              Limit(q, e) <= q.LastToken() || Limit(q, e) == e.cached + 1
  {
    var w := Step(q, v, e).view;
    if Limit(q, e) > q.LastToken() && Limit(q, e) != e.cached + 1 {
      assert Step(q, w, Schedule(true, 0, Limit(q, e) - 1)).Broken?;
    }
  }

  /** A prompt of four tokens announced with limit six: a chunk of five reaches the last token but
      not the limit. */
  lemma LimitAboveLastTokenFails()
    ensures var q := Request(4, None, true);
            var v := Step(q, START.view, Info(0, 6, 6, false, true, true)).view;
            Step(q, v, Schedule(true, 0, 5)) == Broken
  {
  }

  /** A migration breaks the backend exactly when the request already has a save. */
  lemma MigrationWithSave(q: Request, v: View, e: Event)
    requires e.Info? && e.cached < e.limit && e.cached < e.numTokens && e.migration && e.live
    requires !v.waiting.Over? && v.dest.None? && !q.Covered(e.cached)
    ensures Step(q, v, e).Broken? <==> e.hasSave
  {
  }
}
