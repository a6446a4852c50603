/** The scheduler side of the prefill backend: the tables it keeps for all requests and the steps
    that update them. Every method is proved against the per-request protocol of SendProtocol:
    the tables hold exactly what the protocol prescribes for the events handed to the backend,
    and what is sent for a request is exactly what the protocol sends. */
module PBackend {
  import opened SendProtocol
  import opened Wrappers

  type ReqId = string

  type Item = (ReqId, Event)

  type Sent = (ReqId, Transfer)

  function EventsOf(log: seq<Item>, r: ReqId): seq<Event> {
    if log == [] then []
    else
      var es := EventsOf(log[..|log| - 1], r);
      var i := log[|log| - 1];
      if i.0 == r then es + [i.1] else es
  }

  function TransfersOf(log: seq<Sent>, r: ReqId): seq<Transfer> {
    if log == [] then []
    else
      var ms := TransfersOf(log[..|log| - 1], r);
      var i := log[|log| - 1];
      if i.0 == r then ms + [i.1] else ms
  }

  function Tag(r: ReqId, ms: seq<Transfer>): seq<Sent> {
    seq(|ms|, i requires 0 <= i < |ms| => (r, ms[i]))
  }

  lemma EventsPush(log: seq<Item>, r: ReqId, e: Event, x: ReqId)
    ensures EventsOf(log + [(r, e)], x) == if x == r then EventsOf(log, x) + [e] else EventsOf(log, x)
  {
    assert (log + [(r, e)])[..|log|] == log;
  }

  lemma {:induction false} EventsConcat(a: seq<Item>, b: seq<Item>, x: ReqId)
    ensures EventsOf(a + b, x) == EventsOf(a, x) + EventsOf(b, x)
  {
    if b == [] {
      assert a + b == a;
    } else {
      assert (a + b)[..|a + b| - 1] == a + b[..|b| - 1];
      EventsConcat(a, b[..|b| - 1], x);
    }
  }

  lemma {:induction false} TransfersConcat(a: seq<Sent>, b: seq<Sent>, x: ReqId)
    ensures TransfersOf(a + b, x) == TransfersOf(a, x) + TransfersOf(b, x)
  {
    if b == [] {
      assert a + b == a;
    } else {
      assert (a + b)[..|a + b| - 1] == a + b[..|b| - 1];
      TransfersConcat(a, b[..|b| - 1], x);
    }
  }

  lemma {:induction false} TagOf(r: ReqId, ms: seq<Transfer>, x: ReqId)
    ensures TransfersOf(Tag(r, ms), x) == if x == r then ms else []
  {
    if ms != [] {
      assert Tag(r, ms)[..|ms| - 1] == Tag(r, ms[..|ms| - 1]);
      TagOf(r, ms[..|ms| - 1], x);
      assert ms[..|ms| - 1] + [ms[|ms| - 1]] == ms;
    }
  }

  lemma {:induction false} RunPrefix(q: Request, es: seq<Event>, k: nat)
    requires k <= |es| && Run(q, es).Some?
    ensures Run(q, es[..k]).Some?
  {
    hide Legal, Next;
    if k < |es| {
      RunPrefix(q, es[..|es| - 1], k);
      assert es[..|es| - 1][..k] == es[..k];
    } else {
      assert es[..k] == es;
    }
  }

  /** The engine can produce the events of the log. */
  ghost predicate Possible(request: ReqId -> Request, log: seq<Item>) {
    forall r :: Run(request(r), EventsOf(log, r)).Some?
  }

  lemma PossiblePrefix(request: ReqId -> Request, a: seq<Item>, b: seq<Item>)
    requires Possible(request, a + b)
    ensures Possible(request, a)
  {
    hide Run;
    forall r ensures Run(request(r), EventsOf(a, r)).Some? {
      EventsConcat(a, b, r);
      var es := EventsOf(a + b, r);
      RunPrefix(request(r), es, |EventsOf(a, r)|);
      assert es[..|EventsOf(a, r)|] == EventsOf(a, r);
    }
  }

  /** The protocol's state of a request after the events of the log. */
  ghost function StateOf(request: ReqId -> Request, log: seq<Item>, r: ReqId): State
    requires Possible(request, log)
  {
    Run(request(r), EventsOf(log, r)).value
  }

  /** Pushing a possible event runs one protocol step of its request and nothing else. */
  lemma StatePush(request: ReqId -> Request, log: seq<Item>, r: ReqId, e: Event)
    requires Possible(request, log + [(r, e)])
    ensures Possible(request, log)
    ensures var s := StateOf(request, log, r);
            Inv(request(r), s) && Legal(request(r), s, e) && StateOf(request, log + [(r, e)], r) == Next(request(r), s, e)
    ensures Inv(request(r), StateOf(request, log + [(r, e)], r))
    ensures forall x :: x != r ==> StateOf(request, log + [(r, e)], x) == StateOf(request, log, x)
  {
    hide Inv, Legal, Next;
    PossiblePrefix(request, log, [(r, e)]);
    EventsPush(log, r, e, r);
    var es := EventsOf(log, r);
    assert (es + [e])[..|es|] == es;
    RunKeeps(request(r), es);
    InvAlive(request(r), StateOf(request, log, r));
    RunKeeps(request(r), es + [e]);
    forall x | x != r ensures StateOf(request, log + [(r, e)], x) == StateOf(request, log, x) {
      EventsPush(log, r, e, x);
    }
  }

  /** One scheduler output: requests stopped without computing, aborted saves, announced
      destinations, finished requests and scheduled chunks. */
  datatype Input = Input(
    stopped: seq<ReqId>, aborted: seq<ReqId>, infos: seq<Item>, finished: seq<ReqId>, chunks: seq<Item>)
  {
    ghost predicate WellFormed() {
      && AllInfo(infos)
      && (forall i :: 0 <= i < |chunks| ==> chunks[i].1.Schedule?)
    }

    /** The events before scheduling, in the order in which the backend takes them. */
    function Before(): seq<Item> {
      All(stopped, Stop) + All(aborted, AbortSave) + infos + All(finished, Finish)
    }
  }

  ghost predicate AllInfo(items: seq<Item>) {
    forall i :: 0 <= i < |items| ==> items[i].1.Info?
  }

  function All(ids: seq<ReqId>, e: Event): (items: seq<Item>)
    ensures |items| == |ids| && forall i :: 0 <= i < |ids| ==> items[i] == (ids[i], e)
  {
    seq(|ids|, i requires 0 <= i < |ids| => (ids[i], e))
  }

  class Backend {
    const request: ReqId -> Request
    /** Destination of each announced request. */
    var dest: map<ReqId, Destination>
    /** Requests whose last token was scheduled before their destination was known, and whether
        they have finished. */
    var waiting: map<ReqId, bool>
    /** Latest transfer of each open chain. */
    var inFlight: map<ReqId, Transfer>

    /** All events handled and all transfers sent so far. */
    ghost var log: seq<Item>
    ghost var sent: seq<Sent>

    constructor (request: ReqId -> Request)
      ensures Valid() && this.request == request && log == [] && sent == []
    {
      this.request := request;
      dest, waiting, inFlight := map[], map[], map[];
      log, sent := [], [];
    }

    function ViewOf(r: ReqId): View
      reads this`dest, this`waiting, this`inFlight
    {
      View(
        if r in dest then Some(dest[r]) else None,
        if r in waiting then if waiting[r] then Over else Running else Absent,
        if r in inFlight then Some(inFlight[r]) else None)
    }

    ghost predicate Agrees(r: ReqId)
      reads this
      requires Possible(request, log)
    {
      var s := StateOf(request, log, r);
      s.State? && s.view == ViewOf(r) && s.sent == TransfersOf(sent, r)
    }

    ghost predicate Valid()
      reads this
    {
      Possible(request, log) && forall r :: Agrees(r)
    }

    /** Only the view of r may have changed, to v. */
    twostate predicate OnlyView(r: ReqId, v: View)
      reads this
    {
      && log == old(log) && sent == old(sent)
      && ViewOf(r) == v && forall x :: x != r ==> ViewOf(x) == old(ViewOf(x))
    }

    method UpdateInFlight(r: ReqId, m: Transfer)
      requires Emit(ViewOf(r), m).Done?
      modifies this`inFlight
      ensures OnlyView(r, Emit(old(ViewOf(r)), m).view)
    {
      if m.opening {
        assert r !in inFlight;
        if !m.last {
          inFlight := inFlight[r := m];
        }
        return;
      }
      assert r in inFlight;
      if m.last {
        inFlight := inFlight - {r};
        return;
      }
      inFlight := inFlight[r := m];
    }

    method OnStop(r: ReqId)
      requires StepStop(request(r), ViewOf(r)).Done?
      modifies this`waiting
      ensures OnlyView(r, StepStop(request(r), old(ViewOf(r))).view)
    {
      assert r !in dest;
      assert r !in waiting;
      if request(r).remoteDecode {
        waiting := waiting[r := true];
      }
    }

    method OnAbortSave(r: ReqId)
      requires StepAbortSave(ViewOf(r)).Done?
      modifies this`waiting
      ensures OnlyView(r, StepAbortSave(old(ViewOf(r))).view)
    {
      if r in dest && !dest[r].untouched {
        return;
      }
      assert r !in inFlight;
      waiting := waiting - {r};
    }

    method OnInfo(r: ReqId, e: Event) returns (out: seq<Transfer>, replay: bool)
      requires e.Info? && e.cached < e.limit && e.cached < e.numTokens
      requires StepInfo(request(r), ViewOf(r), e).Done?
      modifies this`dest, this`waiting
      ensures OnlyView(r, StepInfo(request(r), old(ViewOf(r)), e).view)
      ensures StepInfo(request(r), old(ViewOf(r)), e) == Done(ViewOf(r), out, replay)
    {
      out, replay := [], false;
      if r !in waiting && !e.live {
        return;
      }
      assert r !in dest;
      var d := Destination(e.cached, Limit(request(r), e), false);
      dest := dest[r := d];
      if request(r).Covered(e.cached) {
        waiting := waiting - {r};
        return;
      }
      if r !in waiting || !waiting[r] {
        if e.migration {
          var setUp := !e.hasSave;
          assert setUp;
          out := [Whole(d)];
        } else {
          dest := dest[r := d.(untouched := true)];
          replay := true;
        }
        return;
      }
      if e.limit > request(r).prompt {
        return;
      }
      waiting := waiting - {r};
      out := [Whole(d)];
    }

    method OnFinish(r: ReqId) returns (out: seq<Transfer>)
      requires StepFinish(ViewOf(r)).Done?
      modifies this`dest, this`waiting, this`inFlight
      ensures OnlyView(r, StepFinish(old(ViewOf(r))).view)
      ensures out == StepFinish(old(ViewOf(r))).out
    {
      out := [];
      if r in inFlight {
        var m := inFlight[r];
        inFlight := inFlight - {r};
        assert r !in waiting;
        assert !m.last && m.count > 0;
        out := [Transfer(false, m.End(), 0, true, false)];
        return;
      }
      if r !in waiting {
        return;
      }
      if waiting[r] {
        assert r !in dest;
        return;
      }
      waiting := waiting[r := true];
      if r !in dest {
        return;
      }
      waiting := waiting - {r};
      if !dest[r].untouched {
        return;
      }
      out := [Whole(dest[r])];
      dest := dest[r := dest[r].(untouched := false)];
    }

    /** A request scheduled for the first time. */
    method OnScheduleNew(r: ReqId, computed: nat, count: nat, replay: bool) returns (out: seq<Transfer>)
      requires StepSchedule(request(r), ViewOf(r), true, computed, count, replay).Done?
      modifies this`dest, this`waiting, this`inFlight
      ensures OnlyView(r, StepSchedule(request(r), old(ViewOf(r)), true, computed, count, replay).view)
      ensures out == StepSchedule(request(r), old(ViewOf(r)), true, computed, count, replay).out
    {
      out := [];
      var end := computed + count;
      var reqLast := end >= request(r).LastToken();
      if r !in dest {
        assert !replay;
        AddWaiting(r, reqLast);
        return;
      }
      var d := dest[r];
      if end <= d.cached {
        return;
      }
      var last := end >= d.max;
      assert reqLast ==> last;
      if replay {
        assert d.untouched;
        if !last {
          return;
        }
      }
      dest := dest[r := d.(untouched := false)];
      if last {
        end := d.max;
      }
      var m := Transfer(true, d.cached, end - d.cached, last, false);
      UpdateInFlight(r, m);
      out := [m];
    }

    /** A request scheduled again. */
    method OnScheduleCached(r: ReqId, computed: nat, count: nat, replay: bool) returns (out: seq<Transfer>)
      requires StepSchedule(request(r), ViewOf(r), false, computed, count, replay).Done?
      modifies this`dest, this`waiting, this`inFlight
      ensures OnlyView(r, StepSchedule(request(r), old(ViewOf(r)), false, computed, count, replay).view)
      ensures out == StepSchedule(request(r), old(ViewOf(r)), false, computed, count, replay).out
    {
      out := [];
      var seen := computed;
      var end := seen + count;
      var reqLast := end >= request(r).LastToken();
      if r !in dest {
        assert !replay;
        AddWaiting(r, reqLast);
        return;
      }
      var d := dest[r];
      if end <= d.cached {
        return;
      }
      var last := end >= d.max;
      assert reqLast ==> last;
      if replay {
        assert d.untouched;
        if !last {
          return;
        }
      }
      if last {
        end := d.max;
      }
      if d.untouched {
        seen := 0;
      }
      if seen <= d.cached {
        dest := dest[r := d.(untouched := false)];
        var m := Transfer(true, d.cached, end - d.cached, last, false);
        UpdateInFlight(r, m);
        out := [m];
      } else if seen < d.max {
        assert !replay && !d.untouched;
        var m := Transfer(false, seen, end - seen, last, false);
        UpdateInFlight(r, m);
        out := [m];
      }
    }

    method AddWaiting(r: ReqId, last: bool)
      modifies this`waiting
      ensures OnlyView(r, old(ViewOf(r)).(waiting :=
                if request(r).remoteDecode && last && r !in old(waiting) then Running else old(ViewOf(r)).waiting))
    {
      if !request(r).remoteDecode || !last || r in waiting {
        return;
      }
      waiting := waiting[r := false];
    }

    method Apply(r: ReqId, e: Event) returns (out: seq<Transfer>, replay: bool)
      requires e.Info? ==> e.cached < e.limit && e.cached < e.numTokens
      requires Step(request(r), ViewOf(r), e).Done?
      modifies this`dest, this`waiting, this`inFlight
      ensures OnlyView(r, Step(request(r), old(ViewOf(r)), e).view)
      ensures Step(request(r), old(ViewOf(r)), e) == Done(ViewOf(r), out, replay)
      ensures e.Stop? || e.AbortSave? ==> out == []
    {
      hide StepStop, StepAbortSave, StepInfo, StepFinish, StepSchedule;
      out, replay := [], false;
      match e
      case Stop => OnStop(r); StopOutcome(request(r), old(ViewOf(r)));
      case AbortSave => OnAbortSave(r); AbortOutcome(old(ViewOf(r)));
      case Info(_, _, _, _, _, _) => out, replay := OnInfo(r, e);
      case Finish => out := OnFinish(r); FinishOutcome(old(ViewOf(r)));
      case Schedule(isNew, c, n) =>
        if isNew { out := OnScheduleNew(r, c, n, false); } else { out := OnScheduleCached(r, c, n, false); }
        ScheduleOutcome(request(r), old(ViewOf(r)), isNew, c, n, false);
      case Replay(isNew, c, n) =>
        if isNew { out := OnScheduleNew(r, c, n, true); } else { out := OnScheduleCached(r, c, n, true); }
        ScheduleOutcome(request(r), old(ViewOf(r)), isNew, c, n, true);
    }

    /** Handles one event of one request; the assertions of the backend hold. */
    method Handle(r: ReqId, e: Event) returns (out: seq<Transfer>, replay: bool)
      requires Valid() && Possible(request, log + [(r, e)])
      modifies this
      ensures Valid() && log == old(log) + [(r, e)] && sent == old(sent) + Tag(r, out)
      ensures e.Stop? || e.AbortSave? ==> out == []
      ensures e.Info? || e.Finish? ==> AllLast(out)
      ensures forall i :: 0 <= i < |out| ==> Fitting(e, out[i])
      ensures var s := StateOf(request, log, r); s.State? && (replay ==> s.replay)
      ensures var s := StateOf(request, old(log), r);
              s.State? && Legal(request(r), s, e) && Step(request(r), s.view, e).Done? && Step(request(r), s.view, e).replay == replay
    {
      hide Step, Run, EventsOf, TransfersOf, Inv, ViewOf, Fitting, Legal;
      StatePush(request, log, r, e);
      var q := request(r);
      InvAlive(q, StateOf(request, log, r));
      NextDone(q, StateOf(request, log, r), e);
      assert Agrees(r);
      OutLast(q, ViewOf(r), e);
      OutFits(q, ViewOf(r), e);
      out, replay := Apply(r, e);
      label applied:
      log := log + [(r, e)];
      sent := sent + Tag(r, out);
      forall x ensures Agrees(x) {
        assert old(Agrees(x));
        TransfersConcat(old(sent), Tag(r, out), x);
        TagOf(r, out, x);
        assert ViewOf(x) == old@applied(ViewOf(x));
      }
    }

    /** Handles a list of events in order; `news` are the requests that may be replayed. */
    method Process(items: seq<Item>) returns (out: seq<Sent>, news: set<ReqId>)
      requires Valid() && Possible(request, log + items)
      modifies this
      ensures Valid() && log == old(log) + items && sent == old(sent) + out
      ensures Quiet(items) ==> out == []
      ensures Closing(items) ==> forall r :: AllLast(TransfersOf(out, r))
      ensures AllInfo(items) ==> ReplayAll(request, log, news) && NewsAre(request, old(log), log, news)
      ensures Quiet(items) ==> SameDests(request, old(log), log)
      ensures (forall i :: 0 <= i < |items| ==> items[i].1.Info?) ==> AllWhole(out)
      ensures (forall i :: 0 <= i < |items| ==> items[i].1.Finish?) ==> AllClosing(out)
      ensures (forall i :: 0 <= i < |items| ==> items[i].1.Schedule? || items[i].1.Replay?) ==> NoneFrozen(out)
    {
      hide Possible, StateOf, Agrees, Fitting, SameDests, NewsAre, Legal, Step;
      NoNews(request, log);
      out, news := [], {};
      assert old(log) + items[..0] == log;
      for i := 0 to |items|
        invariant Valid() && log == old(log) + items[..i] && sent == old(sent) + out
        invariant Possible(request, log)
        invariant Quiet(items) ==> out == []
        invariant Closing(items) ==> forall r :: AllLast(TransfersOf(out, r))
        invariant AllInfo(items) ==> ReplayAll(request, log, news) && NewsAre(request, old(log), log, news)
        invariant Quiet(items) ==> SameDests(request, old(log), log)
        invariant (forall k :: 0 <= k < |items| ==> items[k].1.Info?) ==> AllWhole(out)
        invariant (forall k :: 0 <= k < |items| ==> items[k].1.Finish?) ==> AllClosing(out)
        invariant (forall k :: 0 <= k < |items| ==> items[k].1.Schedule? || items[k].1.Replay?) ==> NoneFrozen(out)
      {
        var (r, e) := items[i];
        assert old(log) + items == log + [(r, e)] + items[i + 1..];
        PossiblePrefix(request, log + [(r, e)], items[i + 1..]);
        if AllInfo(items) {
          KeepsReplay(request, log, r, e, news);
        }
        ghost var before := log;
        var ms, replay := Handle(r, e);
        if AllInfo(items) {
          NewsStep(request, old(log), before, r, e, news, replay);
        }
        if Quiet(items) {
          DestsStep(request, old(log), before, r, e);
        }
        KindsPush(out, r, e, ms);
        if Closing(items) {
          LastPush(out, r, ms);
        }
        out := out + Tag(r, ms);
        assert old(log) + items[..i + 1] == log;
        if replay {
          news := news + {r};
        }
      }
      assert old(log) + items[..|items|] == log;
    }

    /** The steps before scheduling. */
    method BeforeScheduling(input: Input) returns (infoOut: seq<Sent>, finishOut: seq<Sent>, news: set<ReqId>)
      requires Valid() && input.WellFormed() && Possible(request, log + input.Before())
      modifies this
      ensures Valid() && log == old(log) + input.Before() && sent == old(sent) + infoOut + finishOut
      ensures forall r :: AllLast(TransfersOf(infoOut, r)) && AllLast(TransfersOf(finishOut, r))
      ensures forall r :: r in news && r !in input.finished ==>
                StateOf(request, log, r).State? && StateOf(request, log, r).replay
      ensures forall r :: r !in input.finished ==> (r in news <==> Newly(request, old(log), log, r))
      ensures AllWhole(infoOut) && AllClosing(finishOut)
    {
      hide *;
      ValidPossible();
      var a, b, d := All(input.stopped, Stop), All(input.aborted, AbortSave), All(input.finished, Finish);
      Phases(log, input);
      PossiblePrefix(request, log + a + b + input.infos, d);
      PossiblePrefix(request, log + a + b, input.infos);
      PossiblePrefix(request, log + a, b);
      Quieten(input);
      var none, ignored := Process(a);
      ghost var mid := log;
      none, ignored := Process(b);
      ValidPossible();
      ghost var quiet := log;
      infoOut, news := Process(input.infos);
      ghost var announced := log;
      ValidPossible();
      finishOut, ignored := Process(d);
      ValidPossible();
      forall r | r in news && r !in input.finished
        ensures StateOf(request, log, r).State? && StateOf(request, log, r).replay
      {
        ReplayIs(request, announced, news, r);
        StateKept(request, announced, input.finished, Finish, r);
      }
      forall r | r !in input.finished ensures r in news <==> Newly(request, old(log), log, r) {
        NewlySince(request, old(log), mid, quiet, announced, log, news, r, input.finished);
      }
    }

    lemma ValidPossible()
      requires Valid()
      ensures Possible(request, log)
    {
    }

    /** A full step: all phases, then every scheduled chunk. */
    method BuildBackendMeta(input: Input) returns (freeze: seq<Sent>, aborts: seq<Sent>, nonfreeze: seq<Sent>)
      requires Valid() && input.WellFormed() && Possible(request, log + input.Before() + input.chunks)
      modifies this
      ensures Valid() && log == old(log) + input.Before() + input.chunks
      ensures forall r :: TransfersOf(sent, r) == old(TransfersOf(sent, r)) + TransfersOf(freeze + aborts + nonfreeze, r)
      ensures AllWhole(freeze) && AllEnds(aborts) && NoneFrozen(nonfreeze)
    {
      hide *;
      Scheduled(input);
      PossiblePrefix(request, log + input.Before(), input.chunks);
      var infoOut, finishOut, news := BeforeScheduling(input);
      var ignored;
      nonfreeze, ignored := Process(input.chunks);
      freeze, aborts := infoOut + Frozen(finishOut, true), Frozen(finishOut, false);
      KindsSplit(infoOut, finishOut);
      forall r ensures TransfersOf(sent, r) == old(TransfersOf(sent, r)) + TransfersOf(freeze + aborts + nonfreeze, r) {
        SentIsChain(r);
        ListsPerRequest(old(sent), infoOut, finishOut, nonfreeze, r);
      }
    }

    /** A bypass step: all phases, then the chunks of the running step replayed for the requests
        announced in this one. Nothing is replayed when bypass steps are disabled. */
    method BuildSubstepMeta(input: Input, parent: seq<Item>, enabled: bool)
      returns (freeze: seq<Sent>, aborts: seq<Sent>, nonfreeze: seq<Sent>, news: set<ReqId>)
      requires Valid() && input.WellFormed() && Possible(request, log + input.Before())
      requires Replayable(request, log + input.Before(), parent, input.finished)
      modifies this
      ensures Valid() && log == old(log) + input.Before() + Select(parent, news)
      ensures Possible(request, old(log)) && forall i :: 0 <= i < |parent| ==>
                var r, before := parent[i].0, old(log) + input.Before();
                EventsOf(log, r) == EventsOf(before, r) + if enabled && Newly(request, old(log), before, r) then [parent[i].1] else []
      ensures forall r :: TransfersOf(sent, r) == old(TransfersOf(sent, r)) + TransfersOf(freeze + aborts + nonfreeze, r)
      ensures AllWhole(freeze) && AllEnds(aborts) && NoneFrozen(nonfreeze)
    {
      hide *;
      ValidPossible();
      ghost var start := log;
      var infoOut, finishOut;
      infoOut, finishOut, news := BeforeScheduling(input);
      if !enabled {
        news := {};
      }
      SelectPossible(request, log, parent, input.finished, news);
      ghost var before := log;
      forall i | 0 <= i < |parent|
        ensures EventsOf(before + Select(parent, news), parent[i].0)
             == EventsOf(before, parent[i].0) + if enabled && Newly(request, start, before, parent[i].0) then [parent[i].1] else []
      {
        NotFinishing(request, before, parent, input.finished, i);
        SelectAt(parent, news, i);
        EventsConcat(before, Select(parent, news), parent[i].0);
      }
      SelectReplays(request, before, parent, input.finished, news);
      var ignored;
      nonfreeze, ignored := Process(Select(parent, news));
      freeze, aborts := infoOut + Frozen(finishOut, true), Frozen(finishOut, false);
      KindsSplit(infoOut, finishOut);
      forall r ensures TransfersOf(sent, r) == old(TransfersOf(sent, r)) + TransfersOf(freeze + aborts + nonfreeze, r) {
        SentIsChain(r);
        ListsPerRequest(old(sent), infoOut, finishOut, nonfreeze, r);
      }
    }

    /** What the backend has sent for a request is always one chain that starts at the tokens of the
        accepted announcement. Once the request has been computed and finished it covers exactly what
        the decode side lacks and asked for if and only if the destination was touched, which it was if
        the request decodes elsewhere and its save was not aborted. */
    lemma SentIsChain(r: ReqId)
      requires Valid()
      ensures Chain(TransfersOf(sent, r))
      ensures forall i: nat :: Accepted(request(r), EventsOf(log, r), i) ==>
                TransfersOf(sent, r) != [] ==> TransfersOf(sent, r)[0].seen == EventsOf(log, r)[i].cached
      ensures var s := StateOf(request, log, r);
              && s.State?
              && forall i: nat :: Ended(request(r), s.engine) && Lacking(request(r), EventsOf(log, r), i) ==>
                   var e := EventsOf(log, r)[i];
                   && r in dest
                   && (Covers(TransfersOf(sent, r), e.cached, Asked(request(r), e)) <==> !dest[r].untouched)
                   && (request(r).remoteDecode && !s.engine.saveAborted ==> !dest[r].untouched)
    {
      hide Run, Chain, Covers, Ended;
      assert Agrees(r);
      EveryRunIsAChain(request(r), EventsOf(log, r));
      var s := StateOf(request, log, r);
      forall i: nat | Ended(request(r), s.engine) && Lacking(request(r), EventsOf(log, r), i)
        ensures var e := EventsOf(log, r)[i];
                && r in dest
                && (Covers(TransfersOf(sent, r), e.cached, Asked(request(r), e)) <==> !dest[r].untouched)
                && (request(r).remoteDecode && !s.engine.saveAborted ==> !dest[r].untouched)
      {
        FinishedIsDelivered(request(r), EventsOf(log, r), i);
      }
    }
  }

  lemma Phases(log: seq<Item>, input: Input)
    ensures log + input.Before() ==
            log + All(input.stopped, Stop) + All(input.aborted, AbortSave) + input.infos + All(input.finished, Finish)
  {
  }

  // ---------------------------------------------------------------------------
  // The kinds of transfers in a step's lists
  // ---------------------------------------------------------------------------

  /** Both tables and the last token: what the worker asserts of a frozen transfer. */
  predicate WholeKind(m: Transfer) {
    m.opening && m.last && m.freeze
  }

  /** The end of a chain without tokens. */
  predicate EndKind(m: Transfer) {
    !m.opening && m.last && m.count == 0 && !m.freeze
  }

  predicate Fitting(e: Event, m: Transfer) {
    match e
    case Stop => false
    case AbortSave => false
    case Info(_, _, _, _, _, _) => WholeKind(m)
    case Finish => WholeKind(m) || EndKind(m)
    case Schedule(_, _, _) => !m.freeze
    case Replay(_, _, _) => !m.freeze
  }

  ghost predicate AllWhole(out: seq<Sent>) {
    forall i :: 0 <= i < |out| ==> WholeKind(out[i].1)
  }

  ghost predicate AllEnds(out: seq<Sent>) {
    forall i :: 0 <= i < |out| ==> EndKind(out[i].1)
  }

  ghost predicate AllClosing(out: seq<Sent>) {
    forall i :: 0 <= i < |out| ==> WholeKind(out[i].1) || EndKind(out[i].1)
  }

  ghost predicate NoneFrozen(out: seq<Sent>) {
    forall i :: 0 <= i < |out| ==> !out[i].1.freeze
  }

  lemma OutFits(q: Request, v: View, e: Event)
    requires e.Info? ==> e.cached < e.limit && e.cached < e.numTokens
    ensures Step(q, v, e).Done? ==> forall i :: 0 <= i < |Step(q, v, e).out| ==> Fitting(e, Step(q, v, e).out[i])
  {
  }

  lemma KindsPush(out: seq<Sent>, r: ReqId, e: Event, ms: seq<Transfer>)
    requires forall i :: 0 <= i < |ms| ==> Fitting(e, ms[i])
    ensures AllWhole(out) && e.Info? ==> AllWhole(out + Tag(r, ms))
    ensures AllClosing(out) && e.Finish? ==> AllClosing(out + Tag(r, ms))
    ensures NoneFrozen(out) && (e.Schedule? || e.Replay?) ==> NoneFrozen(out + Tag(r, ms))
  {
  }

  lemma {:induction false} FrozenKinds(out: seq<Sent>)
    requires AllClosing(out)
    ensures AllWhole(Frozen(out, true)) && AllEnds(Frozen(out, false))
  {
    if out != [] { FrozenKinds(out[..|out| - 1]); }
  }

  lemma KindsSplit(infoOut: seq<Sent>, finishOut: seq<Sent>)
    requires AllWhole(infoOut) && AllClosing(finishOut)
    ensures AllWhole(infoOut + Frozen(finishOut, true)) && AllEnds(Frozen(finishOut, false))
  {
    hide Frozen, WholeKind;
    FrozenKinds(finishOut);
  }

  lemma Scheduled(input: Input)
    requires input.WellFormed()
    ensures forall i :: 0 <= i < |input.chunks| ==> input.chunks[i].1.Schedule?
  {
  }

  // ---------------------------------------------------------------------------
  // Which requests are replayed
  // ---------------------------------------------------------------------------

  /** Between the two logs the request got a destination that is still untouched. */
  ghost predicate Newly(request: ReqId -> Request, log: seq<Item>, later: seq<Item>, r: ReqId)
    requires Possible(request, log) && Possible(request, later)
  {
    var s, t := StateOf(request, log, r), StateOf(request, later, r);
    s.State? && s.view.dest.None? && t.State? && t.view.dest.Some? && t.view.dest.value.untouched
  }

  ghost predicate NewsAre(request: ReqId -> Request, log: seq<Item>, later: seq<Item>, news: set<ReqId>)
    requires Possible(request, log) && Possible(request, later)
  {
    && (forall r :: r in news <==> Newly(request, log, later, r))
    && (forall r :: StateOf(request, log, r).State? && StateOf(request, later, r).State?)
    && (forall r :: StateOf(request, log, r).view.dest.Some? ==> StateOf(request, later, r).view.dest.Some?)
  }

  ghost predicate SameDests(request: ReqId -> Request, log: seq<Item>, later: seq<Item>)
    requires Possible(request, log) && Possible(request, later)
  {
    forall r :: var s, t := StateOf(request, log, r), StateOf(request, later, r);
                s.State? && t.State? && (s.view.dest.None? <==> t.view.dest.None?)
  }

  lemma NoNews(request: ReqId -> Request, log: seq<Item>)
    requires Possible(request, log)
    ensures NewsAre(request, log, log, {}) && SameDests(request, log, log)
  {
    hide Run, Inv;
    forall r ensures StateOf(request, log, r).State? {
      RunKeeps(request(r), EventsOf(log, r));
      InvAlive(request(r), StateOf(request, log, r));
    }
  }

  /** What one announcement does to the destination, and whether it makes the request replayable. */
  lemma InfoDest(q: Request, s: State, e: Event)
    requires Inv(q, s) && Legal(q, s, e) && Next(q, s, e).State? && e.Info?
    ensures var t := Next(q, s, e);
            && e.cached < e.limit && e.cached < e.numTokens && Step(q, s.view, e).Done?
            && (Step(q, s.view, e).replay <==> s.view.dest.None? && t.view.dest.Some? && t.view.dest.value.untouched)
            && (s.view.dest.Some? ==> t.view.dest == s.view.dest)
  {
    hide Chain, DestInv, EngineInv;
  }

  lemma NewsStep(request: ReqId -> Request, start: seq<Item>, log: seq<Item>, r: ReqId, e: Event, news: set<ReqId>, replay: bool)
    requires Possible(request, start) && Possible(request, log) && Possible(request, log + [(r, e)]) && e.Info?
    requires NewsAre(request, start, log, news)
    requires var s := StateOf(request, log, r);
             s.State? && Legal(request(r), s, e) && Step(request(r), s.view, e).Done? && Step(request(r), s.view, e).replay == replay
    ensures NewsAre(request, start, log + [(r, e)], if replay then news + {r} else news)
  {
    hide Run, EventsOf, Inv, Legal, Next, Step, StateOf;
    StatePush(request, log, r, e);
    InvAlive(request(r), StateOf(request, log + [(r, e)], r));
    InfoDest(request(r), StateOf(request, log, r), e);
    forall x ensures x in (if replay then news + {r} else news) <==> Newly(request, start, log + [(r, e)], x) {
      assert x in news <==> Newly(request, start, log, x);
    }
  }

  lemma DestsStep(request: ReqId -> Request, start: seq<Item>, log: seq<Item>, r: ReqId, e: Event)
    requires Possible(request, start) && Possible(request, log) && Possible(request, log + [(r, e)])
    requires SameDests(request, start, log) && (e.Stop? || e.AbortSave?)
    ensures SameDests(request, start, log + [(r, e)])
  {
    hide Run, EventsOf, Inv, Legal, Next, StateOf;
    StatePush(request, log, r, e);
    InvAlive(request(r), StateOf(request, log + [(r, e)], r));
    DestKept(request(r), StateOf(request, log, r), e);
  }

  lemma NewlySince(request: ReqId -> Request, start: seq<Item>, mid: seq<Item>, quiet: seq<Item>, announced: seq<Item>,
                   end: seq<Item>, news: set<ReqId>, r: ReqId, finished: seq<ReqId>)
    requires Possible(request, start) && Possible(request, mid) && Possible(request, quiet)
    requires Possible(request, announced) && Possible(request, end)
    requires SameDests(request, start, mid) && SameDests(request, mid, quiet) && NewsAre(request, quiet, announced, news)
    requires r !in finished && end == announced + All(finished, Finish)
    ensures r in news <==> Newly(request, start, end, r)
  {
    hide StateOf;
    StateKept(request, announced, finished, Finish, r);
  }

  lemma NotFinishing(request: ReqId -> Request, log: seq<Item>, parent: seq<Item>, finished: seq<ReqId>, i: nat)
    requires Possible(request, log) && Replayable(request, log, parent, finished) && i < |parent|
    ensures parent[i].0 !in finished && forall a, b :: 0 <= a < b < |parent| ==> parent[a].0 != parent[b].0
  {
  }

  /** The item of a request is selected exactly when the request is new. */
  lemma {:induction false} SelectAt(items: seq<Item>, news: set<ReqId>, i: nat)
    requires i < |items| && forall a, b :: 0 <= a < b < |items| ==> items[a].0 != items[b].0
    ensures EventsOf(Select(items, news), items[i].0) == if items[i].0 in news then [items[i].1] else []
  {
    var n := |items| - 1;
    var r := items[i].0;
    EventsPush(Select(items[..n], news), items[n].0, items[n].1, r);
    if i < n {
      SelectAt(items[..n], news, i);
    } else {
      SelectOf(items[..n], news, r);
      assert forall k :: 0 <= k < n ==> items[..n][k].0 != r;
    }
  }

  lemma {:induction false} SelectReplays(request: ReqId -> Request, log: seq<Item>, items: seq<Item>, finished: seq<ReqId>, news: set<ReqId>)
    requires Possible(request, log) && Replayable(request, log, items, finished)
    ensures forall i :: 0 <= i < |Select(items, news)| ==> Select(items, news)[i].1.Replay?
  {
    OnlyReplays(items, news);
  }

  lemma {:induction false} OnlyReplays(items: seq<Item>, news: set<ReqId>)
    requires forall i :: 0 <= i < |items| ==> items[i].1.Replay?
    ensures forall i :: 0 <= i < |Select(items, news)| ==> Select(items, news)[i].1.Replay?
  {
    if items != [] { OnlyReplays(items[..|items| - 1], news); }
  }

  /** Events that never send anything. */
  ghost predicate Quiet(items: seq<Item>) {
    forall i :: 0 <= i < |items| ==> items[i].1.Stop? || items[i].1.AbortSave?
  }

  /** Events whose transfers, if any, are last ones. */
  ghost predicate Closing(items: seq<Item>) {
    forall i :: 0 <= i < |items| ==> items[i].1.Info? || items[i].1.Finish?
  }

  ghost predicate AllLast(ms: seq<Transfer>) {
    forall i :: 0 <= i < |ms| ==> ms[i].last
  }

  lemma OutLast(q: Request, v: View, e: Event)
    requires e.Info? ==> e.cached < e.limit && e.cached < e.numTokens
    ensures Step(q, v, e).Done? && (e.Info? || e.Finish?) ==> AllLast(Step(q, v, e).out)
  {
  }

  lemma LastPush(out: seq<Sent>, r: ReqId, ms: seq<Transfer>)
    requires AllLast(ms) && forall x :: AllLast(TransfersOf(out, x))
    ensures forall x :: AllLast(TransfersOf(out + Tag(r, ms), x))
  {
    hide Tag, TransfersOf;
    forall x ensures AllLast(TransfersOf(out + Tag(r, ms), x)) {
      TransfersConcat(out, Tag(r, ms), x);
      TagOf(r, ms, x);
    }
  }

  /** A transfer that is last ends its request's chain, so a step that sends one for a request
      sends no other for it. */
  lemma OnePerStep(before: seq<Transfer>, closing: seq<Transfer>, rest: seq<Transfer>)
    requires Chain(before + closing + rest) && AllLast(closing) && closing != []
    ensures |closing| == 1 && rest == []
  {
    hide Receive;
    var ms := before + closing + rest;
    assert ms[|before|] == closing[0];
    if |closing + rest| > 1 {
      ChainIsContiguous(ms, |before|);
    }
  }

  lemma {:induction false} FrozenOf(out: seq<Sent>, r: ReqId)
    requires |TransfersOf(out, r)| <= 1
    ensures TransfersOf(Frozen(out, true), r) + TransfersOf(Frozen(out, false), r) == TransfersOf(out, r)
  {
    if out != [] {
      var n := |out| - 1;
      FrozenOf(out[..n], r);
      TransfersConcat(Frozen(out[..n], out[n].1.freeze), [out[n]], r);
      assert TransfersOf([out[n]], r) == if out[n].0 == r then [out[n].1] else [];
    }
  }

  /** The order in which a step's lists are handed on does not matter to any request. */
  lemma ListsPerRequest(before: seq<Sent>, infoOut: seq<Sent>, finishOut: seq<Sent>, nonfreeze: seq<Sent>, r: ReqId)
    requires Chain(TransfersOf(before + infoOut + finishOut + nonfreeze, r))
    requires AllLast(TransfersOf(infoOut, r)) && AllLast(TransfersOf(finishOut, r))
    ensures TransfersOf(before + infoOut + finishOut + nonfreeze, r)
         == TransfersOf(before, r)
            + TransfersOf(infoOut + Frozen(finishOut, true) + Frozen(finishOut, false) + nonfreeze, r)
  {
    hide *;
    var s, a, b, c := TransfersOf(before, r), TransfersOf(infoOut, r), TransfersOf(finishOut, r), TransfersOf(nonfreeze, r);
    var b0, b1 := Frozen(finishOut, true), Frozen(finishOut, false);
    FourLists(before, infoOut, finishOut, nonfreeze, r);
    FourLists(infoOut, b0, b1, nonfreeze, r);
    assert s + a + b + c == s + (a + b) + c;
    if a + b != [] {
      LastBoth(a, b);
      OnePerStep(s, a + b, c);
    }
    FrozenOf(finishOut, r);
    assert s + a + b + c == s + (a + (TransfersOf(b0, r) + TransfersOf(b1, r)) + c);
    assert s + (a + (TransfersOf(b0, r) + TransfersOf(b1, r)) + c) == s + (a + TransfersOf(b0, r) + TransfersOf(b1, r) + c);
  }

  lemma FourLists(a: seq<Sent>, b: seq<Sent>, c: seq<Sent>, d: seq<Sent>, r: ReqId)
    ensures TransfersOf(a + b + c + d, r) == TransfersOf(a, r) + TransfersOf(b, r) + TransfersOf(c, r) + TransfersOf(d, r)
  {
    hide *;
    TransfersConcat(a + b + c, d, r);
    TransfersConcat(a + b, c, r);
    TransfersConcat(a, b, r);
  }

  lemma LastBoth(a: seq<Transfer>, b: seq<Transfer>)
    requires AllLast(a) && AllLast(b)
    ensures AllLast(a + b)
  {
  }

  lemma Quieten(input: Input)
    requires input.WellFormed()
    ensures AllInfo(input.infos)
    ensures Quiet(All(input.stopped, Stop)) && Quiet(All(input.aborted, AbortSave))
    ensures Closing(input.infos) && Closing(All(input.finished, Finish))
  {
  }

  lemma StateKept(request: ReqId -> Request, log: seq<Item>, ids: seq<ReqId>, e: Event, r: ReqId)
    requires Possible(request, log) && Possible(request, log + All(ids, e)) && r !in ids
    ensures StateOf(request, log + All(ids, e), r) == StateOf(request, log, r)
  {
    hide Run;
    EventsConcat(log, All(ids, e), r);
    NoEvents(ids, e, r);
    assert EventsOf(log, r) + [] == EventsOf(log, r);
  }

  lemma ReplayIs(request: ReqId -> Request, log: seq<Item>, news: set<ReqId>, r: ReqId)
    requires Possible(request, log) && ReplayAll(request, log, news) && r in news
    ensures StateOf(request, log, r).State? && StateOf(request, log, r).replay
  {
  }

  lemma {:induction false} NoEvents(ids: seq<ReqId>, e: Event, r: ReqId)
    requires r !in ids
    ensures EventsOf(All(ids, e), r) == []
  {
    if ids != [] {
      assert All(ids, e)[..|ids| - 1] == All(ids[..|ids| - 1], e);
      NoEvents(ids[..|ids| - 1], e, r);
    }
  }

  function Frozen(out: seq<Sent>, freeze: bool): seq<Sent> {
    if out == [] then []
    else
      var rest := Frozen(out[..|out| - 1], freeze);
      if out[|out| - 1].1.freeze == freeze then rest + [out[|out| - 1]] else rest
  }

  ghost predicate ReplayAll(request: ReqId -> Request, log: seq<Item>, news: set<ReqId>)
    requires Possible(request, log)
  {
    forall r :: r in news ==> StateOf(request, log, r).State? && StateOf(request, log, r).replay
  }

  /** Further announcements do not take a request off the list of replayable ones. */
  lemma KeepsReplay(request: ReqId -> Request, log: seq<Item>, r: ReqId, e: Event, news: set<ReqId>)
    requires Possible(request, log + [(r, e)]) && Possible(request, log) && e.Info? && ReplayAll(request, log, news)
    ensures ReplayAll(request, log + [(r, e)], news)
  {
    hide Run, EventsOf;
    StatePush(request, log, r, e);
    assert Inv(request(r), StateOf(request, log + [(r, e)], r));
  }

  /** The items of the requests in news. */
  function Select(items: seq<Item>, news: set<ReqId>): seq<Item> {
    if items == [] then []
    else
      var rest := Select(items[..|items| - 1], news);
      if items[|items| - 1].0 in news then rest + [items[|items| - 1]] else rest
  }

  /** The running step holds one chunk per request and no request that finishes in this step;
      the chunk of an announced request is its latest one. */
  ghost predicate Replayable(request: ReqId -> Request, log: seq<Item>, parent: seq<Item>, finished: seq<ReqId>)
    requires Possible(request, log)
  {
    && (forall i, j :: 0 <= i < j < |parent| ==> parent[i].0 != parent[j].0)
    && (forall i :: 0 <= i < |parent| ==>
          && parent[i].1.Replay? && parent[i].0 !in finished
          && var s := StateOf(request, log, parent[i].0);
             s.State? && s.replay ==> !s.engine.parked && s.engine.chunk == Some((parent[i].1.isNew, parent[i].1.computed, parent[i].1.count)))
  }

  /** A request is selected at most once, with its item. */
  lemma {:induction false} SelectOf(items: seq<Item>, news: set<ReqId>, r: ReqId)
    requires forall i, j :: 0 <= i < j < |items| ==> items[i].0 != items[j].0
    ensures var es := EventsOf(Select(items, news), r);
            || es == []
            || (|es| == 1 && r in news && exists i :: 0 <= i < |items| && items[i] == (r, es[0]))
    ensures (forall i :: 0 <= i < |items| ==> items[i].0 != r) ==> EventsOf(Select(items, news), r) == []
  {
    if items != [] {
      var n := |items| - 1;
      SelectOf(items[..n], news, r);
      EventsPush(Select(items[..n], news), items[n].0, items[n].1, r);
      if items[n].0 == r {
        assert forall i :: 0 <= i < n ==> items[..n][i].0 != r;
        assert items[n] == (r, items[n].1);
      } else if EventsOf(Select(items[..n], news), r) != [] {
        var i :| 0 <= i < n && items[..n][i] == (r, EventsOf(Select(items[..n], news), r)[0]);
        assert items[i] == items[..n][i];
      }
    }
  }

  lemma SelectPossible(request: ReqId -> Request, log: seq<Item>, parent: seq<Item>, finished: seq<ReqId>,
                       news: set<ReqId>)
    requires Possible(request, log) && Replayable(request, log, parent, finished)
    requires forall r :: r in news && r !in finished ==>
               StateOf(request, log, r).State? && StateOf(request, log, r).replay
    ensures Possible(request, log + Select(parent, news))
  {
    hide Next, Select, EventsOf;
    forall r ensures Run(request(r), EventsOf(log + Select(parent, news), r)).Some? {
      EventsConcat(log, Select(parent, news), r);
      SelectOf(parent, news, r);
      var es, fs := EventsOf(log, r), EventsOf(Select(parent, news), r);
      if fs == [] {
        assert es + fs == es;
      } else {
        var i :| 0 <= i < |parent| && parent[i] == (r, fs[0]);
        assert (es + fs)[..|es|] == es;
        assert Legal(request(r), StateOf(request, log, r), fs[0]);
      }
    }
  }

  lemma NextDone(q: Request, s: State, e: Event)
    requires s.State? && Legal(q, s, e) && Inv(q, Next(q, s, e))
    ensures e.Info? ==> e.cached < e.limit && e.cached < e.numTokens
    ensures var o := Step(q, s.view, e);
            && o.Done? && Next(q, s, e).State?
            && Next(q, s, e).view == o.view && Next(q, s, e).sent == s.sent + o.out
            && (o.replay ==> Next(q, s, e).replay)
  {
  }

  lemma StopOutcome(q: Request, v: View)
    ensures StepStop(q, v).Done? ==> StepStop(q, v).out == [] && !StepStop(q, v).replay
  {
  }

  lemma AbortOutcome(v: View)
    ensures StepAbortSave(v).Done? ==> StepAbortSave(v).out == [] && !StepAbortSave(v).replay
  {
  }

  lemma FinishOutcome(v: View)
    ensures StepFinish(v).Done? ==> !StepFinish(v).replay
  {
  }

  lemma ScheduleOutcome(q: Request, v: View, isNew: bool, computed: nat, count: nat, replay: bool)
    ensures var o := StepSchedule(q, v, isNew, computed, count, replay);
            o.Done? ==> !o.replay
  {
  }
}
