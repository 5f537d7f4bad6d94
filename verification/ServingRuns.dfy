/** Whole runs. */
module ServingRuns {
  // The events of a request against the choices made for it, and what a failed send does to it.

  import opened Prelude
  import opened Channels
  import opened Serving

  // ----- the events are the choices -----

  /** The event a worker step decides on; it is pushed by a later step. */
  function Announced(k: Kind, st: Stage, c: Choice): seq<Event> {
    match c
    case Throw(message) => [Err(message)]
    case Produce(piece) => [Token(piece)]
    case Stop(_) => []
    case Go =>
      match st
      case Begin => if IsChat(k) && k.job.emptyPrompt then [Finish("stop")] else []
      case Tail(hit) => [Finish(Reason(hit))]
      case FlushEmit(_, hit) => [Finish(Reason(hit))]
      case _ => []
  }

  /** The part of a step that is about request h. */
  function Decided(s: State, a: Action, h: nat): seq<Event> {
    if a.Work? && s.worker.Busy? && s.worker.h == h && h < |s.hs|
    then Announced(s.hs[h].kind, s.worker.stage, a.choice) else []
  }

  /** What the first n steps of a run decided for request h, in order. */
  function Said(ss: seq<State>, acts: seq<Action>, n: nat, h: nat): seq<Event>
    requires n <= |acts| && n < |ss| && h < |ss[0].hs|
  {
    if n == 0 then []
    else Said(ss, acts, n - 1, h) + Decided(ss[n - 1], acts[n - 1], h)
  }

  /** Decided, but not pushed yet. */
  function InFlight(stage: Option<Stage>): seq<Event> {
    match stage
    case Some(Emit(e, _)) => [e]
    case Some(FlushEmit(e, _)) => [e]
    case Some(Terminal(e)) => [e]
    case _ => []
  }

  ghost predicate Agrees(hd: Handler, v: View, said: seq<Event>) {
    && (hd.kind.Stream? ==> hd.sent + InFlight(v.stage) == said)
    && (hd.kind.Block? && Resolved(hd, v).None? ==> said == [])
    && (hd.kind.Block? && Resolved(hd, v).Some? ==>
          |said| == 1 && !said[0].Token? && Resolved(hd, v).value == said[0].Finish?)
  }

  /** The promise's outcome, decided or set. */
  function Resolved(hd: Handler, v: View): Option<bool> {
    if v.stage.Some? && v.stage.value.Resolve? then Some(v.stage.value.ok) else hd.result
  }

  lemma WorkAgrees(hd: Handler, v: View, st: Stage, c: Choice, said: seq<Event>)
    requires IsChat(hd.kind) && CanWork(hd, st, c) && v.stage == Some(st) && HandlerOk(hd, v) && Agrees(hd, v, said)
    ensures Agrees(WorkHandler(hd, st), v.(stage := WorkStage(hd, st, c)), said + Announced(hd.kind, st, c))
  {
  }

  lemma {:induction false} RunAgrees(ss: seq<State>, acts: seq<Action>, n: nat, h: nat)
    requires IsRun(ss, acts) && Initial(ss[0]) && n <= |acts| && h < |ss[0].hs|
    ensures h < |ss[n].hs| && Agrees(ss[n].hs[h], ViewOf(ss[n], h), Said(ss, acts, n, h))
  {
    RunsKeepInv(ss, acts, n);
    if n == 0 {
      assert HandlerOk(ss[0].hs[h], ViewOf(ss[0], h));
    } else {
      RunAgrees(ss, acts, n - 1, h);
      RunsKeepInv(ss, acts, n - 1);
      StepAgrees(ss[n - 1], acts[n - 1], h, Said(ss, acts, n - 1, h));
    }
  }

  lemma StepAgrees(s: State, a: Action, h: nat, said: seq<Event>)
    requires Inv(s) && Enabled(s, a) && h < |s.hs| && Agrees(s.hs[h], ViewOf(s, h), said)
    ensures |Apply(s, a).hs| == |s.hs|
    ensures Agrees(Apply(s, a).hs[h], ViewOf(Apply(s, a), h), said + Decided(s, a, h))
  {
    var hd, v := s.hs[h], ViewOf(s, h);
    assert HandlerOk(hd, v);
    if h != Subject(s, a) {
      OthersUnchanged(s, a, h);
    } else if a.Work? {
      hide Agrees, HandlerOk, WorkHandler, WorkStage, CanWork, Announced;
      WorkAgrees(hd, v, s.worker.stage, a.choice, said);
      assert ViewOf(Apply(s, a), h) == v.(stage := WorkStage(hd, s.worker.stage, a.choice));
    } else {
      OwnStepAgrees(s, a, said);
    }
  }

  lemma OwnStepAgrees(s: State, a: Action, said: seq<Event>)
    requires Inv(s) && Enabled(s, a) && !a.Work? && Agrees(s.hs[Subject(s, a)], ViewOf(s, Subject(s, a)), said)
    ensures |Apply(s, a).hs| == |s.hs|
    ensures Agrees(Apply(s, a).hs[Subject(s, a)], ViewOf(Apply(s, a), Subject(s, a)), said)
  {
    hide Inv, Enabled, Apply, HandlerOk;
    OwnStepSaysNothing(s, a);
  }

  /** Only the worker pushes events and sets results. */
  lemma OwnStepSaysNothing(s: State, a: Action)
    requires Inv(s) && Enabled(s, a) && !a.Work?
    ensures var h, s' := Subject(s, a), Apply(s, a);
      && |s'.hs| == |s.hs| && s'.hs[h].kind == s.hs[h].kind
      && s'.hs[h].sent == s.hs[h].sent && s'.hs[h].result == s.hs[h].result
      && (ViewOf(s', h).stage == ViewOf(s, h).stage
          || (ViewOf(s, h).stage == None && ViewOf(s', h).stage == Some(Begin)))
  {
  }

  /** A served client has seen exactly what its request's steps decided, in order: every produced piece, then the error
      of the exception or the reason the run ended with. A promise holds a text exactly when there was no exception. */
  lemma {:induction false} AnswerIsWhatWasDecided(ss: seq<State>, acts: seq<Action>, h: nat)
    requires IsRun(ss, acts) && Initial(ss[0]) && h < |ss[0].hs|
    ensures h < |ss[|acts|].hs|
    ensures var hd, said := ss[|acts|].hs[h], Said(ss, acts, |acts|, h);
      && (hd.kind.Stream? ==> hd.seen <= said && (hd.phase == Done ==> hd.seen == said))
      && (hd.kind.Block? && hd.phase == Done ==> |said| == 1 && hd.result == Some(said[0].Finish?))
  {
    RunAgrees(ss, acts, |acts|, h);
    RunsKeepInv(ss, acts, |acts|);
    assert HandlerOk(ss[|acts|].hs[h], ViewOf(ss[|acts|], h));
  }

  // ----- the length of a stream -----

  /** Events a request may still push. */
  function StillToPush(k: Kind, st: Stage, cancel: bool): nat {
    var m := if IsChat(k) then k.job.maxTokens else 0;
    match st
    case Begin => if cancel then 2 else m + 2
    case Prefill => if cancel then 2 else m + 2
    case Loop(left) => if cancel then 2 else left + 2
    case Emit(_, left) => if cancel then 3 else left + 2
    case Forward(left) => if cancel then 2 else left + 1
    case Tail(_) => 2
    case FlushEmit(_, _) => 2
    case Terminal(_) => 1
    case Closing => 0
    case Resolve(_) => 0
  }

  function MayPush(hd: Handler, v: View): nat {
    if v.stage.Some? then StillToPush(hd.kind, v.stage.value, hd.cancel)
    else if v.queued || hd.phase == Waiting || hd.phase == Entered then StillToPush(hd.kind, Begin, hd.cancel)
    else 0
  }

  /** What one step may change for a handler. */
  ghost predicate Bounded(hd: Handler, v: View, hd': Handler, v': View) {
    && hd'.kind == hd.kind && (hd.cancel ==> hd'.cancel) && hd.sent <= hd'.sent
    && |hd'.sent| + MayPush(hd', v') <= |hd.sent| + MayPush(hd, v)
  }

  lemma WorkBounded(hd: Handler, v: View, st: Stage, c: Choice)
    requires IsChat(hd.kind) && CanWork(hd, st, c) && HandlerOk(hd, v) && v.stage == Some(st)
    ensures Bounded(hd, v, WorkHandler(hd, st), v.(stage := WorkStage(hd, st, c)))
  {
  }

  lemma OwnStepBounded(s: State, a: Action)
    requires Inv(s) && Enabled(s, a) && !a.Work?
    ensures var h, s' := Subject(s, a), Apply(s, a);
      |s'.hs| == |s.hs| && Bounded(s.hs[h], ViewOf(s, h), s'.hs[h], ViewOf(s', h))
  {
    var h := Subject(s, a);
    assert HandlerOk(s.hs[h], ViewOf(s, h));
    if a.Drain? {
      DrainBounded(s, h, a.sendFails);
    } else {
      QueuedHolderDrains(s);
      hide Inv;
    }
  }

  lemma DrainBounded(s: State, h: nat, sendFails: bool)
    requires Enabled(s, Drain(h, sendFails)) && HandlerOk(s.hs[h], ViewOf(s, h))
    ensures var s' := Apply(s, Drain(h, sendFails));
      |s'.hs| == |s.hs| && Bounded(s.hs[h], ViewOf(s, h), s'.hs[h], ViewOf(s', h))
  {
    var s' := Drained(s, h, sendFails);
    assert s'.worker == s.worker && s'.queue == s.queue;
    assert s'.hs[h].phase == Done || s'.hs[h].phase == Draining;
  }

  lemma StepBounded(s: State, a: Action, h: nat)
    requires Inv(s) && Enabled(s, a) && h < |s.hs|
    ensures |Apply(s, a).hs| == |s.hs|
    ensures Bounded(s.hs[h], ViewOf(s, h), Apply(s, a).hs[h], ViewOf(Apply(s, a), h))
  {
    var hd, v := s.hs[h], ViewOf(s, h);
    assert HandlerOk(hd, v);
    if h != Subject(s, a) {
      OthersUnchanged(s, a, h);
    } else if a.Work? {
      hide HandlerOk, WorkHandler, WorkStage, CanWork, Bounded;
      WorkBounded(hd, v, s.worker.stage, a.choice);
      assert ViewOf(Apply(s, a), h) == v.(stage := WorkStage(hd, s.worker.stage, a.choice));
    } else {
      OwnStepBounded(s, a);
    }
  }

  lemma {:induction false} RunBounded(ss: seq<State>, acts: seq<Action>, i: nat, j: nat, h: nat)
    requires IsRun(ss, acts) && Initial(ss[0]) && i <= j < |ss| && h < |ss[0].hs|
    ensures |ss[i].hs| == |ss[j].hs| == |ss[0].hs|
    ensures Bounded(ss[i].hs[h], ViewOf(ss[i], h), ss[j].hs[h], ViewOf(ss[j], h))
    decreases j - i
  {
    RunsKeepInv(ss, acts, j);
    RunsKeepInv(ss, acts, i);
    if i < j {
      RunBounded(ss, acts, i, j - 1, h);
      RunsKeepInv(ss, acts, j - 1);
      StepBounded(ss[j - 1], acts[j - 1], h);
    }
  }

  /** A client is sent at most max_tokens tokens, one flushed rest and one terminal event. */
  lemma {:induction false} StreamIsShort(ss: seq<State>, acts: seq<Action>, i: nat, h: nat)
    requires IsRun(ss, acts) && Initial(ss[0]) && i < |ss| && h < |ss[0].hs| && ss[0].hs[h].kind.Stream?
    ensures h < |ss[i].hs| && |ss[i].hs[h].sent| <= ss[0].hs[h].kind.job.maxTokens + 2
  {
    RunBounded(ss, acts, 0, i, h);
    assert HandlerOk(ss[0].hs[h], ViewOf(ss[0], h)) by { RunsKeepInv(ss, acts, 0); }
  }

  // ----- cancellation -----

  /** Step i takes a token for h and fails to send it. */
  ghost predicate SendFailed(ss: seq<State>, acts: seq<Action>, i: nat, h: nat)
    requires i < |acts| && i + 1 < |ss|
  {
    acts[i] == Drain(h, true) && h < |ss[i].hs| && ss[i].hs[h].chan.q != [] && ss[i].hs[h].chan.q[0].Token?
  }

  lemma StepCancels(s: State, a: Action, h: nat)
    requires Enabled(s, a) && h < |s.hs|
    ensures h < |Apply(s, a).hs|
    ensures Apply(s, a).hs[h].cancel <==>
      s.hs[h].cancel || (a == Drain(h, true) && s.hs[h].chan.q != [] && s.hs[h].chan.q[0].Token?)
  {
  }

  /** A request is cancelled exactly from its first failed send on. */
  lemma {:induction false} CancelledIff(ss: seq<State>, acts: seq<Action>, j: nat, h: nat)
    requires IsRun(ss, acts) && Initial(ss[0]) && j < |ss| && h < |ss[0].hs|
    ensures h < |ss[j].hs|
    ensures ss[j].hs[h].cancel <==> exists i: nat :: i < j && SendFailed(ss, acts, i, h)
  {
    hide Inv, Apply, Enabled;
    RunsKeepInv(ss, acts, j);
    if j > 0 {
      RunsKeepInv(ss, acts, j - 1);
      CancelledIff(ss, acts, j - 1, h);
      StepCancels(ss[j - 1], acts[j - 1], h);
      if SendFailed(ss, acts, j - 1, h) { assert ss[j].hs[h].cancel; }
    }
  }

  /** After a failed send the worker emits no further piece of the loop and runs no further forward pass from its head:
      it can only leave the loop. */
  lemma {:induction false} CancelledLeavesLoop(ss: seq<State>, acts: seq<Action>, i: nat, j: nat, h: nat)
    requires IsRun(ss, acts) && Initial(ss[0]) && i < j < |acts| && h < |ss[0].hs| && SendFailed(ss, acts, i, h)
    requires acts[j].Work? && ss[j].worker.Busy? && ss[j].worker.h == h && ss[j].worker.stage.Loop?
    ensures ss[j + 1].worker.Busy? && ss[j + 1].worker.h == h
    ensures ss[j + 1].worker.stage == Tail(false) || acts[j].choice.Throw?
    ensures !ss[j + 1].worker.stage.Emit? && !ss[j + 1].worker.stage.Forward?
  {
    CancelledIff(ss, acts, j, h);
    RunsKeepInv(ss, acts, j);
  }

  /** The stream of a client that has gone grows by the event just being pushed, one flushed rest and the terminal event
      at most, however many tokens were asked for. */
  lemma {:induction false} CancelledStreamEnds(ss: seq<State>, acts: seq<Action>, i: nat, j: nat, h: nat)
    requires IsRun(ss, acts) && Initial(ss[0]) && i < j < |ss| && h < |ss[0].hs| && SendFailed(ss, acts, i, h)
    ensures h < |ss[i].hs| == |ss[j].hs| && ss[i].hs[h].sent <= ss[j].hs[h].sent
    ensures |ss[j].hs[h].sent| <= |ss[i].hs[h].sent| + (if Emitting(ss[i], h) then 3 else 2)
  {
    hide Inv, Apply, Enabled, HandlerOk;
    RunBounded(ss, acts, i, i + 1, h);
    RunBounded(ss, acts, i + 1, j, h);
    CancelledIff(ss, acts, i + 1, h);
    RunsKeepInv(ss, acts, i + 1);
    TakenNothingSent(ss[i], h);
  }

  predicate Emitting(s: State, h: nat) { s.worker.Busy? && s.worker.h == h && s.worker.stage.Emit? }

  lemma TakenNothingSent(s: State, h: nat)
    requires Enabled(s, Drain(h, true)) && s.hs[h].chan.q != [] && s.hs[h].chan.q[0].Token?
    ensures var s' := Apply(s, Drain(h, true));
      s'.hs[h].sent == s.hs[h].sent && s'.hs[h].cancel && s'.worker == s.worker && s'.hs[h].phase == s.hs[h].phase
  {
  }
}
