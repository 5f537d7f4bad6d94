/** The accept loop in steps. */
module Serving {
  // Handler threads, the model mutex, the work queue, the worker, and one token channel or promise per request, as
  // interleaved steps.

  import opened Prelude
  import opened Channels

  /** What a connection asks for. `Free` routes never touch the model; `Inline` handlers run `work` model calls
      under the mutex; chat requests go through the worker. */
  datatype Kind = Free | Inline(work: nat) | Stream(job: Job) | Block(job: Job)
  datatype Job = Job(maxTokens: nat, emptyPrompt: bool)

  datatype Phase = Waiting | Working(left: nat) | Entered | Draining | Done

  /** A connection with its GenRequest. `sent` and `seen` log the events accepted by and taken from the
      channel. */
  datatype Handler = Handler(kind: Kind, phase: Phase, chan: Channel, result: Option<bool>, cancel: bool,
                             sent: seq<Event>, seen: seq<Event>)

  /** Where the worker is inside `process`; `left` counts loop iterations still allowed, and `hit` says that the loop
      ended at a stop token or a stop sequence. */
  datatype Stage = Begin | Prefill | Loop(left: nat) | Emit(ev: Event, left: nat) | Forward(left: nat)
                 | Tail(hit: bool) | FlushEmit(ev: Event, hit: bool) | Terminal(ev: Event) | Closing | Resolve(ok: bool)

  datatype Worker = Idle | Busy(h: nat, stage: Stage)

  datatype State = State(hs: seq<Handler>, holder: Option<nat>, queue: seq<nat>, worker: Worker)

  // ----- steps -----

  datatype Action =
    | ServeFree(h: nat)
    | Lock(h: nat)
    | Touch(h: nat)
    | Unlock(h: nat)
    | Submit(h: nat)
    | Drain(h: nat, sendFails: bool)
    | TakeResult(h: nat)
    | PopWork
    | Work(choice: Choice)

  /** The worker's next move where the code leaves it open: tokens produced, stop conditions, exceptions. */
  datatype Choice = Go | Produce(piece: string) | Stop(hit: bool) | Throw(message: string)

  predicate IsChat(k: Kind) { k.Stream? || k.Block? }

  /** The stage reached when processing is over: the terminal event, or the promise. */
  function Ending(k: Kind, ok: bool, text: string): Stage {
    if k.Stream? then Terminal(if ok then Finish(text) else Err(text)) else Resolve(ok)
  }

  /** The stages of `process` with the choices open in each; a push waits for room. */
  predicate CanWork(hd: Handler, st: Stage, c: Choice) {
    match st
    case Begin => c.Go? || c.Throw?
    case Prefill => c.Go? || c.Throw?
    case Loop(left) =>
      || c.Throw?
      || (c.Stop? && (c.hit ==> left > 0 && !hd.cancel))
      || (left > 0 && !hd.cancel && (c.Go? || (c.Produce? && hd.kind.Stream?)))
    case Emit(_, _) => c.Go? && CanPush(hd.chan)
    case Forward(left) => left > 0 && (c.Go? || c.Throw?)
    case Tail(_) => c.Go? || c.Throw? || (c.Produce? && hd.kind.Stream?)
    case FlushEmit(_, _) => c.Go? && CanPush(hd.chan)
    case Terminal(_) => c.Go? && CanPush(hd.chan)
    case Closing => c.Go?
    case Resolve(_) => c.Go?
  }

  function PushLogged(hd: Handler, e: Event): Handler {
    hd.(chan := Push(hd.chan, e), sent := if hd.chan.closed then hd.sent else hd.sent + [e])
  }

  function Reason(hit: bool): string { if hit then "stop" else "length" }

  /** None: the worker goes back to waiting for work. */
  function WorkStage(hd: Handler, st: Stage, c: Choice): Option<Stage>
    requires IsChat(hd.kind) && CanWork(hd, st, c)
  {
    if c.Throw? then Some(Ending(hd.kind, false, c.message))
    else match st
      case Begin => Some(if hd.kind.job.emptyPrompt then Ending(hd.kind, true, "stop") else Prefill)
      case Prefill => Some(Loop(hd.kind.job.maxTokens))
      case Loop(left) =>
        Some(if c.Stop? then Tail(c.hit) else if c.Produce? then Emit(Token(c.piece), left) else Forward(left))
      case Emit(_, left) => Some(Forward(left))
      case Forward(left) => Some(Loop(left - 1))
      case Tail(hit) => Some(if c.Produce? then FlushEmit(Token(c.piece), hit) else Ending(hd.kind, true, Reason(hit)))
      case FlushEmit(_, hit) => Some(Ending(hd.kind, true, Reason(hit)))
      case Terminal(_) => Some(Closing)
      case Closing => None
      case Resolve(_) => None
  }

  function WorkHandler(hd: Handler, st: Stage): Handler {
    match st
    case Emit(e, _) => PushLogged(hd, e)
    case FlushEmit(e, _) => PushLogged(hd, e)
    case Terminal(e) => PushLogged(hd, e)
    case Closing => hd.(chan := Close(hd.chan))
    case Resolve(ok) => hd.(result := Some(ok))
    case _ => hd
  }

  predicate Enabled(s: State, a: Action) {
    match a
    case ServeFree(h) => h < |s.hs| && s.hs[h].phase == Waiting && s.hs[h].kind.Free?
    case Lock(h) => h < |s.hs| && s.hs[h].phase == Waiting && !s.hs[h].kind.Free? && s.holder == None
    case Touch(h) => h < |s.hs| && s.hs[h].phase.Working? && s.hs[h].phase.left > 0
    case Unlock(h) => h < |s.hs| && s.hs[h].phase == Working(0)
    case Submit(h) => h < |s.hs| && s.hs[h].phase == Entered
    case Drain(h, _) => h < |s.hs| && s.hs[h].phase == Draining && s.hs[h].kind.Stream? && CanPop(s.hs[h].chan)
    case TakeResult(h) => h < |s.hs| && s.hs[h].phase == Draining && s.hs[h].kind.Block? && s.hs[h].result.Some?
    case PopWork => s.worker.Idle? && |s.queue| > 0 && s.queue[0] < |s.hs|
    case Work(c) => s.worker.Busy? && s.worker.h < |s.hs| && IsChat(s.hs[s.worker.h].kind)
                    && CanWork(s.hs[s.worker.h], s.worker.stage, c)
  }

  function Put(s: State, h: nat, hd: Handler): State
    requires h < |s.hs|
  {
    s.(hs := s.hs[h := hd])
  }

  /** One round of the drain loop: a token may fail to be sent, a terminal event or a closed and empty channel
      ends the handler and releases the mutex. */
  function Drained(s: State, h: nat, sendFails: bool): State
    requires h < |s.hs|
  {
    var hd := s.hs[h];
    var (e, c) := Pop(hd.chan);
    match e
    case None => Put(s, h, hd.(phase := Done)).(holder := None)
    case Some(ev) =>
      var took := hd.(chan := c, seen := hd.seen + [ev]);
      if ev.Token? then Put(s, h, took.(cancel := hd.cancel || sendFails))
      else Put(s, h, took.(phase := Done)).(holder := None)
  }

  function Apply(s: State, a: Action): State
    requires Enabled(s, a)
  {
    match a
    case ServeFree(h) => Put(s, h, s.hs[h].(phase := Done))
    case Lock(h) =>
      Put(s, h, s.hs[h].(phase := if s.hs[h].kind.Inline? then Working(s.hs[h].kind.work) else Entered))
        .(holder := Some(h))
    case Touch(h) => Put(s, h, s.hs[h].(phase := Working(s.hs[h].phase.left - 1)))
    case Unlock(h) => Put(s, h, s.hs[h].(phase := Done)).(holder := None)
    case Submit(h) => Put(s, h, s.hs[h].(phase := Draining)).(queue := s.queue + [h])
    case Drain(h, sendFails) => Drained(s, h, sendFails)
    case TakeResult(h) => Put(s, h, s.hs[h].(phase := Done)).(holder := None)
    case PopWork => s.(queue := s.queue[1..], worker := Busy(s.queue[0], Begin))
    case Work(c) =>
      var h := s.worker.h;
      var next := WorkStage(s.hs[h], s.worker.stage, c);
      Put(s, h, WorkHandler(s.hs[h], s.worker.stage)).(worker := if next.Some? then Busy(h, next.value) else Idle)
  }

  // ----- the invariant, one handler at a time -----

  ghost predicate Tokens(log: seq<Event>) {
    forall i :: 0 <= i < |log| ==> log[i].Token?
  }

  /** TOKEN* followed by exactly one FINISH or ERR. */
  ghost predicate Complete(log: seq<Event>) {
    |log| > 0 && Tokens(log[..|log| - 1]) && !log[|log| - 1].Token?
  }

  ghost predicate Untouched(hd: Handler) {
    hd.chan == Channel([], false) && hd.result == None && hd.sent == [] && hd.seen == [] && !hd.cancel
  }

  /** What the rest of the system looks like to handler h. */
  datatype View = View(mine: bool, queued: bool, stage: Option<Stage>)

  function ViewOf(s: State, h: nat): View {
    View(s.holder == Some(h), h in s.queue, if s.worker.Busy? && s.worker.h == h then Some(s.worker.stage) else None)
  }

  /** Only tokens are produced before the terminal stage, and each stage belongs to one kind of request. */
  ghost predicate StageFits(k: Kind, st: Stage) {
    match st
    case Emit(e, left) => k.Stream? && e.Token? && left > 0
    case FlushEmit(e, _) => k.Stream? && e.Token?
    case Terminal(e) => k.Stream? && !e.Token?
    case Closing => k.Stream?
    case Resolve(_) => k.Block?
    case Forward(left) => left > 0
    case _ => true
  }

  ghost predicate StreamOk(hd: Handler, v: View) {
    && hd.result == None && hd.sent == hd.seen + hd.chan.q && |hd.chan.q| <= CAPACITY
    && (v.queued ==> v.stage == None && Untouched(hd))
    && (v.stage.Some? ==> StageFits(hd.kind, v.stage.value) && !hd.chan.closed)
    && (v.queued || (v.stage.Some? && !v.stage.value.Closing?) ==> Tokens(hd.sent))
    && (v.stage == Some(Closing) || (!v.queued && v.stage == None) ==> Complete(hd.sent))
  }

  ghost predicate BlockOk(hd: Handler, v: View) {
    && (v.queued ==> v.stage == None)
    && (v.stage.Some? ==> StageFits(hd.kind, v.stage.value))
    && (hd.result.Some? <==> !v.queued && v.stage == None)
  }

  ghost predicate HandlerOk(hd: Handler, v: View) {
    match hd.phase
    case Waiting => v == View(false, false, None) && Untouched(hd)
    case Working(n) => hd.kind.Inline? && n <= hd.kind.work && v == View(true, false, None) && Untouched(hd)
    case Entered => IsChat(hd.kind) && v == View(true, false, None) && Untouched(hd)
    case Draining =>
      && v.mine && IsChat(hd.kind)
      && (hd.kind.Stream? ==> StreamOk(hd, v) && Tokens(hd.seen))
      && (hd.kind.Block? ==> BlockOk(hd, v))
    case Done =>
      && !v.mine && !v.queued && (v.stage.Some? ==> hd.kind.Stream? && v.stage == Some(Closing))
      && (hd.kind.Stream? ==> StreamOk(hd, v) && hd.chan.q == [])
      && (hd.kind.Block? ==> hd.result.Some?)
  }

  ghost predicate Inv(s: State) {
    && (s.holder.Some? ==> s.holder.value < |s.hs|)
    && |s.queue| <= 1 && (forall h :: h in s.queue ==> h < |s.hs|)
    && (s.worker.Busy? ==> s.worker.h < |s.hs|)
    && forall h :: 0 <= h < |s.hs| ==> HandlerOk(s.hs[h], ViewOf(s, h))
  }

  ghost predicate Initial(s: State) {
    && s.holder == None && s.queue == [] && s.worker == Idle
    && forall h :: 0 <= h < |s.hs| ==> s.hs[h].phase == Waiting && Untouched(s.hs[h])
  }

  lemma InitialInv(s: State)
    requires Initial(s)
    ensures Inv(s)
  {
  }

  /** The handler an action is about. */
  function Subject(s: State, a: Action): nat
    requires Enabled(s, a)
  {
    match a
    case PopWork => s.queue[0]
    case Work(_) => s.worker.h
    case ServeFree(h) => h
    case Lock(h) => h
    case Touch(h) => h
    case Unlock(h) => h
    case Submit(h) => h
    case Drain(h, _) => h
    case TakeResult(h) => h
  }

  /** No action changes another handler or what the system looks like to it. */
  lemma OthersUnchanged(s: State, a: Action, g: nat)
    requires Inv(s) && Enabled(s, a) && g < |s.hs| && g != Subject(s, a)
    ensures |Apply(s, a).hs| == |s.hs| && Apply(s, a).hs[g] == s.hs[g]
    ensures ViewOf(Apply(s, a), g) == ViewOf(s, g)
  {
    var h := Subject(s, a);
    assert HandlerOk(s.hs[g], ViewOf(s, g)) && HandlerOk(s.hs[h], ViewOf(s, h));
  }

  lemma TokensGrow(log: seq<Event>, e: Event)
    requires Tokens(log)
    ensures e.Token? ==> Tokens(log + [e])
    ensures !e.Token? ==> Complete(log + [e])
  {
    assert (log + [e])[..|log + [e]| - 1] == log;
  }

  lemma PushKeepsStream(hd: Handler, v: View, e: Event, next: Stage)
    requires hd.kind.Stream? && CanPush(hd.chan) && StreamOk(hd, v) && v.stage.Some? && !v.stage.value.Closing?
    requires StageFits(hd.kind, next) && (next.Closing? <==> !e.Token?)
    ensures StreamOk(PushLogged(hd, e), v.(stage := Some(next)))
  {
    TokensGrow(hd.sent, e);
    hide Tokens, Complete, StageFits;
  }

  lemma WorkKeepsStream(hd: Handler, v: View, st: Stage, c: Choice)
    requires hd.kind.Stream? && CanWork(hd, st, c) && StreamOk(hd, v) && v.stage == Some(st)
    ensures StreamOk(WorkHandler(hd, st), v.(stage := WorkStage(hd, st, c)))
  {
    hide Tokens, Complete;
    if st.Emit? || st.FlushEmit? || st.Terminal? {
      hide StreamOk;
      StageOfStream(hd, v);
      PushKeepsStream(hd, v, st.ev, WorkStage(hd, st, c).value);
    }
  }

  lemma StageOfStream(hd: Handler, v: View)
    requires StreamOk(hd, v)
    ensures v.stage.Some? ==> StageFits(hd.kind, v.stage.value)
  {
  }

  lemma WorkKeepsBlock(hd: Handler, v: View, st: Stage, c: Choice)
    requires hd.kind.Block? && CanWork(hd, st, c) && BlockOk(hd, v) && v.stage == Some(st)
    ensures BlockOk(WorkHandler(hd, st), v.(stage := WorkStage(hd, st, c)))
  {
  }

  lemma WorkKeepsOk(hd: Handler, v: View, st: Stage, c: Choice)
    requires IsChat(hd.kind) && CanWork(hd, st, c) && HandlerOk(hd, v) && v.stage == Some(st)
    ensures HandlerOk(WorkHandler(hd, st), v.(stage := WorkStage(hd, st, c)))
  {
    if hd.kind.Stream? {
      hide StreamOk, WorkStage;
      if hd.phase == Draining || hd.phase == Done { WorkKeepsStream(hd, v, st, c); }
    } else {
      WorkKeepsBlock(hd, v, st, c);
    }
  }

  /** A worker step keeps its handler's part of the invariant. */
  lemma WorkKeepsSubject(s: State, c: Choice)
    requires Inv(s) && Enabled(s, Work(c))
    ensures var s', h := Apply(s, Work(c)), s.worker.h;
      HandlerOk(s'.hs[h], ViewOf(s', h))
  {
    hide HandlerOk, WorkHandler, WorkStage, CanWork;
    var h := s.worker.h;
    WorkKeepsOk(s.hs[h], ViewOf(s, h), s.worker.stage, c);
    assert ViewOf(Apply(s, Work(c)), h) == ViewOf(s, h).(stage := WorkStage(s.hs[h], s.worker.stage, c));
  }

  /** Nothing follows the terminal event, so the first event of the queue is a token or the very last one. */
  lemma PopSplits(hd: Handler, v: View)
    requires hd.kind.Stream? && StreamOk(hd, v) && Tokens(hd.seen) && hd.chan.q != []
    ensures var e := hd.chan.q[0];
      && hd.seen + [e] + hd.chan.q[1..] == hd.sent
      && (e.Token? ==> Tokens(hd.seen + [e]))
      && (!e.Token? ==> hd.chan.q[1..] == [] && Complete(hd.sent))
  {
    var e := hd.chan.q[0];
    TokensGrow(hd.seen, e);
    assert hd.sent[|hd.seen|] == e;
  }

  lemma DrainKeepsSubject(s: State, h: nat, sendFails: bool)
    requires Inv(s) && Enabled(s, Drain(h, sendFails))
    ensures var s' := Apply(s, Drain(h, sendFails));
      HandlerOk(s'.hs[h], ViewOf(s', h))
    ensures s.hs[h].chan.q != []
  {
    var hd, v := s.hs[h], ViewOf(s, h);
    assert HandlerOk(hd, v);
    assert hd.chan.q == [] ==> hd.sent == hd.seen;
    PopSplits(hd, v);
  }

  lemma SubjectKeeps(s: State, a: Action)
    requires Inv(s) && Enabled(s, a)
    ensures HandlerOk(Apply(s, a).hs[Subject(s, a)], ViewOf(Apply(s, a), Subject(s, a)))
  {
    var h := Subject(s, a);
    assert HandlerOk(s.hs[h], ViewOf(s, h));
    match a
    case Work(c) => WorkKeepsSubject(s, c);
    case Drain(_, f) => DrainKeepsSubject(s, h, f);
    case _ =>
  }

  /** A queued request belongs to the mutex holder, which is already draining. */
  lemma QueuedHolderDrains(s: State)
    requires Inv(s)
    ensures |s.queue| > 0 ==> s.holder == Some(s.queue[0]) && s.hs[s.queue[0]].phase == Draining
  {
    if |s.queue| > 0 {
      var g := s.queue[0];
      assert g in s.queue;
      assert HandlerOk(s.hs[g], ViewOf(s, g));
    }
  }

  /** Every step of every thread keeps the invariant. */
  lemma {:induction false} StepKeepsInv(s: State, a: Action)
    requires Inv(s) && Enabled(s, a)
    ensures Inv(Apply(s, a)) && |Apply(s, a).hs| == |s.hs|
  {
    SubjectKeeps(s, a);
    var s', h := Apply(s, a), Subject(s, a);
    assert HandlerOk(s.hs[h], ViewOf(s, h));
    QueuedHolderDrains(s);
    forall g | 0 <= g < |s'.hs| ensures HandlerOk(s'.hs[g], ViewOf(s', g)) {
      if g != h {
        OthersUnchanged(s, a, g);
        assert HandlerOk(s.hs[g], ViewOf(s, g));
      }
    }
  }

  // ----- runs -----

  /** States reachable by performing the actions one after the other. */
  ghost predicate IsRun(ss: seq<State>, acts: seq<Action>) {
    && |ss| == |acts| + 1
    && forall i :: 0 <= i < |acts| ==> Enabled(ss[i], acts[i]) && ss[i + 1] == Apply(ss[i], acts[i])
  }

  lemma {:induction false} RunsKeepInv(ss: seq<State>, acts: seq<Action>, i: nat)
    requires IsRun(ss, acts) && Initial(ss[0]) && i < |ss|
    ensures Inv(ss[i]) && |ss[i].hs| == |ss[0].hs|
  {
    if i == 0 { InitialInv(ss[0]); } else {
      RunsKeepInv(ss, acts, i - 1);
      StepKeepsInv(ss[i - 1], acts[i - 1]);
    }
  }

  // ----- exclusive model access -----

  datatype Thread = HandlerThread(h: nat) | WorkerThread

  /** The thread is inside code that reads or writes the model: an inline handler under the mutex, the worker from
      the pop to the terminal event or result. */
  ghost predicate MayTouch(s: State, t: Thread) {
    match t
    case HandlerThread(h) => h < |s.hs| && s.hs[h].phase.Working?
    case WorkerThread => s.worker.Busy? && !s.worker.stage.Closing?
  }

  /** In every reachable state at most one thread touches the model, the mutex is held on its behalf, and the
      queue holds at most one request. */
  lemma {:induction false} ExclusiveModelAccess(ss: seq<State>, acts: seq<Action>, i: nat, a: Thread, b: Thread)
    requires IsRun(ss, acts) && Initial(ss[0]) && i < |ss|
    ensures MayTouch(ss[i], a) && MayTouch(ss[i], b) ==> a == b
    ensures MayTouch(ss[i], a)
      ==> ss[i].holder == Some(match a case HandlerThread(h) => h case WorkerThread => ss[i].worker.h)
    ensures |ss[i].queue| <= 1
  {
    RunsKeepInv(ss, acts, i);
    var s := ss[i];
    forall h | 0 <= h < |s.hs|
        && (s.hs[h].phase.Working? || (s.worker.Busy? && s.worker.h == h && !s.worker.stage.Closing?))
      ensures s.holder == Some(h)
    {
      assert HandlerOk(s.hs[h], ViewOf(s, h));
    }
    if s.worker.Busy? && !s.worker.stage.Closing? {
      assert HandlerOk(s.hs[s.worker.h], ViewOf(s, s.worker.h));
    }
  }

  /** A chat handler keeps the mutex until its request's last model access is done. */
  lemma {:induction false} MutexOutlivesRequest(ss: seq<State>, acts: seq<Action>, i: nat)
    requires IsRun(ss, acts) && Initial(ss[0]) && i < |acts|
    requires MayTouch(ss[i], WorkerThread) && MayTouch(ss[i + 1], WorkerThread)
    ensures ss[i].worker.h == ss[i + 1].worker.h && ss[i + 1].holder == ss[i].holder == Some(ss[i].worker.h)
  {
    ExclusiveModelAccess(ss, acts, i, WorkerThread, WorkerThread);
    ExclusiveModelAccess(ss, acts, i + 1, WorkerThread, WorkerThread);
  }

  // ----- the stream seen by the client -----

  /** At every moment the consumer has seen a prefix of what was accepted, the channel holds exactly the rest in
      order and never more than its capacity; when the handler is done it has seen TOKEN* and one FINISH or ERR. */
  lemma {:induction false} StreamDelivered(ss: seq<State>, acts: seq<Action>, i: nat, h: nat)
    requires IsRun(ss, acts) && Initial(ss[0]) && i < |ss| && h < |ss[0].hs|
    ensures h < |ss[i].hs|
    ensures var hd := ss[i].hs[h];
      hd.kind.Stream? ==>
        && hd.sent == hd.seen + hd.chan.q && |hd.chan.q| <= CAPACITY
        && (hd.phase != Done ==> Tokens(hd.seen))
        && (hd.phase == Done ==> hd.seen == hd.sent && Complete(hd.seen))
  {
    RunsKeepInv(ss, acts, i);
    assert HandlerOk(ss[i].hs[h], ViewOf(ss[i], h));
  }

  // ----- progress -----

  function Threshold(j: Job): nat { 5 * j.maxTokens }

  /** Steps the worker can still take for a request, tokens it can still push included. */
  function StageCost(k: Kind, st: Stage): nat {
    var m := if IsChat(k) then Threshold(k.job) else 0;
    match st
    case Begin => m + 10
    case Prefill => m + 9
    case Loop(left) => 5 * left + 8
    case Emit(_, left) => 5 * left + 7
    case Forward(left) => 5 * left + 5
    case Tail(_) => 7
    case FlushEmit(_, _) => 6
    case Terminal(_) => 4
    case Closing => 2
    case Resolve(_) => 3
  }

  /** Work left for handler h and its request. */
  function Cost(s: State, h: nat): nat
    requires h < |s.hs|
  {
    var hd := s.hs[h];
    var m := if IsChat(hd.kind) then Threshold(hd.kind.job) else 0;
    var stage := if s.worker.Busy? && s.worker.h == h then StageCost(hd.kind, s.worker.stage) else 0;
    match hd.phase
    case Waiting => if hd.kind.Inline? then hd.kind.work + 2 else m + 20
    case Working(n) => n + 1
    case Entered => m + 19
    case Draining => 1 + |hd.chan.q| + (if h in s.queue then m + 11 else stage)
    case Done => |hd.chan.q| + stage
  }

  function TotalCost(s: State, n: nat): nat
    requires n <= |s.hs|
  {
    if n == 0 then 0 else TotalCost(s, n - 1) + Cost(s, n - 1)
  }

  lemma {:induction false} TotalDrops(s: State, s': State, h: nat, n: nat)
    requires |s'.hs| == |s.hs| && h < |s.hs| && n <= |s.hs|
    requires forall g :: 0 <= g < |s.hs| && g != h ==> Cost(s', g) == Cost(s, g)
    requires Cost(s', h) < Cost(s, h)
    ensures if h < n then TotalCost(s', n) < TotalCost(s, n) else TotalCost(s', n) == TotalCost(s, n)
  {
    if n > 0 { TotalDrops(s, s', h, n - 1); }
  }

  lemma SubjectCostDrops(s: State, a: Action)
    requires Inv(s) && Enabled(s, a)
    ensures |Apply(s, a).hs| == |s.hs| && Cost(Apply(s, a), Subject(s, a)) < Cost(s, Subject(s, a))
  {
    match a
    case Work(c) => WorkSubjectCost(s, c);
    case PopWork => PopCost(s);
    case Drain(h, sendFails) => DrainCost(s, h, sendFails);
    case _ => OwnStepCost(s, a);
  }

  lemma PopCost(s: State)
    requires Inv(s) && Enabled(s, PopWork)
    ensures Cost(Apply(s, PopWork), s.queue[0]) < Cost(s, s.queue[0])
  {
    QueuedHolderDrains(s);
    assert HandlerOk(s.hs[s.queue[0]], ViewOf(s, s.queue[0]));
    assert Apply(s, PopWork).queue == [] && s.queue[0] in s.queue;
  }

  lemma DrainCost(s: State, h: nat, sendFails: bool)
    requires Inv(s) && Enabled(s, Drain(h, sendFails))
    ensures Cost(Apply(s, Drain(h, sendFails)), h) < Cost(s, h)
  {
    DrainKeepsSubject(s, h, sendFails);
    assert HandlerOk(s.hs[h], ViewOf(s, h));
    hide Inv;
  }

  /** The steps of a handler other than draining. */
  lemma OwnStepCost(s: State, a: Action)
    requires Inv(s) && Enabled(s, a) && !a.Work? && !a.PopWork? && !a.Drain?
    ensures Cost(Apply(s, a), Subject(s, a)) < Cost(s, Subject(s, a))
  {
    var h := Subject(s, a);
    assert HandlerOk(s.hs[h], ViewOf(s, h));
    hide Inv;
    if a.Submit? { assert h in Apply(s, a).queue; }
  }

  lemma WorkSubjectCost(s: State, c: Choice)
    requires Inv(s) && Enabled(s, Work(c))
    ensures Cost(Apply(s, Work(c)), s.worker.h) < Cost(s, s.worker.h)
  {
    var h, st := s.worker.h, s.worker.stage;
    var hd := s.hs[h];
    var s' := Apply(s, Work(c));
    assert HandlerOk(hd, ViewOf(s, h)) && ViewOf(s, h).stage == Some(st);
    WorkCostDrops(hd, st, c);
    hide WorkStage, WorkHandler, StageCost, HandlerOk, CanWork;
    assert s'.hs[h] == WorkHandler(hd, st) && s'.hs[h].phase == hd.phase && s'.hs[h].kind == hd.kind;
  }

  lemma WorkCostDrops(hd: Handler, st: Stage, c: Choice)
    requires IsChat(hd.kind) && CanWork(hd, st, c) && StageFits(hd.kind, st) && (hd.kind.Stream? ==> !hd.chan.closed)
    ensures var next := WorkStage(hd, st, c);
      |WorkHandler(hd, st).chan.q| + (if next.Some? then StageCost(hd.kind, next.value) else 0)
      < |hd.chan.q| + StageCost(hd.kind, st)
  {
  }

  /** Each step of each thread lowers the total cost, so every run is finite, whatever the schedule. */
  lemma StepLowersCost(s: State, a: Action)
    requires Inv(s) && Enabled(s, a)
    ensures |Apply(s, a).hs| == |s.hs| && TotalCost(Apply(s, a), |s.hs|) < TotalCost(s, |s.hs|)
  {
    SubjectCostDrops(s, a);
    var s', h := Apply(s, a), Subject(s, a);
    forall g | 0 <= g < |s.hs| && g != h ensures Cost(s', g) == Cost(s, g) {
      OthersUnchanged(s, a, g);
      OtherCostSame(s, s', g);
    }
    TotalDrops(s, s', h, |s.hs|);
  }

  lemma OtherCostSame(s: State, s': State, g: nat)
    requires g < |s.hs| == |s'.hs| && s'.hs[g] == s.hs[g] && ViewOf(s', g) == ViewOf(s, g)
    ensures Cost(s', g) == Cost(s, g)
  {
    assert ViewOf(s', g).queued == ViewOf(s, g).queued && ViewOf(s', g).stage == ViewOf(s, g).stage;
  }

  lemma {:induction false} RunsAreBounded(ss: seq<State>, acts: seq<Action>, i: nat)
    requires IsRun(ss, acts) && Initial(ss[0]) && i < |ss|
    ensures |ss[i].hs| == |ss[0].hs| && TotalCost(ss[i], |ss[0].hs|) + i <= TotalCost(ss[0], |ss[0].hs|)
  {
    RunsKeepInv(ss, acts, i);
    if i > 0 {
      RunsAreBounded(ss, acts, i - 1);
      RunsKeepInv(ss, acts, i - 1);
      StepLowersCost(ss[i - 1], acts[i - 1]);
    }
  }

  /** The choice with which the worker can always continue once its push has room. */
  function Continue(hd: Handler, st: Stage): Choice {
    match st
    case Loop(left) => if left > 0 && !hd.cancel then Go else Stop(false)
    case _ => Go
  }

  /** No in-flight request has both sides blocked: if the worker waits for room the channel is full and the
      handler can pop; if the handler waits for an event the worker can move. This holds after `cancel` too. */
  lemma {:induction false} NeverBothBlocked(s: State)
    requires Inv(s) && s.worker.Busy?
    ensures Enabled(s, Work(Continue(s.hs[s.worker.h], s.worker.stage))) || Enabled(s, Drain(s.worker.h, false))
  {
    var h := s.worker.h;
    assert HandlerOk(s.hs[h], ViewOf(s, h)) && ViewOf(s, h).stage == Some(s.worker.stage);
  }

  /** While some connection is not served, some thread can take a step. */
  lemma Progress(s: State, h: nat) returns (a: Action)
    requires Inv(s) && h < |s.hs| && s.hs[h].phase != Done
    ensures Enabled(s, a)
  {
    assert HandlerOk(s.hs[h], ViewOf(s, h));
    if s.worker.Busy? {
      NeverBothBlocked(s);
      var c := Continue(s.hs[s.worker.h], s.worker.stage);
      return if Enabled(s, Work(c)) then Work(c) else Drain(s.worker.h, false);
    }
    if |s.queue| > 0 {
      assert s.queue[0] in s.queue;
      return PopWork;
    }
    if s.holder.Some? {
      var g := s.holder.value;
      var hd := s.hs[g];
      assert HandlerOk(hd, ViewOf(s, g));
      match hd.phase
      case Working(n) => return if n > 0 then Touch(g) else Unlock(g);
      case Entered => return Submit(g);
      case Draining =>
        if hd.kind.Stream? { CompleteIsWaiting(hd, ViewOf(s, g)); return Drain(g, false); }
        return TakeResult(g);
    }
    return if s.hs[h].kind.Free? then ServeFree(h) else Lock(h);
  }

  lemma CompleteIsWaiting(hd: Handler, v: View)
    requires StreamOk(hd, v) && Tokens(hd.seen) && Complete(hd.sent)
    ensures CanPop(hd.chan)
  {
    assert hd.chan.q == [] ==> hd.sent == hd.seen;
  }

  /** Every schedule serves everybody: no run is longer than the initial cost, and a run that cannot be extended
      has answered every connection. */
  lemma {:induction false} EveryConnectionIsServed(ss: seq<State>, acts: seq<Action>)
    requires IsRun(ss, acts) && Initial(ss[0])
    ensures |acts| <= TotalCost(ss[0], |ss[0].hs|)
    ensures (forall a :: !Enabled(ss[|acts|], a)) ==>
      forall h :: 0 <= h < |ss[|acts|].hs| ==> ss[|acts|].hs[h].phase == Done
  {
    RunsAreBounded(ss, acts, |acts|);
    RunsKeepInv(ss, acts, |acts|);
    var s := ss[|acts|];
    forall h | 0 <= h < |s.hs| && s.hs[h].phase != Done ensures exists a :: Enabled(s, a) {
      var a := Progress(s, h);
      assert Enabled(s, a);
    }
  }
}
