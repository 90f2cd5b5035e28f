/**
 * The two in-process wake-up loops: `poll` and `kick` of the queue worker
 * (src/core/queue/postgresDriver.js) and `tick` and `kick` of the outbox
 * dispatcher (src/core/outbox/outbox.js). Each method runs from one await to
 * the next, so any interleaving of kicks, timers and awaits is a sequence of
 * calls. Requests are numbered, so "a scan that began after the request" is a
 * comparison of numbers.
 */
module WorkerLoop {
  import opened Common

  // -------------------------------------------------------- the queue loop

  datatype Stage = Idle | Sweeping | Claiming(limit: int)

  datatype Loop = Loop(
    concurrency: nat, inFlight: nat, kicked: bool, stopped: bool, stage: Stage,
    immediates: nat,  // setImmediate(poll) callbacks still to run
    requests: nat,    // wake-ups asked for so far
    passStart: nat,   // how many had been asked for when the latest pass began
    covered: nat)     // the same for the latest pass that asked for jobs with a free slot, or threw

  datatype LoopEvent =
    | Kick
    | TimerTick
    | Immediate
    | SweepDone(ok: bool)
    | ClaimDone(ok: bool, jobs: nat)
    | JobDone
    | Stop
    | Start

  predicate Possible(l: Loop, e: LoopEvent) {
    match e
    case Kick => true
    case TimerTick => !l.stopped
    case Immediate => l.immediates > 0
    case SweepDone(_) => l.stage == Sweeping
    case ClaimDone(_, jobs) => l.stage.Claiming? && jobs <= Max(0, l.stage.limit)
    case JobDone => l.inFlight > 0
    case Stop => true
    case Start => l.stopped
  }

  function Kicked(l: Loop): Loop {
    if l.stopped then l else l.(immediates := l.immediates + 1, requests := l.requests + 1)
  }

  function Polled(l: Loop): Loop {
    if l.stopped || l.stage != Idle then l.(kicked := !l.stopped)
    else l.(stage := Sweeping, kicked := false, passStart := l.requests)
  }

  function PassEnded(l: Loop): Loop {
    l.(stage := Idle, immediates := if l.kicked then l.immediates + 1 else l.immediates)
  }

  function LoopStep(l: Loop, e: LoopEvent): Loop
    requires Possible(l, e)
  {
    match e
    case Kick => Kicked(l)
    case TimerTick => Polled(l.(requests := l.requests + 1))
    case Immediate => Polled(l.(immediates := l.immediates - 1))
    case SweepDone(ok) =>
      if ok then l.(stage := Claiming(l.concurrency - l.inFlight)) else PassEnded(l.(covered := l.passStart))
    case ClaimDone(ok, jobs) =>
      if ok then PassEnded(l.(inFlight := l.inFlight + jobs, covered := if l.stage.limit > 0 then l.passStart else l.covered))
      else PassEnded(l.(covered := l.passStart))
    case JobDone => Kicked(l.(inFlight := l.inFlight - 1))
    case Stop => l.(stopped := true)
    case Start => Kicked(l.(stopped := false))
  }

  /** A wake-up is on its way: an immediate is queued, or the pass in progress has been told to run again. */
  predicate Pending(l: Loop) {
    l.immediates > 0 || (l.stage != Idle && l.kicked)
  }

  predicate Counts(l: Loop) {
    && l.covered <= l.passStart <= l.requests
    && l.inFlight + (if l.stage.Claiming? then Max(0, l.stage.limit) else 0) <= l.concurrency
  }

  predicate LoopInv(l: Loop) {
    && Counts(l)
    && (!l.stopped ==>
          && (l.requests > l.passStart ==> Pending(l))
          && (l.passStart > l.covered ==> l.inFlight == l.concurrency || l.stage != Idle || Pending(l))
          && (l.stage.Claiming? && l.stage.limit <= 0 ==> l.inFlight == l.concurrency || Pending(l)))
  }

  predicate LoopInit(l: Loop) {
    l.inFlight == 0 && l.stage == Idle && l.stopped && l.immediates == 0 && l.requests == 0 && l.passStart == 0 && l.covered == 0
  }

  ghost predicate LoopRun(states: seq<Loop>, events: seq<LoopEvent>) {
    && |states| == |events| + 1 && LoopInit(states[0])
    && forall i :: 0 <= i < |events| ==> Possible(states[i], events[i]) && states[i + 1] == LoopStep(states[i], events[i])
  }

  lemma LoopStepKeepsInv(l: Loop, e: LoopEvent)
    requires LoopInv(l) && Possible(l, e)
    ensures LoopInv(LoopStep(l, e)) && LoopStep(l, e).concurrency == l.concurrency
  {
  }

  lemma {:induction false} LoopInvAlways(states: seq<Loop>, events: seq<LoopEvent>, i: nat)
    requires LoopRun(states, events) && i < |states|
    ensures LoopInv(states[i]) && states[i].concurrency == states[0].concurrency
  {
    if i > 0 {
      LoopInvAlways(states, events, i - 1);
      assert Possible(states[i - 1], events[i - 1]);
      LoopStepKeepsInv(states[i - 1], events[i - 1]);
    }
  }

  // ------------------------------------------ what the events alone say

  /** The handlers that run after these events: the claimed jobs, less those done. */
  function Handlers(events: seq<LoopEvent>): int {
    if events == [] then 0
    else
      var before := Handlers(events[..|events| - 1]);
      match events[|events| - 1]
      case ClaimDone(ok, jobs) => if ok then before + jobs else before
      case JobDone => before - 1
      case _ => before
  }

  /** Whether `start` came after the latest `stop`. */
  predicate Started(events: seq<LoopEvent>) {
    if events == [] then false
    else
      match events[|events| - 1]
      case Start => true
      case Stop => false
      case _ => Started(events[..|events| - 1])
  }

  /** Action `j` asks a started loop to look for work: `kick`, the timer, the end of a job or `start`. */
  predicate Asks(events: seq<LoopEvent>, j: nat)
    requires j < |events|
  {
    Started(events[..j + 1]) && (events[j].Kick? || events[j].TimerTick? || events[j].JobDone? || events[j].Start?)
  }

  /** Event `k` begins a pass. */
  predicate Begins(states: seq<Loop>, k: nat)
    requires k + 1 < |states|
  {
    states[k].stage == Idle && states[k + 1].stage == Sweeping
  }

  /** At event `m` a pass has asked for as many jobs as there were free slots, at least one; or it throws. */
  predicate Asked(states: seq<Loop>, events: seq<LoopEvent>, m: nat)
    requires m < |events| && m < |states|
  {
    match events[m]
    case SweepDone(ok) => !ok
    case ClaimDone(ok, _) => ok ==> states[m].stage.Claiming? && states[m].stage.limit > 0
    case _ => false
  }

  lemma {:induction false} EventsTell(states: seq<Loop>, events: seq<LoopEvent>, i: nat)
    requires LoopRun(states, events) && i < |states|
    ensures states[i].inFlight == Handlers(events[..i]) && (states[i].stopped <==> !Started(events[..i]))
  {
    if i > 0 {
      EventsTell(states, events, i - 1);
      assert events[..i][..i - 1] == events[..i - 1] && Possible(states[i - 1], events[i - 1]);
    }
  }

  /** As many jobs are counted in flight as handlers run, and never more run than the concurrency. */
  lemma InFlightIsBounded(states: seq<Loop>, events: seq<LoopEvent>, i: nat)
    requires LoopRun(states, events) && i < |states|
    ensures states[i].inFlight == Handlers(events[..i]) && Handlers(events[..i]) <= states[0].concurrency
  {
    LoopInvAlways(states, events, i);
    EventsTell(states, events, i);
  }

  /** Once the sweep is done the claim asks for just the slots left free. */
  lemma ClaimsFillTheSlots(states: seq<Loop>, events: seq<LoopEvent>, m: nat)
    requires LoopRun(states, events) && m < |events| && events[m] == SweepDone(true)
    ensures states[m + 1].stage == Claiming(states[0].concurrency - Handlers(events[..m]))
  {
    LoopInvAlways(states, events, m);
    EventsTell(states, events, m);
    assert Possible(states[m], events[m]);
  }

  lemma AskingCounts(states: seq<Loop>, events: seq<LoopEvent>, j: nat)
    requires LoopRun(states, events) && j < |events| && Asks(events, j)
    ensures states[j].passStart <= states[j].requests < states[j + 1].requests && states[j].covered <= states[j].requests
  {
    LoopInvAlways(states, events, j);
    EventsTell(states, events, j);
    EventsTell(states, events, j + 1);
    assert Possible(states[j], events[j]);
  }

  /** When `passStart` has risen to `n` a pass has begun. */
  lemma {:induction false} PassBegan(states: seq<Loop>, events: seq<LoopEvent>, j: nat, i: nat, n: nat) returns (k: nat)
    requires LoopRun(states, events) && j <= i < |states| && states[j].passStart < n <= states[i].passStart
    ensures j <= k < i && Begins(states, k)
    decreases i
  {
    assert Possible(states[i - 1], events[i - 1]);
    if states[i - 1].passStart >= n {
      k := PassBegan(states, events, j, i - 1, n);
    } else {
      k := i - 1;
    }
  }

  lemma {:induction false} PassAsked(states: seq<Loop>, events: seq<LoopEvent>, j: nat, i: nat, n: nat) returns (m: nat)
    requires LoopRun(states, events) && j <= i < |states| && states[j].covered < n <= states[i].covered
    ensures j <= m < i && Asked(states, events, m) && states[m].passStart >= n
    decreases i
  {
    assert Possible(states[i - 1], events[i - 1]);
    if states[i - 1].covered >= n {
      m := PassAsked(states, events, j, i - 1, n);
    } else {
      m := i - 1;
    }
  }

  /**
   * No lost wake-up: when the started loop is idle with nothing scheduled, a pass
   * began at or after every event that asked for one; and while a slot is free,
   * such a pass asked for jobs with a slot free, unless it threw.
   */
  lemma NoLostWakeUp(states: seq<Loop>, events: seq<LoopEvent>, j: nat, i: nat)
    requires LoopRun(states, events) && j < i < |states| && Asks(events, j)
    requires Started(events[..i]) && states[i].stage == Idle && states[i].immediates == 0
    ensures exists k :: j <= k < i && Begins(states, k)
    ensures Handlers(events[..i]) < states[0].concurrency ==>
      exists k, m {:trigger Begins(states, k), Asked(states, events, m)} :: j <= k < m < i && Begins(states, k) && Asked(states, events, m)
  {
    LoopInvAlways(states, events, i);
    EventsTell(states, events, i);
    RequestsGrow(states, events, j + 1, i);
    AskingCounts(states, events, j);
    var n := states[j + 1].requests;
    var k := PassBegan(states, events, j, i, n);
    if Handlers(events[..i]) < states[0].concurrency {
      var m := PassAsked(states, events, j, i, n);
      k := PassBegan(states, events, j, m, n);
    }
  }

  lemma {:induction false} RequestsGrow(states: seq<Loop>, events: seq<LoopEvent>, j: nat, i: nat)
    requires LoopRun(states, events) && j <= i < |states|
    ensures states[j].requests <= states[i].requests
    decreases i
  {
    if j < i {
      assert Possible(states[i - 1], events[i - 1]);
      RequestsGrow(states, events, j, i - 1);
    }
  }

  /** A stopped loop begins no pass. */
  lemma StoppedBeginsNothing(states: seq<Loop>, events: seq<LoopEvent>, k: nat)
    requires LoopRun(states, events) && k < |events| && !Started(events[..k])
    ensures !Begins(states, k)
  {
    EventsTell(states, events, k);
    assert Possible(states[k], events[k]);
  }

  /** The module state of the driver that `poll` and `kick` share, between two awaits. */
  class PollLoop {
    const concurrency: nat
    var inFlight: nat
    var polling: bool
    var kicked: bool
    var stopped: bool
    var immediates: nat
    ghost var stage: Stage
    ghost var requests: nat
    ghost var passStart: nat
    ghost var covered: nat

    ghost function State(): Loop
      reads this
    {
      Loop(concurrency, inFlight, kicked, stopped, stage, immediates, requests, passStart, covered)
    }

    ghost predicate Valid()
      reads this
    {
      LoopInv(State()) && (polling <==> stage != Idle)
    }

    constructor (concurrency: nat)
      ensures Valid() && LoopInit(State()) && this.concurrency == concurrency
    {
      this.concurrency := concurrency;
      inFlight, polling, kicked, stopped, immediates := 0, false, false, true, 0;
      stage, requests, passStart, covered := Idle, 0, 0, 0;
    }

    method Kick()
      requires Valid()
      modifies this
      ensures Valid() && State() == LoopStep(old(State()), LoopEvent.Kick)
    {
      if stopped { return; }
      immediates := immediates + 1;
      requests := requests + 1;
    }

    /** `poll` up to its first await: whatever was asked for before it, nothing is lost after it. */
    method Poll()
      requires Counts(State()) && (polling <==> stage != Idle)
      modifies this
      ensures Valid() && State() == Polled(old(State()))
    {
      if stopped || polling {
        kicked := !stopped;
        return;
      }
      polling := true;
      kicked := false;
      stage, passStart := Sweeping, requests;
    }

    method OnTimer()
      requires Valid() && !stopped
      modifies this
      ensures Valid() && State() == LoopStep(old(State()), TimerTick)
    {
      LoopStepKeepsInv(State(), TimerTick);
      requests := requests + 1;
      Poll();
    }

    method OnImmediate()
      requires Valid() && immediates > 0
      modifies this
      ensures Valid() && State() == LoopStep(old(State()), Immediate)
    {
      LoopStepKeepsInv(State(), Immediate);
      immediates := immediates - 1;
      Poll();
    }

    /** The `finally` of `poll`: what was asked for, or could not be covered, during the pass must have left a mark. */
    method EndPass()
      requires covered <= passStart <= requests && inFlight <= concurrency
      requires !stopped && requests > passStart ==> immediates > 0 || kicked
      requires !stopped && passStart > covered ==> immediates > 0 || kicked || inFlight == concurrency
      modifies this
      ensures Valid() && State() == PassEnded(old(State()))
    {
      polling := false;
      stage := Idle;
      if kicked { immediates := immediates + 1; }
    }

    /** After `releaseStale`: the claim asks for as many jobs as there are free slots now. */
    method OnSwept(ok: bool) returns (limit: int)
      requires Valid() && stage == Sweeping
      modifies this
      ensures Valid() && State() == LoopStep(old(State()), SweepDone(ok))
      ensures ok ==> limit == concurrency - inFlight
    {
      LoopStepKeepsInv(State(), SweepDone(ok));
      limit := concurrency - inFlight;
      if ok {
        stage := Claiming(limit);
      } else {
        covered := passStart;
        EndPass();
      }
    }

    /** After `claim`: one run starts per job. */
    method OnClaimed(ok: bool, jobs: nat)
      requires Valid() && stage.Claiming? && jobs <= Max(0, stage.limit)
      modifies this
      ensures Valid() && State() == LoopStep(old(State()), ClaimDone(ok, jobs))
    {
      LoopStepKeepsInv(State(), ClaimDone(ok, jobs));
      if ok {
        var started := 0;
        while started < jobs
          invariant started <= jobs
          invariant State() == old(State()).(inFlight := old(inFlight) + started) && polling == old(polling)
        {
          inFlight := inFlight + 1;
          started := started + 1;
        }
        covered := if stage.limit > 0 then passStart else covered;
      } else {
        covered := passStart;
      }
      EndPass();
    }

    method OnJobDone()
      requires Valid() && inFlight > 0
      modifies this
      ensures Valid() && State() == LoopStep(old(State()), JobDone)
    {
      LoopStepKeepsInv(State(), JobDone);
      inFlight := inFlight - 1;
      if !stopped {
        immediates := immediates + 1;
        requests := requests + 1;
      }
    }

    method Stop()
      requires Valid()
      modifies this
      ensures Valid() && State() == LoopStep(old(State()), LoopEvent.Stop)
    {
      stopped := true;
    }

    method Start()
      requires Valid() && stopped
      modifies this
      ensures Valid() && State() == LoopStep(old(State()), LoopEvent.Start)
    {
      LoopStepKeepsInv(State(), LoopEvent.Start);
      stopped := false;
      immediates := immediates + 1;
      requests := requests + 1;
    }
  }

  // ------------------------------------------------------- the outbox loop

  const BATCH := 100

  datatype Dispatcher = Dispatcher(
    dispatching: bool, again: bool, running: bool,  // running: the interval timer is set
    immediates: nat, requests: nat, passStart: nat)

  datatype DispatchEvent =
    | Wake
    | Interval
    | RunImmediate
    | BatchDone(moved: nat)
    | BatchFailed
    | StartTimer
    | StopTimer

  predicate CanHappen(d: Dispatcher, e: DispatchEvent) {
    match e
    case Interval => d.running
    case RunImmediate => d.immediates > 0
    case BatchDone(moved) => d.dispatching && moved <= BATCH
    case BatchFailed => d.dispatching
    case _ => true
  }

  function Woken(d: Dispatcher): Dispatcher {
    if d.running then d.(immediates := d.immediates + 1, requests := d.requests + 1) else d
  }

  function Ticked(d: Dispatcher): Dispatcher {
    if d.dispatching then d.(again := true)
    else d.(dispatching := true, again := false, passStart := d.requests)
  }

  function TickEnded(d: Dispatcher): Dispatcher {
    d.(dispatching := false, immediates := if d.again && d.running then d.immediates + 1 else d.immediates)
  }

  function DispatchStep(d: Dispatcher, e: DispatchEvent): Dispatcher
    requires CanHappen(d, e)
  {
    match e
    case Wake => Woken(d)
    case Interval => Ticked(d.(requests := d.requests + 1))
    case RunImmediate => Ticked(d.(immediates := d.immediates - 1))
    case BatchDone(moved) => if moved == BATCH then d else TickEnded(d)
    case BatchFailed => TickEnded(d)
    case StartTimer => if d.running then d else Woken(d.(running := true))
    case StopTimer => d.(running := false)
  }

  predicate DispatchInv(d: Dispatcher) {
    && d.passStart <= d.requests
    && (d.running && d.requests > d.passStart ==> d.immediates > 0 || (d.dispatching && d.again))
  }

  ghost predicate DispatchRun(states: seq<Dispatcher>, events: seq<DispatchEvent>) {
    && |states| == |events| + 1 && states[0] == Dispatcher(false, false, false, 0, 0, 0)
    && forall i :: 0 <= i < |events| ==> CanHappen(states[i], events[i]) && states[i + 1] == DispatchStep(states[i], events[i])
  }

  lemma {:induction false} DispatchInvAlways(states: seq<Dispatcher>, events: seq<DispatchEvent>, i: nat)
    requires DispatchRun(states, events) && i < |states|
    ensures DispatchInv(states[i])
  {
    if i > 0 {
      DispatchInvAlways(states, events, i - 1);
      assert CanHappen(states[i - 1], events[i - 1]);
    }
  }

  /** Whether the dispatcher was started after it was last stopped. */
  predicate TimerSet(events: seq<DispatchEvent>) {
    if events == [] then false
    else
      match events[|events| - 1]
      case StartTimer => true
      case StopTimer => false
      case _ => TimerSet(events[..|events| - 1])
  }

  /** Event `j` asks a running dispatcher to look for events: `kick`, the interval, or `startDispatcher` where it did not run. */
  predicate AsksDispatch(events: seq<DispatchEvent>, j: nat)
    requires j < |events|
  {
    match events[j]
    case Wake => TimerSet(events[..j])
    case Interval => true
    case StartTimer => !TimerSet(events[..j])
    case _ => false
  }

  predicate BeginsDispatch(states: seq<Dispatcher>, k: nat)
    requires k + 1 < |states|
  {
    !states[k].dispatching && states[k + 1].dispatching
  }

  lemma {:induction false} TimerTells(states: seq<Dispatcher>, events: seq<DispatchEvent>, i: nat)
    requires DispatchRun(states, events) && i < |states|
    ensures states[i].running <==> TimerSet(events[..i])
  {
    if i > 0 {
      TimerTells(states, events, i - 1);
      assert events[..i][..i - 1] == events[..i - 1] && CanHappen(states[i - 1], events[i - 1]);
    }
  }

  lemma {:induction false} DispatchBegan(states: seq<Dispatcher>, events: seq<DispatchEvent>, j: nat, i: nat, n: nat) returns (k: nat)
    requires DispatchRun(states, events) && j <= i < |states| && states[j].passStart < n <= states[i].passStart
    ensures j <= k < i && BeginsDispatch(states, k)
    decreases i
  {
    assert CanHappen(states[i - 1], events[i - 1]);
    if states[i - 1].passStart >= n {
      k := DispatchBegan(states, events, j, i - 1, n);
    } else {
      k := i - 1;
    }
  }

  lemma {:induction false} DispatchRequestsGrow(states: seq<Dispatcher>, events: seq<DispatchEvent>, j: nat, i: nat)
    requires DispatchRun(states, events) && j <= i < |states|
    ensures states[j].requests <= states[i].requests
    decreases i
  {
    if j < i {
      assert CanHappen(states[i - 1], events[i - 1]);
      DispatchRequestsGrow(states, events, j, i - 1);
    }
  }

  /** Whenever the running dispatcher is idle with nothing scheduled, a dispatch began at or after every event that asked for one. */
  lemma NoLostDispatch(states: seq<Dispatcher>, events: seq<DispatchEvent>, j: nat, i: nat)
    requires DispatchRun(states, events) && j < i < |states| && AsksDispatch(events, j)
    requires TimerSet(events[..i]) && !states[i].dispatching && states[i].immediates == 0
    ensures exists k :: j <= k < i && BeginsDispatch(states, k)
  {
    TimerTells(states, events, i);
    TimerTells(states, events, j);
    DispatchInvAlways(states, events, i);
    DispatchInvAlways(states, events, j);
    assert CanHappen(states[j], events[j]);
    DispatchRequestsGrow(states, events, j + 1, i);
    var k := DispatchBegan(states, events, j, i, states[j + 1].requests);
  }

  /** A dispatch goes on exactly while full batches come back. */
  lemma DispatchGoesOn(states: seq<Dispatcher>, events: seq<DispatchEvent>, k: nat)
    requires DispatchRun(states, events) && k < |events| && states[k].dispatching
    ensures states[k + 1].dispatching <==> events[k] != BatchFailed && (events[k].BatchDone? ==> events[k].moved == 100)
  {
    assert CanHappen(states[k], events[k]);
  }

  /** The module state `tick` and `kick` of the outbox share, between two awaits. */
  class DispatchLoop {
    var dispatching: bool
    var again: bool
    var running: bool
    var immediates: nat
    ghost var requests: nat
    ghost var passStart: nat

    ghost function State(): Dispatcher
      reads this
    {
      Dispatcher(dispatching, again, running, immediates, requests, passStart)
    }

    ghost predicate Valid()
      reads this
    {
      DispatchInv(State())
    }

    constructor ()
      ensures Valid() && State() == Dispatcher(false, false, false, 0, 0, 0)
    {
      dispatching, again, running, immediates := false, false, false, 0;
      requests, passStart := 0, 0;
    }

    method Kick()
      requires Valid()
      modifies this
      ensures Valid() && State() == DispatchStep(old(State()), Wake)
    {
      if running {
        immediates := immediates + 1;
        requests := requests + 1;
      }
    }

    /** `tick` up to its first await; `fromTimer` when the interval calls it, else a queued immediate does. */
    method Tick(fromTimer: bool)
      requires Valid() && (if fromTimer then running else immediates > 0)
      modifies this
      ensures Valid() && State() == DispatchStep(old(State()), if fromTimer then Interval else RunImmediate)
    {
      if fromTimer { requests := requests + 1; } else { immediates := immediates - 1; }
      if dispatching {
        again := true;
        return;
      }
      dispatching := true;
      again := false;
      passStart := requests;
    }

    /** One turn of the `while` in `tick`: a full batch asks for another one. */
    method OnBatch(ok: bool, moved: nat) returns (more: bool)
      requires Valid() && dispatching && moved <= BATCH
      modifies this
      ensures Valid() && State() == DispatchStep(old(State()), if ok then BatchDone(moved) else BatchFailed)
      ensures (more <==> ok && moved == BATCH) && (dispatching <==> more)
    {
      more := ok && moved == BATCH;
      if !more {
        dispatching := false;
        if again && running { immediates := immediates + 1; }
      }
    }

    method StartDispatcher()
      requires Valid()
      modifies this
      ensures Valid() && State() == DispatchStep(old(State()), StartTimer)
    {
      if running { return; }
      running := true;
      immediates := immediates + 1;
      requests := requests + 1;
    }

    method StopDispatcher()
      requires Valid()
      modifies this
      ensures Valid() && State() == DispatchStep(old(State()), StopTimer)
    {
      running := false;
    }
  }
}
