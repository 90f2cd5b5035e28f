/**
 * The event outbox on top of the job queue (src/core/outbox/outbox.js): events
 * are written with their business change, moved into the queue once, and fanned
 * out to one job per subscribed consumer. Any run may stop between any two
 * database steps and be tried again.
 */
module Outbox {
  import opened Common
  import opened QueueRows
  import opened QueueRuns

  type EventId = string

  /** `events` is None for a consumer of every event ('*'). */
  datatype Consumer = Consumer(name: string, queue: string, events: Option<set<string>>)

  // ------------------------------------------------------------ consumers

  predicate Subscribed(c: Consumer, eventType: string) {
    c.events.None? || eventType in c.events.value
  }

  function ConsumersFor(consumers: seq<Consumer>, eventType: string): seq<Consumer> {
    if consumers == [] then []
    else
      var rest := ConsumersFor(consumers[..|consumers| - 1], eventType);
      var last := consumers[|consumers| - 1];
      if Subscribed(last, eventType) then rest + [last] else rest
  }

  ghost predicate NamesDistinct(consumers: seq<Consumer>) {
    forall i, j :: 0 <= i < j < |consumers| ==> consumers[i].name != consumers[j].name
  }

  /** The consumers of an event are exactly the registered ones of every event and those that list its type, each once. */
  lemma {:induction false} ConsumersForIsSubscribed(consumers: seq<Consumer>, eventType: string)
    requires NamesDistinct(consumers)
    ensures forall c :: c in ConsumersFor(consumers, eventType) <==>
      c in consumers && (c.events == None || (exists listed :: c.events == Some(listed) && eventType in listed))
    ensures NamesDistinct(ConsumersFor(consumers, eventType))
  {
    if consumers != [] {
      var before, last := consumers[..|consumers| - 1], consumers[|consumers| - 1];
      assert consumers == before + [last];
      ConsumersForIsSubscribed(before, eventType);
      var rest := ConsumersFor(before, eventType);
      forall i | 0 <= i < |rest| ensures rest[i].name != last.name {
        assert rest[i] in before;
      }
    }
  }

  predicate Named(consumers: seq<Consumer>, name: string) {
    exists c :: c in consumers && c.name == name
  }

  /** Of `list`, in order, the consumers whose name neither `have` nor an earlier one of `list` has. */
  function NewOnes(have: seq<Consumer>, list: seq<Consumer>): seq<Consumer> {
    if list == [] then []
    else
      var earlier, last := list[..|list| - 1], list[|list| - 1];
      NewOnes(have, earlier) + if Named(have, last.name) || Named(earlier, last.name) then [] else [last]
  }

  lemma NamedAppend(a: seq<Consumer>, b: seq<Consumer>, name: string)
    ensures Named(a + b, name) <==> Named(a, name) || Named(b, name)
  {
    if Named(a, name) {
      var c :| c in a && c.name == name;
      assert c in a + b;
    }
    if Named(b, name) {
      var c :| c in b && c.name == name;
      assert c in a + b;
    }
  }

  /** Every name of `list` is taken afterwards, and no other new one. */
  lemma {:induction false} NamesTaken(have: seq<Consumer>, list: seq<Consumer>, name: string)
    ensures Named(have + NewOnes(have, list), name) <==> Named(have, name) || Named(list, name)
  {
    NamedAppend(have, NewOnes(have, list), name);
    if list != [] {
      var earlier, last := list[..|list| - 1], list[|list| - 1];
      assert list == earlier + [last];
      NamesTaken(have, earlier, name);
      NamedAppend(have, NewOnes(have, earlier), name);
      NamedAppend(earlier, [last], name);
      NamedAppend(NewOnes(have, earlier), [last], name);
      assert Named([last], name) <==> last.name == name by { assert last in [last]; }
    }
  }

  class Registry {
    var consumers: seq<Consumer>

    constructor ()
      ensures consumers == []
    {
      consumers := [];
    }

    /** Adds the consumers whose name is not taken yet, in order; the ones already there stay first. */
    method RegisterConsumers(list: seq<Consumer>)
      requires NamesDistinct(consumers)
      modifies this
      ensures NamesDistinct(consumers)
      ensures consumers == old(consumers) + NewOnes(old(consumers), list)
    {
      assert list[..0] == [];
      var i := 0;
      while i < |list|
        invariant 0 <= i <= |list|
        invariant NamesDistinct(consumers)
        invariant consumers == old(consumers) + NewOnes(old(consumers), list[..i])
      {
        NamesTaken(old(consumers), list[..i], list[i].name);
        assert list[..i + 1][..i] == list[..i];
        if !Named(consumers, list[i].name) {
          forall k | 0 <= k < |consumers| ensures consumers[k].name != list[i].name {
            assert consumers[k] in consumers;
          }
          consumers := consumers + [list[i]];
        }
        i := i + 1;
      }
      assert list[..i] == list;
    }
  }

  // ---------------------------------------------------------- dedupe keys

  const EVT := "evt:"

  function DispatchKey(e: EventId): string { EVT + e }

  function ConsumerKey(e: EventId, name: string): string { EVT + e + ":" + name }

  predicate EvtKey(key: string) { EVT <= key }

  function FirstColon(s: string): nat {
    if s == [] || s[0] == ':' then 0 else 1 + FirstColon(s[1..])
  }

  lemma {:induction false} FirstColonAfter(e: EventId, rest: string)
    requires ':' !in e
    ensures FirstColon(e + ":" + rest) == |e|
  {
    if e == "" {
      assert e + ":" + rest == ":" + rest;
    } else {
      assert (e + ":" + rest)[1..] == e[1..] + ":" + rest;
      FirstColonAfter(e[1..], rest);
    }
  }

  lemma ColonSplitsOnce(e1: EventId, e2: EventId, n1: string, n2: string)
    requires ':' !in e1 && ':' !in e2 && e1 + ":" + n1 == e2 + ":" + n2
    ensures e1 == e2 && n1 == n2
  {
    FirstColonAfter(e1, n1);
    FirstColonAfter(e2, n2);
    var s1, s2 := e1 + ":" + n1, e2 + ":" + n2;
    assert e1 == s1[..|e1|] && e2 == s2[..|e2|];
    assert n1 == s1[|e1| + 1..] && n2 == s2[|e2| + 1..];
  }

  /** Event ids hold no colon, so the keys of two events, or of two consumers of one event, never meet. */
  lemma KeysAreInjective(e1: EventId, e2: EventId, n1: string, n2: string)
    requires ':' !in e1 && ':' !in e2
    ensures DispatchKey(e1) == DispatchKey(e2) ==> e1 == e2
    ensures DispatchKey(e1) != ConsumerKey(e2, n2)
    ensures ConsumerKey(e1, n1) == ConsumerKey(e2, n2) ==> e1 == e2 && n1 == n2
    ensures EvtKey(DispatchKey(e1)) && EvtKey(ConsumerKey(e1, n1))
  {
    assert DispatchKey(e1)[|EVT|..] == e1 && DispatchKey(e2)[|EVT|..] == e2;
    assert ConsumerKey(e2, n2)[|EVT|..] == e2 + ":" + n2;
    assert ConsumerKey(e1, n1)[|EVT|..] == e1 + ":" + n1;
    assert (e2 + ":" + n2)[|e2|] == ':';
    if ConsumerKey(e1, n1) == ConsumerKey(e2, n2) {
      ColonSplitsOnce(e1, e2, n1, n2);
    }
  }

  // ---------------------------------------------------------------- steps

  datatype Event = Event(eventType: string, dispatched: bool, occurredAt: int)

  datatype System = System(q: Sys, events: map<EventId, Event>, progress: map<RunId, nat>)

  /** What is fixed while the system runs. */
  datatype Setup = Setup(cfg: Config, consumers: seq<Consumer>)

  const BATCH := 100

  datatype Step =
    | Queue(a: Action)                                        // any step of the queue that is not one of the next three
    | RecordEvent(e: EventId, eventType: string)
    | Dispatch(batch: seq<EventId>, ids: seq<JobId>, locked: set<EventId>)
    | FanOut(run: RunId, id: JobId)                           // one turn of the dispatch handler's loop

  predicate IsDispatchJob(job: Job) {
    job.queue == "events" && job.name == "dispatch"
  }

  function Fans(su: Setup, o: System, e: EventId): seq<Consumer>
    requires e in o.events
  {
    ConsumersFor(su.consumers, o.events[e].eventType)
  }

  function Done(o: System, r: RunId): nat {
    if r in o.progress then o.progress[r] else 0
  }

  /** The run `r` is running the dispatch handler of the event `rows[r.job].payload`. */
  predicate Dispatching(o: System, r: RunId) {
    r in o.q.runs && o.q.runs[r].phase == Running && r.job in o.q.rows && IsDispatchJob(o.q.rows[r.job])
    && o.q.rows[r.job].payload in o.events
  }

  ghost predicate BatchChoice(o: System, batch: seq<EventId>, locked: set<EventId>) {
    && |batch| <= BATCH
    && (forall i :: 0 <= i < |batch| ==> batch[i] in o.events && !o.events[batch[i]].dispatched && batch[i] !in locked)
    && (forall i, j :: 0 <= i < j < |batch| ==> batch[i] != batch[j] && o.events[batch[i]].occurredAt <= o.events[batch[j]].occurredAt)
    && (forall e :: e in o.events && !o.events[e].dispatched && e !in locked && e !in batch ==>
          |batch| == BATCH && forall i :: 0 <= i < |batch| ==> o.events[batch[i]].occurredAt <= o.events[e].occurredAt)
  }

  /** Ids never used before, each once. */
  predicate FreshIds(q: Sys, ids: seq<JobId>) {
    ids == [] || (var n := |ids| - 1; ids[n] !in q.hist && ids[n] !in q.rows && ids[n] !in ids[..n] && FreshIds(q, ids[..n]))
  }

  ghost predicate CanStep(su: Setup, o: System, st: Step) {
    match st
    case Queue(a) =>
      && Enabled(su.cfg, o.q, a)
      && !a.Prune?
      // other producers use other keys and other job names
      && (a.Add? ==> !(a.queue == "events" && a.name == "dispatch") && (a.key.Some? ==> !EvtKey(a.key.value)))
      // the dispatch handler returns only after its loop over the consumers
      && (a.End? && a.outcome.Success? && Dispatching(o, a.run) ==>
            Done(o, a.run) == |Fans(su, o, o.q.rows[a.run.job].payload)|)
    case RecordEvent(e, _) => e !in o.events && ':' !in e
    case Dispatch(batch, ids, locked) =>
      && "events" in su.cfg.policies
      && BatchChoice(o, batch, locked)
      && |ids| == |batch|
      && FreshIds(o.q, ids)
    case FanOut(r, id) =>
      && Dispatching(o, r)
      && Done(o, r) < |Fans(su, o, o.q.rows[r.job].payload)|
      && Fans(su, o, o.q.rows[r.job].payload)[Done(o, r)].queue in su.cfg.policies
      && id !in o.q.hist && id !in o.q.rows
  }

  function AddDispatchJob(cfg: Config, q: Sys, id: JobId, e: EventId): Sys
    requires "events" in cfg.policies
  {
    AfterAdd(cfg, q, id, "events", "dispatch", e, 0, Some(DispatchKey(e)))
  }

  /** The loop of `dispatchPending` over its batch. */
  function AddDispatchJobs(cfg: Config, q: Sys, batch: seq<EventId>, ids: seq<JobId>): Sys
    requires "events" in cfg.policies && |ids| == |batch|
  {
    if batch == [] then q
    else
      var n := |batch| - 1;
      AddDispatchJob(cfg, AddDispatchJobs(cfg, q, batch[..n], ids[..n]), ids[n], batch[n])
  }

  function AddConsumerJob(cfg: Config, q: Sys, id: JobId, e: EventId, c: Consumer): Sys
    requires c.queue in cfg.policies
  {
    AfterAdd(cfg, q, id, c.queue, "consume:" + c.name, e, 0, Some(ConsumerKey(e, c.name)))
  }

  function Marked(events: map<EventId, Event>, batch: seq<EventId>): map<EventId, Event> {
    map e | e in events :: if e in batch then events[e].(dispatched := true) else events[e]
  }

  ghost function StepTo(su: Setup, o: System, st: Step): System
    requires CanStep(su, o, st)
  {
    match st
    case Queue(a) => o.(q := Next(su.cfg, o.q, a))
    case RecordEvent(e, eventType) => o.(events := o.events[e := Event(eventType, false, o.q.now)])
    case Dispatch(batch, ids, _) =>
      // one transaction: the jobs and the marks commit together
      o.(q := AddDispatchJobs(su.cfg, o.q, batch, ids),
         events := Marked(o.events, batch))
    case FanOut(r, id) =>
      var e := o.q.rows[r.job].payload;
      o.(q := AddConsumerJob(su.cfg, o.q, id, e, Fans(su, o, e)[Done(o, r)]),
         progress := o.progress[r := Done(o, r) + 1])
  }

  ghost predicate OutboxRun(su: Setup, states: seq<System>, steps: seq<Step>) {
    && NamesDistinct(su.consumers)
    && |states| == |steps| + 1
    && Init(states[0].q) && states[0].events == map[] && states[0].progress == map[]
    && forall i :: 0 <= i < |steps| ==> CanStep(su, states[i], steps[i]) && states[i + 1] == StepTo(su, states[i], steps[i])
  }

  // ------------------------------------------------------------ invariant

  /** Why a job with an event's key is in the queue: its payload names the event. */
  ghost predicate Explained(su: Setup, o: System, job: Job) {
    && job.payload in o.events
    && (DispatchOf(o, job) || exists i :: ConsumerJobOf(su, o, job, i))
  }

  predicate DispatchOf(o: System, job: Job)
    requires job.payload in o.events
  {
    job.dedupeKey == Some(DispatchKey(job.payload)) && IsDispatchJob(job) && o.events[job.payload].dispatched
  }

  predicate ConsumerJobOf(su: Setup, o: System, job: Job, i: int)
    requires job.payload in o.events
  {
    var fans := Fans(su, o, job.payload);
    0 <= i < |fans| && job.dedupeKey == Some(ConsumerKey(job.payload, fans[i].name))
    && job.queue == fans[i].queue && job.name == "consume:" + fans[i].name
  }

  predicate FannedOut(su: Setup, o: System, e: EventId, i: int)
    requires e in o.events
  {
    var fans := Fans(su, o, e);
    0 <= i < |fans| ==> KeyTaken(o.q.rows, ConsumerKey(e, fans[i].name))
  }

  ghost predicate FannedOutTo(su: Setup, o: System, e: EventId, n: nat)
    requires e in o.events
  {
    forall i {:trigger FannedOut(su, o, e, i)} :: 0 <= i < n ==> FannedOut(su, o, e, i)
  }

  ghost predicate JobExplained(su: Setup, o: System, id: JobId)
    requires id in o.q.rows
  {
    var job := o.q.rows[id];
    && (job.dedupeKey.Some? && EvtKey(job.dedupeKey.value) ==> Explained(su, o, job))
    && (IsDispatchJob(job) ==> job.payload in o.events)
    && (IsDispatchJob(job) && job.status == Completed ==> FannedOutTo(su, o, job.payload, |Fans(su, o, job.payload)|))
  }

  ghost predicate RunExplained(su: Setup, o: System, r: RunId)
    requires r in o.q.runs
  {
    && r.job in o.q.rows
    && (IsDispatchJob(o.q.rows[r.job]) && o.q.rows[r.job].payload in o.events ==>
          var e := o.q.rows[r.job].payload;
          && Done(o, r) <= |Fans(su, o, e)| && FannedOutTo(su, o, e, Done(o, r))
          && (o.q.runs[r].phase == Settling(Success) ==> FannedOutTo(su, o, e, |Fans(su, o, e)|)))
  }

  ghost predicate EventQueued(o: System, e: EventId)
    requires e in o.events
  {
    ':' !in e && (o.events[e].dispatched ==> KeyTaken(o.q.rows, DispatchKey(e)))
  }

  ghost predicate OutboxInv(su: Setup, o: System) {
    && Inv(su.cfg, o.q)
    && (forall id {:trigger JobExplained(su, o, id)} :: id in o.q.rows ==> JobExplained(su, o, id))
    && (forall r {:trigger RunExplained(su, o, r)} :: r in o.q.runs ==> RunExplained(su, o, r))
    && (forall e {:trigger EventQueued(o, e)} :: e in o.events ==> EventQueued(o, e))
  }

  /** `rows'` has every row of `rows`, each the same job. */
  ghost predicate Extends(rows: Rows, rows': Rows) {
    forall id {:trigger id in rows'} :: id in rows ==>
      && id in rows' && rows'[id].queue == rows[id].queue && rows'[id].name == rows[id].name
      && rows'[id].payload == rows[id].payload && rows'[id].dedupeKey == rows[id].dedupeKey
  }

  lemma KeysStay(rows: Rows, rows': Rows, key: string)
    requires Extends(rows, rows') && KeyTaken(rows, key)
    ensures KeyTaken(rows', key)
  {
    var id :| id in rows && rows[id].dedupeKey == Some(key);
    assert id in rows' && rows'[id].dedupeKey == Some(key);
  }

  /** Rows only added, events only added or marked: what was fanned out stays so. */
  predicate EventsGrow(o: System, o': System) {
    forall e {:trigger e in o'.events} :: e in o.events ==>
      && e in o'.events && o'.events[e].eventType == o.events[e].eventType && (o.events[e].dispatched ==> o'.events[e].dispatched)
  }

  lemma FannedOutStays(su: Setup, o: System, o': System, e: EventId, n: nat)
    requires Extends(o.q.rows, o'.q.rows) && EventsGrow(o, o') && e in o.events && e in o'.events && FannedOutTo(su, o, e, n)
    ensures FannedOutTo(su, o', e, n)
  {
    forall i | 0 <= i < n ensures FannedOut(su, o', e, i) {
      assert FannedOut(su, o, e, i);
      var fans := Fans(su, o, e);
      if i < |fans| { KeysStay(o.q.rows, o'.q.rows, ConsumerKey(e, fans[i].name)); }
    }
  }

  lemma JobStaysExplained(su: Setup, o: System, o': System, id: JobId)
    requires Extends(o.q.rows, o'.q.rows) && EventsGrow(o, o')
    requires id in o.q.rows && id in o'.q.rows && JobExplained(su, o, id)
    requires o'.q.rows[id].status == Completed && IsDispatchJob(o.q.rows[id]) ==>
      o.q.rows[id].payload in o.events && FannedOutTo(su, o, o.q.rows[id].payload, |Fans(su, o, o.q.rows[id].payload)|)
    ensures JobExplained(su, o', id)
  {
    var job, job' := o.q.rows[id], o'.q.rows[id];
    assert job.payload in o.events ==> job.payload in o'.events;
    if job.dedupeKey.Some? && EvtKey(job.dedupeKey.value) && !DispatchOf(o, job) {
      var i :| ConsumerJobOf(su, o, job, i);
      assert ConsumerJobOf(su, o', job', i);
    }
    if IsDispatchJob(job) && job'.status == Completed {
      FannedOutStays(su, o, o', job.payload, |Fans(su, o, job.payload)|);
    }
  }

  lemma RunStaysExplained(su: Setup, o: System, o': System, r: RunId)
    requires Extends(o.q.rows, o'.q.rows) && EventsGrow(o, o')
    requires r in o.q.runs && r in o'.q.runs && RunExplained(su, o, r)
    requires IsDispatchJob(o.q.rows[r.job]) ==> o.q.rows[r.job].payload in o.events
    requires Done(o', r) == Done(o, r)
    requires o'.q.runs[r].phase == Settling(Success) ==> o.q.runs[r].phase == Settling(Success)
    ensures RunExplained(su, o', r)
  {
    var job := o.q.rows[r.job];
    if IsDispatchJob(job) {
      FannedOutStays(su, o, o', job.payload, Done(o, r));
      if o'.q.runs[r].phase == Settling(Success) { FannedOutStays(su, o, o', job.payload, |Fans(su, o, job.payload)|); }
    }
  }

  lemma EventsStayQueued(o: System, o': System, e: EventId)
    requires Extends(o.q.rows, o'.q.rows) && e in o.events && e in o'.events && EventQueued(o, e)
    requires o'.events[e] == o.events[e]
    ensures EventQueued(o', e)
  {
    if o.events[e].dispatched { KeysStay(o.q.rows, o'.q.rows, DispatchKey(e)); }
  }

  // -------------------------------------------------- each step keeps it

  lemma QueueStepExtends(cfg: Config, q: Sys, a: Action)
    requires Inv(cfg, q) && Enabled(cfg, q, a) && !a.Prune?
    ensures Extends(q.rows, Next(cfg, q, a).rows)
  {
    var rows' := Next(cfg, q, a).rows;
    forall id | id in q.rows
      ensures id in rows' && rows'[id].queue == q.rows[id].queue && rows'[id].name == q.rows[id].name
      ensures rows'[id].payload == q.rows[id].payload && rows'[id].dedupeKey == q.rows[id].dedupeKey
    {
      RowsNotPruned(cfg, q, a, id);
      var ch := StepIsJobStep(cfg, q, a, id);
    }
  }

  lemma RowsNotPruned(cfg: Config, q: Sys, a: Action, id: JobId)
    requires Enabled(cfg, q, a) && !a.Prune? && id in q.rows
    ensures id in Next(cfg, q, a).rows
  {
  }

  /** A job becomes completed only when a successful run that settled on it records its outcome. */
  lemma CompletedByItsRun(cfg: Config, q: Sys, a: Action, id: JobId)
    requires Inv(cfg, q) && Enabled(cfg, q, a) && !a.Prune? && id in q.rows
    ensures id in Next(cfg, q, a).rows
    ensures Next(cfg, q, a).rows[id].status == Completed ==>
      q.rows[id].status == Completed ||
      (a.Record? && a.run in q.runs && a.run.job == id && q.runs[a.run].phase == Settling(Success))
  {
    RowsNotPruned(cfg, q, a, id);
    var ch := StepIsJobStep(cfg, q, a, id);
  }

  /** The runs after a step: the old ones, settling on success only through `End`, and the ones just claimed. */
  lemma RunsAfter(cfg: Config, q: Sys, a: Action, r: RunId)
    requires Inv(cfg, q) && Enabled(cfg, q, a) && r in Next(cfg, q, a).runs
    ensures r in q.runs ==> Next(cfg, q, a).runs[r].phase == Settling(Success) ==>
      q.runs[r].phase == Settling(Success) || (a == End(r, Success) && q.runs[r].phase == Running)
    ensures r !in q.runs ==> a.Claim? && r.job in q.rows && Next(cfg, q, a).runs[r].phase == Taken
                             && r.job in q.hist && r.index == |q.hist[r.job]|
  {
    if a.Claim? && r in q.runs {
      assert RunInv(cfg, q, r);
      assert r !in NewRuns(q, a.chosen);
    }
  }

  lemma QueueStepKeepsRuns(su: Setup, o: System, a: Action, r: RunId)
    requires OutboxInv(su, o) && CanStep(su, o, Queue(a)) && r in StepTo(su, o, Queue(a)).q.runs
    requires r in o.progress ==> r in o.q.runs
    ensures RunExplained(su, StepTo(su, o, Queue(a)), r)
  {
    var o' := StepTo(su, o, Queue(a));
    QueueStepExtends(su.cfg, o.q, a);
    RunsAfter(su.cfg, o.q, a, r);
    if r in o.q.runs {
      assert RunExplained(su, o, r) && JobExplained(su, o, r.job);
      if o'.q.runs[r].phase == Settling(Success) && o.q.runs[r].phase != Settling(Success) {
        RunEndsFannedOut(su, o, o', r);
      } else {
        RunStaysExplained(su, o, o', r);
      }
    }
  }

  /** The handler has gone through its loop when it ends well. */
  lemma RunEndsFannedOut(su: Setup, o: System, o': System, r: RunId)
    requires r in o.q.runs && RunExplained(su, o, r) && JobExplained(su, o, r.job) && o.q.runs[r].phase == Running
    requires Dispatching(o, r) ==> Done(o, r) == |Fans(su, o, o.q.rows[r.job].payload)|
    requires Extends(o.q.rows, o'.q.rows) && o'.events == o.events && o'.progress == o.progress && r in o'.q.runs
    ensures RunExplained(su, o', r)
  {
    var job := o.q.rows[r.job];
    if IsDispatchJob(job) { FannedOutStays(su, o, o', job.payload, Done(o, r)); }
  }

  lemma QueueStepKeepsJobs(su: Setup, o: System, a: Action, id: JobId)
    requires OutboxInv(su, o) && CanStep(su, o, Queue(a)) && id in StepTo(su, o, Queue(a)).q.rows
    ensures JobExplained(su, StepTo(su, o, Queue(a)), id)
  {
    var o' := StepTo(su, o, Queue(a));
    QueueStepExtends(su.cfg, o.q, a);
    if id in o.q.rows {
      assert JobExplained(su, o, id);
      CompletedByItsRun(su.cfg, o.q, a, id);
      if a.Record? && a.run in o.q.runs && a.run.job == id { assert RunExplained(su, o, a.run); }
      JobStaysExplained(su, o, o', id);
    } else {
      NewRowIsAdded(su.cfg, o.q, a, id);
    }
  }

  lemma NewRowIsAdded(cfg: Config, q: Sys, a: Action, id: JobId)
    requires Enabled(cfg, q, a) && id in Next(cfg, q, a).rows && id !in q.rows
    ensures a.Add? && id == a.id
    ensures Next(cfg, q, a).rows[id].queue == a.queue && Next(cfg, q, a).rows[id].name == a.name
    ensures Next(cfg, q, a).rows[id].dedupeKey == a.key && Next(cfg, q, a).rows[id].status == Pending
  {
  }

  /** Progress is kept only for runs that exist. */
  ghost predicate ProgressOfRuns(o: System) {
    forall r :: r in o.progress ==> r in o.q.runs
  }

  lemma QueueStepKeepsInv(su: Setup, o: System, a: Action)
    requires OutboxInv(su, o) && ProgressOfRuns(o) && CanStep(su, o, Queue(a))
    ensures OutboxInv(su, StepTo(su, o, Queue(a))) && ProgressOfRuns(StepTo(su, o, Queue(a)))
  {
    var o' := StepTo(su, o, Queue(a));
    StepKeepsInv(su.cfg, o.q, a);
    QueueStepExtends(su.cfg, o.q, a);
    forall id | id in o'.q.rows ensures JobExplained(su, o', id) { QueueStepKeepsJobs(su, o, a, id); }
    forall r | r in o'.q.runs ensures RunExplained(su, o', r) { QueueStepKeepsRuns(su, o, a, r); }
    forall e | e in o'.events ensures EventQueued(o', e) {
      assert EventQueued(o, e);
      EventsStayQueued(o, o', e);
    }
  }

  lemma RecordKeepsOutbox(su: Setup, o: System, e: EventId, eventType: string)
    requires OutboxInv(su, o) && ProgressOfRuns(o) && CanStep(su, o, RecordEvent(e, eventType))
    ensures OutboxInv(su, StepTo(su, o, RecordEvent(e, eventType))) && ProgressOfRuns(StepTo(su, o, RecordEvent(e, eventType)))
  {
    var o' := StepTo(su, o, RecordEvent(e, eventType));
    forall id | id in o'.q.rows ensures JobExplained(su, o', id) {
      assert JobExplained(su, o, id);
      JobStaysExplained(su, o, o', id);
    }
    forall r | r in o'.q.runs ensures RunExplained(su, o', r) {
      assert RunExplained(su, o, r) && JobExplained(su, o, r.job);
      RunStaysExplained(su, o, o', r);
    }
    forall x | x in o'.events ensures EventQueued(o', x) {
      if x != e {
        assert EventQueued(o, x);
        EventsStayQueued(o, o', x);
      }
    }
  }

  lemma {:induction false} DispatchLoopInv(cfg: Config, q: Sys, batch: seq<EventId>, ids: seq<JobId>)
    requires Inv(cfg, q) && "events" in cfg.policies && |ids| == |batch|
    requires FreshIds(q, ids)
    ensures Inv(cfg, AddDispatchJobs(cfg, q, batch, ids))
    ensures forall id :: id in AddDispatchJobs(cfg, q, batch, ids).hist ==> id in q.hist || id in ids
  {
    if batch != [] {
      var n := |batch| - 1;
      DispatchLoopInv(cfg, q, batch[..n], ids[..n]);
      DispatchAdd(cfg, AddDispatchJobs(cfg, q, batch[..n], ids[..n]), ids[n], batch[n], "");
    }
  }

  /** What the loop of `dispatchPending` leaves behind: old jobs untouched, one job per event of the batch. */
  lemma {:induction false} DispatchLoop(cfg: Config, q: Sys, batch: seq<EventId>, ids: seq<JobId>)
    requires Inv(cfg, q) && "events" in cfg.policies && |ids| == |batch|
    requires FreshIds(q, ids)
    ensures var q' := AddDispatchJobs(cfg, q, batch, ids);
      && Inv(cfg, q') && q'.runs == q.runs && q'.now == q.now
      && (forall id :: id in q.rows ==> id in q'.rows && q'.rows[id] == q.rows[id])
      && (forall id :: id in q'.hist ==> id in q.hist || id in ids)
      && (forall id :: id in q'.rows && id !in q.rows ==> IsJobFor(cfg, batch, q.now, q'.rows[id]))
  {
    if batch != [] {
      var n := |batch| - 1;
      DispatchLoop(cfg, q, batch[..n], ids[..n]);
      var p := AddDispatchJobs(cfg, q, batch[..n], ids[..n]);
      var q' := AddDispatchJobs(cfg, q, batch, ids);
      assert q' == AddDispatchJob(cfg, p, ids[n], batch[n]);
      DispatchAdd(cfg, p, ids[n], batch[n], DispatchKey(batch[n]));
      forall id | id in q'.rows && id !in q.rows ensures IsJobFor(cfg, batch, q.now, q'.rows[id]) {
        if id in p.rows {
          JobForLonger(cfg, batch, q.now, p.rows[id]);
        } else {
          assert q'.rows[id] == DispatchJobFor(cfg, batch[n], q.now);
        }
      }
    }
  }

  lemma {:induction false} DispatchLoopQueues(cfg: Config, q: Sys, batch: seq<EventId>, ids: seq<JobId>, i: nat)
    requires Inv(cfg, q) && "events" in cfg.policies && |ids| == |batch| && i < |batch|
    requires FreshIds(q, ids)
    ensures KeyTaken(AddDispatchJobs(cfg, q, batch, ids).rows, DispatchKey(batch[i]))
  {
    var n := |batch| - 1;
    DispatchLoopInv(cfg, q, batch[..n], ids[..n]);
    var p := AddDispatchJobs(cfg, q, batch[..n], ids[..n]);
    if i < n {
      assert batch[..n][i] == batch[i];
      DispatchLoopQueues(cfg, q, batch[..n], ids[..n], i);
    }
    DispatchAdd(cfg, p, ids[n], batch[n], DispatchKey(batch[i]));
  }

  function DispatchJobFor(cfg: Config, e: EventId, now: int): Job
    requires "events" in cfg.policies
  {
    NewJob(cfg.policies["events"], "events", "dispatch", e, 0, Some(DispatchKey(e)), now)
  }

  ghost predicate IsJobFor(cfg: Config, batch: seq<EventId>, now: int, job: Job)
    requires "events" in cfg.policies
  {
    exists i :: 0 <= i < |batch| && job == DispatchJobFor(cfg, batch[i], now)
  }

  lemma JobForLonger(cfg: Config, batch: seq<EventId>, now: int, job: Job)
    requires "events" in cfg.policies && batch != [] && IsJobFor(cfg, batch[..|batch| - 1], now, job)
    ensures IsJobFor(cfg, batch, now, job)
  {
    var i :| 0 <= i < |batch| - 1 && job == DispatchJobFor(cfg, batch[..|batch| - 1][i], now);
    assert batch[..|batch| - 1][i] == batch[i];
  }

  lemma DispatchAdd(cfg: Config, p: Sys, id: JobId, e: EventId, key: string)
    requires Inv(cfg, p) && "events" in cfg.policies && id !in p.hist
    ensures var q' := AddDispatchJob(cfg, p, id, e);
      && Inv(cfg, q') && q'.runs == p.runs && q'.now == p.now
      && (forall x :: x in p.rows ==> x in q'.rows && q'.rows[x] == p.rows[x])
      && (forall x :: x in q'.hist ==> x in p.hist || x == id)
      && (forall x :: x in q'.rows && x !in p.rows ==> q'.rows[x] == DispatchJobFor(cfg, e, p.now))
      && (key == DispatchKey(e) || KeyTaken(p.rows, key) ==> KeyTaken(q'.rows, key))
  {
    AddKeepsInv(cfg, p, id, "events", "dispatch", e, 0, Some(DispatchKey(e)));
    var q' := AddDispatchJob(cfg, p, id, e);
    if id in q'.rows { assert q'.rows[id].dedupeKey == Some(DispatchKey(e)); }
    if KeyTaken(p.rows, key) { KeysStay(p.rows, q'.rows, key); }
  }

  lemma DispatchKeepsInv(su: Setup, o: System, batch: seq<EventId>, ids: seq<JobId>, locked: set<EventId>)
    requires OutboxInv(su, o) && ProgressOfRuns(o) && CanStep(su, o, Dispatch(batch, ids, locked))
    ensures OutboxInv(su, StepTo(su, o, Dispatch(batch, ids, locked))) && ProgressOfRuns(StepTo(su, o, Dispatch(batch, ids, locked)))
  {
    var o' := StepTo(su, o, Dispatch(batch, ids, locked));
    DispatchLoop(su.cfg, o.q, batch, ids);
    forall id | id in o'.q.rows ensures JobExplained(su, o', id) {
      if id in o.q.rows {
        assert JobExplained(su, o, id);
        JobStaysExplained(su, o, o', id);
      } else {
        var i :| 0 <= i < |batch| && o'.q.rows[id] == DispatchJobFor(su.cfg, batch[i], o.q.now);
        assert batch[i] in o.events && batch[i] in batch;
        assert DispatchOf(o', o'.q.rows[id]);
      }
    }
    forall r | r in o'.q.runs ensures RunExplained(su, o', r) {
      assert RunExplained(su, o, r) && JobExplained(su, o, r.job);
      RunStaysExplained(su, o, o', r);
    }
    forall e | e in o'.events ensures EventQueued(o', e) {
      assert EventQueued(o, e);
      if e in batch {
        var i :| 0 <= i < |batch| && batch[i] == e;
        DispatchLoopQueues(su.cfg, o.q, batch, ids, i);
      } else {
        EventsStayQueued(o, o', e);
      }
    }
  }

  lemma FanOutAdd(cfg: Config, q: Sys, id: JobId, e: EventId, c: Consumer)
    requires Inv(cfg, q) && c.queue in cfg.policies && id !in q.hist
    ensures var q' := AddConsumerJob(cfg, q, id, e, c);
      && Inv(cfg, q') && q'.runs == q.runs && q'.now == q.now
      && (forall x :: x in q.rows ==> x in q'.rows && q'.rows[x] == q.rows[x])
      && (forall x :: x in q'.rows && x !in q.rows ==>
            q'.rows[x] == NewJob(cfg.policies[c.queue], c.queue, "consume:" + c.name, e, 0, Some(ConsumerKey(e, c.name)), q.now))
      && KeyTaken(q'.rows, ConsumerKey(e, c.name))
  {
    AddKeepsInv(cfg, q, id, c.queue, "consume:" + c.name, e, 0, Some(ConsumerKey(e, c.name)));
    var q' := AddConsumerJob(cfg, q, id, e, c);
    if id in q'.rows { assert q'.rows[id].dedupeKey == Some(ConsumerKey(e, c.name)); }
  }

  lemma ConsumeIsNotDispatch(name: string)
    ensures "consume:" + name != "dispatch"
  {
    assert ("consume:" + name)[0] == 'c';
    assert "dispatch"[0] == 'd';
  }

  lemma RunAdvances(su: Setup, o: System, o': System, r: RunId, e: EventId)
    requires Extends(o.q.rows, o'.q.rows) && o'.events == o.events && o'.q.runs == o.q.runs
    requires Dispatching(o, r) && e == o.q.rows[r.job].payload && FannedOutTo(su, o, e, Done(o, r))
    requires Done(o, r) < |Fans(su, o, e)| && Done(o', r) == Done(o, r) + 1
    requires KeyTaken(o'.q.rows, ConsumerKey(e, Fans(su, o, e)[Done(o, r)].name))
    ensures RunExplained(su, o', r)
  {
    FannedOutStays(su, o, o', e, Done(o, r));
    assert r.job in o'.q.rows;
    forall i | 0 <= i < Done(o', r) ensures FannedOut(su, o', e, i) {
      if i < Done(o, r) { assert FannedOut(su, o', e, i); }
    }
  }

  lemma FanOutKeepsInv(su: Setup, o: System, r: RunId, id: JobId)
    requires OutboxInv(su, o) && ProgressOfRuns(o) && CanStep(su, o, FanOut(r, id))
    ensures OutboxInv(su, StepTo(su, o, FanOut(r, id))) && ProgressOfRuns(StepTo(su, o, FanOut(r, id)))
  {
    var o' := StepTo(su, o, FanOut(r, id));
    var e, n := o.q.rows[r.job].payload, Done(o, r);
    var c := Fans(su, o, e)[n];
    FanOutAdd(su.cfg, o.q, id, e, c);
    ConsumeIsNotDispatch(c.name);
    forall x | x in o'.q.rows ensures JobExplained(su, o', x) {
      if x in o.q.rows {
        assert JobExplained(su, o, x);
        JobStaysExplained(su, o, o', x);
      } else {
        assert ConsumerJobOf(su, o', o'.q.rows[x], n);
      }
    }
    forall p | p in o'.q.runs ensures RunExplained(su, o', p) {
      assert RunExplained(su, o, p) && JobExplained(su, o, p.job);
      if p != r {
        RunStaysExplained(su, o, o', p);
      } else {
        RunAdvances(su, o, o', r, e);
      }
    }
    forall x | x in o'.events ensures EventQueued(o', x) {
      assert EventQueued(o, x);
      EventsStayQueued(o, o', x);
    }
  }

  lemma OutboxStepKeepsInv(su: Setup, o: System, st: Step)
    requires OutboxInv(su, o) && ProgressOfRuns(o) && CanStep(su, o, st)
    ensures OutboxInv(su, StepTo(su, o, st)) && ProgressOfRuns(StepTo(su, o, st))
  {
    match st
    case Queue(a) => QueueStepKeepsInv(su, o, a);
    case RecordEvent(e, eventType) => RecordKeepsOutbox(su, o, e, eventType);
    case Dispatch(batch, ids, locked) => DispatchKeepsInv(su, o, batch, ids, locked);
    case FanOut(r, id) => FanOutKeepsInv(su, o, r, id);
  }

  lemma {:induction false} OutboxInvAlways(su: Setup, states: seq<System>, steps: seq<Step>, i: nat)
    requires OutboxRun(su, states, steps) && i < |states|
    ensures OutboxInv(su, states[i]) && ProgressOfRuns(states[i])
  {
    if i > 0 {
      OutboxInvAlways(su, states, steps, i - 1);
      assert CanStep(su, states[i - 1], steps[i - 1]);
      OutboxStepKeepsInv(su, states[i - 1], steps[i - 1]);
    }
  }

  // ------------------------------------------------------------- theorems

  function JobsWithKey(rows: Rows, key: string): set<JobId> {
    set id | id in rows && rows[id].dedupeKey == Some(key)
  }

  lemma AtMostOneJob(cfg: Config, q: Sys, key: string)
    requires Inv(cfg, q)
    ensures |JobsWithKey(q.rows, key)| == if KeyTaken(q.rows, key) then 1 else 0
  {
    var jobs := JobsWithKey(q.rows, key);
    if KeyTaken(q.rows, key) {
      var id :| id in q.rows && q.rows[id].dedupeKey == Some(key);
      forall other | other in jobs ensures other == id { assert ShareKey(q.rows, other, id); }
      assert jobs == {id};
    } else {
      assert jobs == {};
    }
  }

  /** An event has a dispatch job exactly when it has been marked dispatched, and then exactly one. */
  lemma QueuedExactlyOnce(su: Setup, states: seq<System>, steps: seq<Step>, i: nat, e: EventId)
    requires OutboxRun(su, states, steps) && i < |states| && e in states[i].events
    ensures |JobsWithKey(states[i].q.rows, DispatchKey(e))| == if states[i].events[e].dispatched then 1 else 0
    ensures forall id :: id in JobsWithKey(states[i].q.rows, DispatchKey(e)) ==> DispatchJobOf(states[i].q.rows[id], e)
  {
    var o := states[i];
    OutboxInvAlways(su, states, steps, i);
    assert EventQueued(o, e);
    AtMostOneJob(su.cfg, o.q, DispatchKey(e));
    forall id | id in JobsWithKey(o.q.rows, DispatchKey(e)) ensures DispatchJobOf(o.q.rows[id], e) && o.events[e].dispatched {
      EventOfJob(su, o, e, id);
    }
    if KeyTaken(o.q.rows, DispatchKey(e)) {
      var id :| id in o.q.rows && o.q.rows[id].dedupeKey == Some(DispatchKey(e));
      assert id in JobsWithKey(o.q.rows, DispatchKey(e));
    }
  }

  /** The job that hands the event to `dispatch`. */
  predicate DispatchJobOf(job: Job, e: EventId) { job.queue == "events" && job.name == "dispatch" && job.payload == e }

  lemma EventOfJob(su: Setup, o: System, e: EventId, id: JobId)
    requires OutboxInv(su, o) && e in o.events && id in JobsWithKey(o.q.rows, DispatchKey(e))
    ensures DispatchJobOf(o.q.rows[id], e) && o.events[e].dispatched
  {
    var job := o.q.rows[id];
    assert EventQueued(o, e) && JobExplained(su, o, id);
    KeysAreInjective(e, e, "", "");
    assert EventQueued(o, job.payload);
    KeysAreInjective(job.payload, e, "", "");
    if !DispatchOf(o, job) {
      var k :| ConsumerJobOf(su, o, job, k);
      KeysAreInjective(e, job.payload, "", Fans(su, o, job.payload)[k].name);
    }
  }

  /** The job hands this event to this consumer, which is for events of the type. */
  predicate JobOf(job: Job, e: EventId, eventType: string, c: Consumer) {
    job.queue == c.queue && job.name == "consume:" + c.name && job.payload == e && (c.events.Some? ==> eventType in c.events.value)
  }

  /**
   * A job with a consumer key of the event hands it to a consumer of that name
   * that is for every event or lists the event's type; no name has two.
   */
  lemma ConsumerJobsAreSubscribed(su: Setup, states: seq<System>, steps: seq<Step>, i: nat, e: EventId, name: string)
    requires OutboxRun(su, states, steps) && i < |states| && e in states[i].events
    ensures |JobsWithKey(states[i].q.rows, ConsumerKey(e, name))| <= 1
    ensures forall id :: id in JobsWithKey(states[i].q.rows, ConsumerKey(e, name)) ==>
      exists c :: c in su.consumers && c.name == name && JobOf(states[i].q.rows[id], e, states[i].events[e].eventType, c)
  {
    var o := states[i];
    OutboxInvAlways(su, states, steps, i);
    AtMostOneJob(su.cfg, o.q, ConsumerKey(e, name));
    forall id | id in JobsWithKey(o.q.rows, ConsumerKey(e, name))
      ensures exists c :: c in su.consumers && c.name == name && JobOf(o.q.rows[id], e, o.events[e].eventType, c)
    {
      var c := ConsumerOfJob(su, o, e, name, id);
    }
  }

  lemma ConsumerOfJob(su: Setup, o: System, e: EventId, name: string, id: JobId) returns (c: Consumer)
    requires OutboxInv(su, o) && NamesDistinct(su.consumers) && e in o.events && id in JobsWithKey(o.q.rows, ConsumerKey(e, name))
    ensures c in su.consumers && c.name == name && JobOf(o.q.rows[id], e, o.events[e].eventType, c)
  {
    var job := o.q.rows[id];
    assert EventQueued(o, e) && JobExplained(su, o, id);
    KeysAreInjective(e, e, name, "");
    assert EventQueued(o, job.payload);
    KeysAreInjective(job.payload, e, "", name);
    var k :| ConsumerJobOf(su, o, job, k);
    var fans := Fans(su, o, job.payload);
    KeysAreInjective(job.payload, e, fans[k].name, name);
    ConsumersForIsSubscribed(su.consumers, o.events[e].eventType);
    c := fans[k];
    assert c in fans;
  }

  lemma OneOfTheName(consumers: seq<Consumer>, a: Consumer, b: Consumer)
    requires NamesDistinct(consumers) && a in consumers && b in consumers && a.name == b.name
    ensures a == b
  {
    var i :| 0 <= i < |consumers| && consumers[i] == a;
    var j :| 0 <= j < |consumers| && consumers[j] == b;
  }

  /**
   * When the dispatch job of an event has completed, a registered consumer has
   * exactly one job for it if it is for every event or lists the event's type,
   * and none otherwise.
   */
  lemma FannedOutWhenCompleted(su: Setup, states: seq<System>, steps: seq<Step>, i: nat, e: EventId, id: JobId, c: Consumer)
    requires OutboxRun(su, states, steps) && i < |states| && e in states[i].events && c in su.consumers
    requires id in states[i].q.rows && states[i].q.rows[id].dedupeKey == Some(DispatchKey(e)) && states[i].q.rows[id].status == Completed
    ensures |JobsWithKey(states[i].q.rows, ConsumerKey(e, c.name))| ==
      if c.events.Some? && states[i].events[e].eventType !in c.events.value then 0 else 1
  {
    var o := states[i];
    OutboxInvAlways(su, states, steps, i);
    AtMostOneJob(su.cfg, o.q, ConsumerKey(e, c.name));
    if c.events.Some? && o.events[e].eventType !in c.events.value {
      if other :| other in JobsWithKey(o.q.rows, ConsumerKey(e, c.name)) {
        var its := ConsumerOfJob(su, o, e, c.name, other);
        OneOfTheName(su.consumers, its, c);
        assert false;
      }
    } else {
      SubscribedHasJob(su, o, e, id, c);
    }
  }

  lemma SubscribedHasJob(su: Setup, o: System, e: EventId, id: JobId, c: Consumer)
    requires OutboxInv(su, o) && NamesDistinct(su.consumers) && e in o.events && c in su.consumers
    requires id in o.q.rows && o.q.rows[id].dedupeKey == Some(DispatchKey(e)) && o.q.rows[id].status == Completed
    requires c.events.Some? ==> o.events[e].eventType in c.events.value
    ensures KeyTaken(o.q.rows, ConsumerKey(e, c.name))
  {
    assert id in JobsWithKey(o.q.rows, DispatchKey(e));
    EventOfJob(su, o, e, id);
    assert JobExplained(su, o, id);
    ConsumersForIsSubscribed(su.consumers, o.events[e].eventType);
    var fans := Fans(su, o, e);
    var k :| 0 <= k < |fans| && fans[k] == c;
    assert FannedOut(su, o, e, k);
  }

  /** An event keeps the type it was recorded with. */
  lemma {:induction false} EventsKeepTheirType(su: Setup, states: seq<System>, steps: seq<Step>, k: nat, i: nat, e: EventId, eventType: string)
    requires OutboxRun(su, states, steps) && k < i < |states| && steps[k] == RecordEvent(e, eventType)
    ensures e in states[i].events && states[i].events[e].eventType == eventType && states[i].events[e].occurredAt == states[k].q.now
    decreases i
  {
    assert CanStep(su, states[i - 1], steps[i - 1]);
    if k < i - 1 { EventsKeepTheirType(su, states, steps, k, i - 1, e, eventType); }
  }

  // ------------------------------------------------- the tables in place

  lemma {:induction false} DispatchLoopIds(cfg: Config, q: Sys, batch: seq<EventId>, ids: seq<JobId>, id: JobId)
    requires "events" in cfg.policies && |ids| == |batch| && id !in q.rows && id !in ids
    ensures id !in AddDispatchJobs(cfg, q, batch, ids).rows
  {
    if batch != [] {
      var n := |batch| - 1;
      DispatchLoopIds(cfg, q, batch[..n], ids[..n], id);
    }
  }

  lemma {:induction false} FreshIdAt(q: Sys, ids: seq<JobId>, i: nat)
    requires FreshIds(q, ids) && i < |ids|
    ensures ids[i] !in q.rows && ids[i] !in ids[..i]
  {
    if i < |ids| - 1 {
      FreshIdAt(q, ids[..|ids| - 1], i);
      assert ids[..|ids| - 1][..i] == ids[..i];
    }
  }

  lemma {:induction false} DispatchLoopKeepsNow(cfg: Config, q: Sys, batch: seq<EventId>, ids: seq<JobId>)
    requires "events" in cfg.policies && |ids| == |batch|
    ensures AddDispatchJobs(cfg, q, batch, ids).now == q.now
  {
    if batch != [] { DispatchLoopKeepsNow(cfg, q, batch[..|batch| - 1], ids[..|batch| - 1]); }
  }

  /** domain_events, beside the queue's table. */
  class EventTable {
    var events: map<EventId, Event>
    const jobs: JobTable

    constructor (jobs: JobTable)
      ensures this.jobs == jobs && events == map[]
    {
      this.jobs := jobs;
      events := map[];
    }

    method Record(e: EventId, eventType: string, now: int)
      requires e !in events
      modifies this
      ensures events == old(events)[e := Event(eventType, false, now)]
    {
      events := events[e := Event(eventType, false, now)];
    }

    /** `batch` is what the locking SELECT returned, `ids` are the job ids to use; `q` is the queue as it was. */
    method DispatchPending(batch: seq<EventId>, ids: seq<JobId>, now: int, ghost q: Sys) returns (moved: nat)
      requires jobs.Valid() && "events" in jobs.cfg.policies && q.rows == jobs.rows && q.now == now
      requires |ids| == |batch| && FreshIds(q, ids)
      modifies this, jobs
      ensures jobs.Valid() && jobs.rows == AddDispatchJobs(jobs.cfg, q, batch, ids).rows
      ensures events == Marked(old(events), batch) && moved == |batch|
    {
      assert batch[..0] == [] && ids[..0] == [];
      for i := 0 to |batch|
        invariant jobs.Valid() && events == old(events)
        invariant jobs.rows == AddDispatchJobs(jobs.cfg, q, batch[..i], ids[..i]).rows
      {
        FreshIdAt(q, ids, i);
        DispatchLoopIds(jobs.cfg, q, batch[..i], ids[..i], ids[i]);
        DispatchLoopKeepsNow(jobs.cfg, q, batch[..i], ids[..i]);
        assert batch[..i + 1][..i] == batch[..i] && ids[..i + 1][..i] == ids[..i];
        var added := jobs.Add(ids[i], "events", "dispatch", batch[i], 0, Some(DispatchKey(batch[i])), now);
      }
      assert batch[..|batch|] == batch && ids[..|batch|] == ids;
      events := map e | e in events :: if e in batch then events[e].(dispatched := true) else events[e];
      return |batch|;
    }
  }
}
