/**
 * The job queue as a concurrent protocol: any number of workers claim rows, run
 * handlers, renew locks, record outcomes and sweep stale locks, in any
 * interleaving, with runs that stall or vanish at any point
 * (src/core/queue/postgresDriver.js). Each action is one SQL statement or one
 * step of a run. Every claim, ending and manual retry of a job is written down
 * in the job's history, so that "the latest claim" and "swept" are facts about
 * what happened, not about the columns the fencing test reads.
 */
module QueueRuns {
  import opened Common
  import opened QueueRows

  /** A run is one claim of one job: the claim's position in the job's history. */
  datatype RunId = RunId(job: JobId, index: nat)

  datatype Phase = Taken | Running | Settling(outcome: Outcome) | Over

  datatype Run = Run(claimed: Claimed, phase: Phase)

  datatype Event =
    | Took(worker: Worker, attempt: nat, at: int)
    | Recorded(writer: nat, status: Status)
    | Swept(failed: bool)
    | Retried

  type History = seq<Event>

  datatype Sys = Sys(now: int, rows: Rows, runs: map<RunId, Run>, hist: map<JobId, History>)

  datatype Action =
    | Tick(ms: nat)
    | Add(id: JobId, queue: string, name: string, payload: string, delayMs: int, key: Option<string>)
    | Claim(worker: Worker, queues: set<string>, limit: int, unlocked: set<JobId>, chosen: set<JobId>)
    | Start(run: RunId)
    | Renew(run: RunId)
    | End(run: RunId, outcome: Outcome)
    | Record(run: RunId)
    | Lose(run: RunId)
    | Sweep(unlocked: set<JobId>)
    | Retry(id: JobId)
    | Prune(completedMs: int, failedMs: int)

  // ------------------------------------------------------------ the steps

  ghost predicate Enabled(cfg: Config, s: Sys, a: Action) {
    match a
    case Tick(_) => true
    // ids are fresh uuids; an unknown queue throws before the INSERT
    case Add(id, queue, _, _, _, _) => id !in s.hist && id !in s.rows && queue in cfg.policies
    case Claim(_, queues, limit, unlocked, chosen) => ClaimChoice(s.rows, unlocked, queues, limit, s.now, chosen)
    case Start(r) => r in s.runs && s.runs[r].phase == Taken
    // a heartbeat already sent may land after the handler ended, or its process died
    case Renew(r) => r in s.runs && s.runs[r].phase != Taken
    case End(r, _) => r in s.runs && s.runs[r].phase == Running
    case Record(r) => r in s.runs && s.runs[r].phase.Settling? && s.runs[r].claimed.queue in cfg.policies
    case Lose(r) => r in s.runs
    case Sweep(_) => true
    case Retry(id) => true
    case Prune(_, _) => true
  }

  function NewRuns(s: Sys, chosen: set<JobId>): set<RunId> {
    set id | id in chosen && id in s.hist :: RunId(id, |s.hist[id]|)
  }

  function Snapshot(rows: Rows, id: JobId, worker: Worker): Claimed
    requires id in rows
  {
    Claimed(id, worker, rows[id].attempts + 1, rows[id].queue, rows[id].maxAttempts)
  }

  function SetPhase(s: Sys, r: RunId, phase: Phase): Sys
    requires r in s.runs
  {
    s.(runs := s.runs[r := s.runs[r].(phase := phase)])
  }

  function AfterAdd(cfg: Config, s: Sys, id: JobId, queue: string, name: string, payload: string, delayMs: int, key: Option<string>): Sys
    requires queue in cfg.policies
  {
    var rows' := AddRow(cfg, s.rows, id, queue, name, payload, delayMs, key, s.now);
    if id in rows' then s.(rows := rows', hist := s.hist[id := []]) else s
  }

  function AfterClaim(s: Sys, worker: Worker, chosen: set<JobId>): Sys {
    s.(rows := ClaimRows(s.rows, chosen, worker, s.now),
       runs := s.runs + (map r | r in NewRuns(s, chosen) && r.job in s.rows :: Run(Snapshot(s.rows, r.job, worker), Taken)),
       hist := map id | id in s.hist ::
                 if id in chosen && id in s.rows then s.hist[id] + [Took(worker, s.rows[id].attempts + 1, s.now)] else s.hist[id])
  }

  function AfterRecord(cfg: Config, s: Sys, r: RunId): Sys
    requires r in s.runs && s.runs[r].phase.Settling? && s.runs[r].claimed.queue in cfg.policies
  {
    var c := s.runs[r].claimed;
    var s' := SetPhase(s, r, Over);
    if Held(s.rows, c) && c.id in s.hist then
      var row := FinishJob(cfg, s.rows[c.id], c, s.runs[r].phase.outcome, s.now);
      s'.(rows := s.rows[c.id := row], hist := s.hist[c.id := s.hist[c.id] + [Recorded(r.index, row.status)]])
    else s'
  }

  function AfterSweep(cfg: Config, s: Sys, unlocked: set<JobId>): Sys {
    s.(rows := SweepRows(cfg, s.rows, unlocked, s.now),
       hist := map id | id in s.hist ::
                 if id in unlocked && id in s.rows && Stale(cfg, s.rows[id], s.now)
                 then s.hist[id] + [Swept(SweepFails(cfg, s.rows[id]))] else s.hist[id])
  }

  function AfterRetry(s: Sys, id: JobId): Sys {
    if id in s.rows && s.rows[id].status == Failed && id in s.hist
    then s.(rows := RetryRow(s.rows, id, s.now), hist := s.hist[id := s.hist[id] + [Retried]]) else s
  }

  ghost function Next(cfg: Config, s: Sys, a: Action): Sys
    requires Enabled(cfg, s, a)
  {
    match a
    case Tick(ms) => s.(now := s.now + ms)
    case Add(id, queue, name, payload, delayMs, key) => AfterAdd(cfg, s, id, queue, name, payload, delayMs, key)
    case Claim(worker, _, _, _, chosen) => AfterClaim(s, worker, chosen)
    case Start(r) => SetPhase(s, r, Running)
    case Renew(r) => s.(rows := RenewRow(s.rows, s.runs[r].claimed, s.now))
    case End(r, outcome) => SetPhase(s, r, Settling(outcome))
    case Record(r) => AfterRecord(cfg, s, r)
    case Lose(r) => SetPhase(s, r, Over)
    case Sweep(unlocked) => AfterSweep(cfg, s, unlocked)
    case Retry(id) => AfterRetry(s, id)
    case Prune(completedMs, failedMs) => s.(rows := PruneRows(s.rows, s.now, completedMs, failedMs))
  }

  ghost predicate Init(s: Sys) {
    s.rows == map[] && s.runs == map[] && s.hist == map[]
  }

  /** A run of the whole system: `states[i + 1]` is reached from `states[i]` by `acts[i]`. */
  ghost predicate Execution(cfg: Config, states: seq<Sys>, acts: seq<Action>) {
    && |states| == |acts| + 1
    && Init(states[0])
    && forall i :: 0 <= i < |acts| ==> Enabled(cfg, states[i], acts[i]) && states[i + 1] == Next(cfg, states[i], acts[i])
  }

  // ---------------------------------------------------------- histories

  function AttemptsIn(h: History): nat {
    if h == [] then 0
    else
      var e, before := h[|h| - 1], AttemptsIn(h[..|h| - 1]);
      if e.Took? then before + 1 else if e.Retried? then 0 else before
  }

  predicate Open(h: History) {
    h != [] && h[|h| - 1].Took?
  }

  predicate EndedFailed(e: Event) {
    e == Swept(true) || (e.Recorded? && e.status == Failed)
  }

  /** Nothing but a manual retry comes after such an event. */
  predicate Final(e: Event) {
    EndedFailed(e) || (e.Recorded? && e.status == Completed)
  }

  /** `e` may follow the history `h`. */
  predicate MayFollow(h: History, e: Event) {
    match e
    case Took(_, attempt, _) => !Open(h) && (h == [] || !Final(h[|h| - 1])) && attempt == AttemptsIn(h) + 1
    case Recorded(writer, _) =>
      Open(h) && writer < |h| && h[writer].Took? && h[writer].worker == h[|h| - 1].worker && h[writer].attempt == h[|h| - 1].attempt
    case Swept(_) => Open(h)
    case Retried => h != [] && EndedFailed(h[|h| - 1])
  }

  ghost predicate WellFormed(h: History) {
    forall i {:trigger MayFollow(h[..i], h[i])} :: 0 <= i < |h| ==> MayFollow(h[..i], h[i])
  }

  ghost predicate HappenedBy(h: History, now: int) {
    forall i :: 0 <= i < |h| && h[i].Took? ==> h[i].at <= now
  }

  ghost predicate NeverRetried(h: History) {
    Retried !in h
  }

  lemma WellFormedAppend(h: History, e: Event)
    requires WellFormed(h) && MayFollow(h, e)
    ensures WellFormed(h + [e])
  {
    var g := h + [e];
    forall i | 0 <= i < |g| ensures MayFollow(g[..i], g[i]) {
      if i < |h| {
        assert g[..i] == h[..i];
      } else {
        assert g[..i] == h;
      }
    }
  }

  lemma AttemptsAppend(h: History, e: Event)
    ensures AttemptsIn(h + [e]) == if e.Took? then AttemptsIn(h) + 1 else if e.Retried? then 0 else AttemptsIn(h)
  {
    assert (h + [e])[..|h|] == h;
  }

  /** Without a manual retry in between attempts only grow along a history. */
  lemma {:induction false} AttemptsGrow(h: History, i: nat, j: nat)
    requires i <= j <= |h| && NeverRetried(h[i..j])
    ensures AttemptsIn(h[..i]) <= AttemptsIn(h[..j])
    decreases j
  {
    if i < j {
      assert h[..j][..j - 1] == h[..j - 1];
      assert h[i..j][j - 1 - i] == h[j - 1];
      assert h[i..j - 1] == h[i..j][..j - 1 - i];
      AttemptsGrow(h, i, j - 1);
    }
  }

  /** Two claims of one job with no manual retry between them never carry the same attempt number. */
  lemma AttemptIsUnique(h: History, i: nat, j: nat)
    requires WellFormed(h) && i < j < |h| && h[i].Took? && h[j].Took?
    requires NeverRetried(h[i..])
    ensures h[i].attempt < h[j].attempt
  {
    assert MayFollow(h[..i], h[i]) && MayFollow(h[..j], h[j]);
    assert h[..i + 1] == h[..i] + [h[i]];
    AttemptsAppend(h[..i], h[i]);
    assert h[i + 1..j] == h[i..][1..j - i];
    AttemptsGrow(h, i + 1, j);
  }

  // ---------------------------------------------------------- invariant

  /** What the columns of a row say is what its history says. */
  predicate RowMatches(row: Job, h: History) {
    && row.attempts == AttemptsIn(h)
    && (row.status == Active <==> Open(h))
    && (Open(h) ==> row.lockedBy == Some(h[|h| - 1].worker) && row.lockedAt.Some? && h[|h| - 1].at <= row.lockedAt.value)
    && (row.status == Failed <==> h != [] && EndedFailed(h[|h| - 1]))
    && (row.status == Completed <==> h != [] && h[|h| - 1].Recorded? && h[|h| - 1].status == Completed)
  }

  ghost predicate JobInv(s: Sys, id: JobId)
    requires id in s.hist
  {
    && WellFormed(s.hist[id])
    && HappenedBy(s.hist[id], s.now)
    && (if id in s.rows then RowMatches(s.rows[id], s.hist[id]) else !Open(s.hist[id]))
  }

  predicate RunInv(cfg: Config, s: Sys, r: RunId)
    requires r in s.runs
  {
    var c := s.runs[r].claimed;
    && c.id == r.job
    && r.job in s.hist && r.index < |s.hist[r.job]|
    && s.hist[r.job][r.index].Took?
    && s.hist[r.job][r.index].worker == c.worker
    && s.hist[r.job][r.index].attempt == c.attempts
    && c.queue in cfg.policies && c.maxAttempts == |cfg.policies[c.queue].delays| + 1
    && (r.job in s.rows ==> s.rows[r.job].queue == c.queue && s.rows[r.job].maxAttempts == c.maxAttempts)
  }

  ghost predicate Inv(cfg: Config, s: Sys) {
    && s.rows.Keys <= s.hist.Keys
    && RowsOk(cfg, s.rows)
    && KeysUnique(s.rows)
    && (forall id {:trigger JobInv(s, id)} :: id in s.hist ==> JobInv(s, id))
    && (forall r {:trigger RunInv(cfg, s, r)} :: r in s.runs ==> RunInv(cfg, s, r))
  }

  /** One event more at the end of one job's history keeps that job's invariant. */
  lemma JobInvAppend(s: Sys, s': Sys, id: JobId, e: Event)
    requires id in s.hist && JobInv(s, id) && MayFollow(s.hist[id], e)
    requires id in s'.hist && s'.hist[id] == s.hist[id] + [e] && s'.now == s.now && (e.Took? ==> e.at <= s.now)
    requires id in s'.rows && (AttemptsIn(s'.hist[id]) == (if e.Took? then AttemptsIn(s.hist[id]) + 1 else if e.Retried? then 0 else AttemptsIn(s.hist[id])) ==> RowMatches(s'.rows[id], s'.hist[id]))
    ensures JobInv(s', id)
  {
    WellFormedAppend(s.hist[id], e);
    AttemptsAppend(s.hist[id], e);
  }

  /** `s'` only extended histories and changed no row's identity: the runs of `s` keep their invariant. */
  lemma RunsKept(cfg: Config, s: Sys, s': Sys, r: RunId)
    requires r in s.runs && RunInv(cfg, s, r)
    requires r in s'.runs && s'.runs[r].claimed == s.runs[r].claimed
    requires r.job in s'.hist && s.hist[r.job] <= s'.hist[r.job]
    requires r.job in s'.rows ==> r.job in s.rows && s'.rows[r.job].queue == s.rows[r.job].queue
                                  && s'.rows[r.job].maxAttempts == s.rows[r.job].maxAttempts
    ensures RunInv(cfg, s', r)
  {
  }

  lemma ClaimKeepsJob(cfg: Config, s: Sys, worker: Worker, chosen: set<JobId>, id: JobId)
    requires id in s.hist && JobInv(s, id)
    requires id in chosen ==> id in s.rows && s.rows[id].status == Pending
    ensures JobInv(AfterClaim(s, worker, chosen), id)
  {
    var s' := AfterClaim(s, worker, chosen);
    if id in chosen {
      JobInvAppend(s, s', id, Took(worker, s.rows[id].attempts + 1, s.now));
    }
  }

  lemma SweepKeepsJob(cfg: Config, s: Sys, unlocked: set<JobId>, id: JobId)
    requires id in s.hist && JobInv(s, id)
    ensures JobInv(AfterSweep(cfg, s, unlocked), id)
  {
    var s' := AfterSweep(cfg, s, unlocked);
    if id in unlocked && id in s.rows && Stale(cfg, s.rows[id], s.now) {
      JobInvAppend(s, s', id, Swept(SweepFails(cfg, s.rows[id])));
    }
  }

  lemma RecordKeepsJob(cfg: Config, s: Sys, r: RunId)
    requires r in s.runs && s.runs[r].phase.Settling? && s.runs[r].claimed.queue in cfg.policies
    requires RunInv(cfg, s, r) && JobInv(s, r.job)
    ensures JobInv(AfterRecord(cfg, s, r), r.job)
  {
    var s' := AfterRecord(cfg, s, r);
    var c := s.runs[r].claimed;
    var h := s.hist[c.id];
    if Held(s.rows, c) {
      var before, last := h[..|h| - 1], h[|h| - 1];
      assert h == before + [last];
      assert MayFollow(before, last);
      AttemptsAppend(before, last);
      JobInvAppend(s, s', c.id, Recorded(r.index, s'.rows[c.id].status));
    }
  }

  lemma ClaimKeepsRun(cfg: Config, s: Sys, worker: Worker, chosen: set<JobId>, r: RunId)
    requires forall id :: id in chosen ==> id in s.rows && id in s.hist
    requires r in AfterClaim(s, worker, chosen).runs
    requires if r in NewRuns(s, chosen) then RowOk(cfg, s.rows[r.job]) else RunInv(cfg, s, r)
    ensures RunInv(cfg, AfterClaim(s, worker, chosen), r)
  {
  }

  lemma SweepKeepsRun(cfg: Config, s: Sys, unlocked: set<JobId>, r: RunId)
    requires r in s.runs && RunInv(cfg, s, r)
    ensures RunInv(cfg, AfterSweep(cfg, s, unlocked), r)
  {
  }

  lemma RecordKeepsRun(cfg: Config, s: Sys, r: RunId, q: RunId)
    requires r in s.runs && s.runs[r].phase.Settling? && s.runs[r].claimed.queue in cfg.policies
    requires q in s.runs && RunInv(cfg, s, q)
    ensures RunInv(cfg, AfterRecord(cfg, s, r), q)
  {
  }

  lemma RecordKeepsTable(cfg: Config, s: Sys, r: RunId)
    requires r in s.runs && s.runs[r].phase.Settling? && s.runs[r].claimed.queue in cfg.policies
    requires RowsOk(cfg, s.rows) && KeysUnique(s.rows) && RunInv(cfg, s, r)
    ensures RowsOk(cfg, AfterRecord(cfg, s, r).rows) && KeysUnique(AfterRecord(cfg, s, r).rows)
    ensures AfterRecord(cfg, s, r).rows.Keys == s.rows.Keys
  {
    if Held(s.rows, s.runs[r].claimed) {
      assert RowOk(cfg, s.rows[r.job]);
      SetRowKeeps(cfg, s.rows, r.job, FinishJob(cfg, s.rows[r.job], s.runs[r].claimed, s.runs[r].phase.outcome, s.now));
    }
  }

  /** A step only ever appends to a history. */
  lemma HistoryGrows(cfg: Config, s: Sys, a: Action, id: JobId)
    requires Inv(cfg, s) && Enabled(cfg, s, a) && id in s.hist
    ensures id in Next(cfg, s, a).hist && s.hist[id] <= Next(cfg, s, a).hist[id]
  {
  }

  lemma TickKeepsInv(cfg: Config, s: Sys, ms: nat)
    requires Inv(cfg, s)
    ensures Inv(cfg, s.(now := s.now + ms))
  {
    var s' := s.(now := s.now + ms);
    forall id | id in s'.hist ensures JobInv(s', id) { assert JobInv(s, id); }
    forall r | r in s'.runs ensures RunInv(cfg, s', r) { assert RunInv(cfg, s, r); }
  }

  lemma AddKeepsInv(cfg: Config, s: Sys, id: JobId, queue: string, name: string, payload: string, delayMs: int, key: Option<string>)
    requires Inv(cfg, s) && id !in s.hist && queue in cfg.policies
    ensures Inv(cfg, AfterAdd(cfg, s, id, queue, name, payload, delayMs, key))
  {
    var s' := AfterAdd(cfg, s, id, queue, name, payload, delayMs, key);
    AddKeepsRowsOk(cfg, s.rows, id, queue, name, payload, delayMs, key, s.now);
    forall other | other in s'.hist ensures JobInv(s', other) {
      if other != id { assert JobInv(s, other); }
    }
    forall r | r in s'.runs ensures RunInv(cfg, s', r) { assert RunInv(cfg, s, r); }
  }

  lemma ClaimKeepsInv(cfg: Config, s: Sys, worker: Worker, chosen: set<JobId>)
    requires Inv(cfg, s)
    requires forall id :: id in chosen ==> id in s.rows && s.rows[id].status == Pending
    ensures Inv(cfg, AfterClaim(s, worker, chosen))
  {
    var s' := AfterClaim(s, worker, chosen);
    ClaimKeepsRowsOk(cfg, s.rows, chosen, chosen, worker, s.now);
    forall id | id in s'.hist ensures JobInv(s', id) { ClaimKeepsJob(cfg, s, worker, chosen, id); }
    forall r | r in s'.runs ensures RunInv(cfg, s', r) {
      if r in NewRuns(s, chosen) { assert RowOk(cfg, s.rows[r.job]); } else { assert RunInv(cfg, s, r); }
      ClaimKeepsRun(cfg, s, worker, chosen, r);
    }
  }

  lemma PhaseKeepsInv(cfg: Config, s: Sys, r: RunId, phase: Phase)
    requires Inv(cfg, s) && r in s.runs
    ensures Inv(cfg, SetPhase(s, r, phase))
  {
    var s' := SetPhase(s, r, phase);
    forall id | id in s'.hist ensures JobInv(s', id) { assert JobInv(s, id); }
    forall q | q in s'.runs ensures RunInv(cfg, s', q) { assert RunInv(cfg, s, q); }
  }

  lemma RenewKeepsInv(cfg: Config, s: Sys, c: Claimed)
    requires Inv(cfg, s)
    ensures Inv(cfg, s.(rows := RenewRow(s.rows, c, s.now)))
  {
    var s' := s.(rows := RenewRow(s.rows, c, s.now));
    if Held(s.rows, c) {
      assert RowOk(cfg, s.rows[c.id]);
      SetRowKeeps(cfg, s.rows, c.id, s.rows[c.id].(lockedAt := Some(s.now)));
    }
    forall id | id in s'.hist ensures JobInv(s', id) { assert JobInv(s, id); }
    forall q | q in s'.runs ensures RunInv(cfg, s', q) { assert RunInv(cfg, s, q); }
  }

  lemma RecordKeepsInv(cfg: Config, s: Sys, r: RunId)
    requires Inv(cfg, s) && r in s.runs && s.runs[r].phase.Settling? && s.runs[r].claimed.queue in cfg.policies
    ensures Inv(cfg, AfterRecord(cfg, s, r))
  {
    var s' := AfterRecord(cfg, s, r);
    assert RunInv(cfg, s, r) && JobInv(s, r.job);
    RecordKeepsJob(cfg, s, r);
    RecordKeepsTable(cfg, s, r);
    forall id | id in s'.hist ensures JobInv(s', id) {
      if id != r.job { assert JobInv(s, id); }
    }
    forall q | q in s'.runs ensures RunInv(cfg, s', q) { RecordKeepsRun(cfg, s, r, q); }
  }

  lemma SweepKeepsInv(cfg: Config, s: Sys, unlocked: set<JobId>)
    requires Inv(cfg, s)
    ensures Inv(cfg, AfterSweep(cfg, s, unlocked))
  {
    var s' := AfterSweep(cfg, s, unlocked);
    SweepKeepsRowsOk(cfg, s.rows, unlocked, s.now);
    forall id | id in s'.hist ensures JobInv(s', id) { SweepKeepsJob(cfg, s, unlocked, id); }
    forall q | q in s'.runs ensures RunInv(cfg, s', q) { SweepKeepsRun(cfg, s, unlocked, q); }
  }

  lemma RetryKeepsInv(cfg: Config, s: Sys, id: JobId)
    requires Inv(cfg, s)
    ensures Inv(cfg, AfterRetry(s, id))
  {
    var s' := AfterRetry(s, id);
    if s' != s {
      assert JobInv(s, id) && RowOk(cfg, s.rows[id]);
      SetRowKeeps(cfg, s.rows, id, s'.rows[id]);
      JobInvAppend(s, s', id, Retried);
    }
    forall other | other in s'.hist ensures JobInv(s', other) {
      if other != id { assert JobInv(s, other); }
    }
    forall q | q in s'.runs ensures RunInv(cfg, s', q) { RunsKept(cfg, s, s', q); }
  }

  lemma PruneKeepsInv(cfg: Config, s: Sys, completedMs: int, failedMs: int)
    requires Inv(cfg, s)
    ensures Inv(cfg, s.(rows := PruneRows(s.rows, s.now, completedMs, failedMs)))
  {
    var s' := s.(rows := PruneRows(s.rows, s.now, completedMs, failedMs));
    PruneKeepsRowsOk(cfg, s.rows, s.now, completedMs, failedMs);
    forall id | id in s'.hist ensures JobInv(s', id) { assert JobInv(s, id); }
    forall q | q in s'.runs ensures RunInv(cfg, s', q) { assert RunInv(cfg, s, q); }
  }

  /** Every action of every interleaving keeps the invariant. */
  lemma StepKeepsInv(cfg: Config, s: Sys, a: Action)
    requires Inv(cfg, s) && Enabled(cfg, s, a)
    ensures Inv(cfg, Next(cfg, s, a))
  {
    match a
    case Tick(ms) => TickKeepsInv(cfg, s, ms);
    case Add(id, queue, name, payload, delayMs, key) => AddKeepsInv(cfg, s, id, queue, name, payload, delayMs, key);
    case Claim(worker, _, _, _, chosen) => ClaimKeepsInv(cfg, s, worker, chosen);
    case Start(r) => PhaseKeepsInv(cfg, s, r, Running);
    case Renew(r) => RenewKeepsInv(cfg, s, s.runs[r].claimed);
    case End(r, outcome) => PhaseKeepsInv(cfg, s, r, Settling(outcome));
    case Record(r) => RecordKeepsInv(cfg, s, r);
    case Lose(r) => PhaseKeepsInv(cfg, s, r, Over);
    case Sweep(unlocked) => SweepKeepsInv(cfg, s, unlocked);
    case Retry(id) => RetryKeepsInv(cfg, s, id);
    case Prune(completedMs, failedMs) => PruneKeepsInv(cfg, s, completedMs, failedMs);
  }

  // ------------------------------------------------- one job's view of a step

  /** Everything a step can do to one row that is there before and after it. */
  datatype Change =
    | Kept
    | Renewed
    | TookBy(worker: Worker)
    | RecordedBy(c: Claimed, outcome: Outcome, writer: nat)
    | SweptOff
    | RetriedBy

  predicate JobStep(cfg: Config, now: int, row: Job, h: History, row': Job, h': History, ch: Change)
    requires row.queue in cfg.policies
  {
    match ch
    case Kept => row' == row && h' == h
    case Renewed => row.status == Active && row' == row.(lockedAt := Some(now)) && h' == h
    case TookBy(worker) =>
      row.status == Pending && row.runAt <= now && row' == ClaimJob(row, worker, now)
      && h' == h + [Took(worker, row.attempts + 1, now)]
    case RecordedBy(c, outcome, writer) =>
      && row.status == Active && c.attempts == row.attempts && c.queue == row.queue && c.maxAttempts == row.maxAttempts
      && row' == FinishJob(cfg, row, c, outcome, now) && h' == h + [Recorded(writer, row'.status)]
    case SweptOff => Stale(cfg, row, now) && row' == SweepJob(cfg, row, now) && h' == h + [Swept(SweepFails(cfg, row))]
    case RetriedBy =>
      row.status == Failed && row' == row.(status := Pending, attempts := 0, runAt := now, finishedAt := None) && h' == h + [Retried]
  }

  lemma ClaimIsJobStep(cfg: Config, s: Sys, worker: Worker, chosen: set<JobId>, id: JobId)
    requires id in s.rows && id in s.hist && s.rows[id].queue in cfg.policies
    requires id in chosen ==> s.rows[id].status == Pending && s.rows[id].runAt <= s.now
    ensures var s' := AfterClaim(s, worker, chosen);
      JobStep(cfg, s.now, s.rows[id], s.hist[id], s'.rows[id], s'.hist[id], if id in chosen then TookBy(worker) else Kept)
  {
  }

  lemma SweepIsJobStep(cfg: Config, s: Sys, unlocked: set<JobId>, id: JobId)
    requires id in s.rows && id in s.hist && s.rows[id].queue in cfg.policies
    ensures var s' := AfterSweep(cfg, s, unlocked);
      JobStep(cfg, s.now, s.rows[id], s.hist[id], s'.rows[id], s'.hist[id],
              if id in unlocked && Stale(cfg, s.rows[id], s.now) then SweptOff else Kept)
  {
  }

  lemma RecordIsJobStep(cfg: Config, s: Sys, r: RunId, id: JobId)
    requires id in s.rows && id in s.hist && s.rows[id].queue in cfg.policies
    requires r in s.runs && s.runs[r].phase.Settling? && RunInv(cfg, s, r)
    ensures var s', c := AfterRecord(cfg, s, r), s.runs[r].claimed;
      JobStep(cfg, s.now, s.rows[id], s.hist[id], s'.rows[id], s'.hist[id],
              if id == r.job && Held(s.rows, c) then RecordedBy(c, s.runs[r].phase.outcome, r.index) else Kept)
  {
  }

  /** Each action is, for each row, one of these changes; the claim, the sweep and the retry are their own. */
  lemma StepIsJobStep(cfg: Config, s: Sys, a: Action, id: JobId) returns (ch: Change)
    requires Inv(cfg, s) && Enabled(cfg, s, a) && id in s.rows && id in Next(cfg, s, a).rows
    ensures s.rows[id].queue in cfg.policies && id in Next(cfg, s, a).hist
    ensures JobStep(cfg, s.now, s.rows[id], s.hist[id], Next(cfg, s, a).rows[id], Next(cfg, s, a).hist[id], ch)
    ensures ch.Renewed? ==> a.Renew? && a.run.job == id
    ensures ch.TookBy? ==> a.Claim? && id in a.chosen && a.worker == ch.worker
    ensures ch.RecordedBy? ==> a.Record? && a.run.job == id && ch.c == s.runs[a.run].claimed && s.runs[a.run].phase == Settling(ch.outcome)
    ensures ch.SweptOff? ==> a.Sweep?
    ensures ch.RetriedBy? ==> a == Retry(id)
  {
    assert RowOk(cfg, s.rows[id]) && id in s.hist;
    ch := Kept;
    match a
    case Claim(worker, _, _, _, chosen) =>
      ClaimIsJobStep(cfg, s, worker, chosen, id);
      if id in chosen { ch := TookBy(worker); }
    case Renew(r) =>
      assert RunInv(cfg, s, r);
      if id == r.job && Held(s.rows, s.runs[r].claimed) { ch := Renewed; }
    case Record(r) =>
      assert RunInv(cfg, s, r);
      RecordIsJobStep(cfg, s, r, id);
      if id == r.job && Held(s.rows, s.runs[r].claimed) { ch := RecordedBy(s.runs[r].claimed, s.runs[r].phase.outcome, r.index); }
    case Sweep(unlocked) =>
      SweepIsJobStep(cfg, s, unlocked, id);
      if id in unlocked && Stale(cfg, s.rows[id], s.now) { ch := SweptOff; }
    case Retry(other) => if id == other && s.rows[id].status == Failed { ch := RetriedBy; }
    case _ =>
  }

  /** A history only moves together with its row. */
  lemma NoRowNoEvent(cfg: Config, s: Sys, a: Action, id: JobId)
    requires Inv(cfg, s) && Enabled(cfg, s, a) && id in s.hist && (id !in s.rows || id !in Next(cfg, s, a).rows)
    ensures id in Next(cfg, s, a).hist && Next(cfg, s, a).hist[id] == s.hist[id]
  {
  }
}
