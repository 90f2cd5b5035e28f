/**
 * The rows of queue_jobs and the SQL statements that change them
 * (src/core/queue/postgresDriver.js). Each statement is one atomic step. What
 * FOR UPDATE SKIP LOCKED leaves to the database, namely which unlocked rows a
 * statement takes, is a parameter of the step.
 */
module QueueRows {
  import opened Common
  import opened QueuePolicy

  type JobId = nat
  type Worker = string

  datatype Status = Pending | Active | Completed | Failed

  datatype Job = Job(
    queue: string, name: string, payload: string, dedupeKey: Option<string>,
    status: Status, attempts: nat, maxAttempts: nat, runAt: int,
    lockedAt: Option<int>, lockedBy: Option<Worker>, finishedAt: Option<int>, lastError: Option<string>)

  type Rows = map<JobId, Job>

  /** What the worker is configured with; it does not change while it runs. */
  datatype Config = Config(policies: map<string, Policy>, once: set<string>, resumable: set<string>, staleLockMs: nat)

  /** The snapshot of a row that a claim returns and its run then carries. */
  datatype Claimed = Claimed(id: JobId, worker: Worker, attempts: nat, queue: string, maxAttempts: nat)

  datatype Outcome = Success | Failure(error: JobError)

  const RESUMES := 2

  const INTERRUPTED := "Its worker stopped while it was running; not run again"

  function Key(job: Job): string { job.queue + "/" + job.name }

  /** The most attempts a job can reach: RESUMES more for a resumable one. */
  function Bound(cfg: Config, job: Job): nat {
    job.maxAttempts + if Key(job) in cfg.resumable then RESUMES else 0
  }

  // ---------------------------------------------------------------- add

  predicate KeyTaken(rows: Rows, key: string) {
    exists id :: id in rows && rows[id].dedupeKey == Some(key)
  }

  function NewJob(policy: Policy, queue: string, name: string, payload: string, delayMs: int,
                  dedupeKey: Option<string>, now: int): Job {
    Job(queue, name, payload, dedupeKey, Pending, 0, |policy.delays| + 1, now + Max(0, delayMs), None, None, None, None)
  }

  /** INSERT ... ON CONFLICT (dedupe_key) DO NOTHING, for a queue that has a policy. */
  function AddRow(cfg: Config, rows: Rows, id: JobId, queue: string, name: string, payload: string, delayMs: int,
                  dedupeKey: Option<string>, now: int): Rows
    requires queue in cfg.policies
  {
    if dedupeKey.Some? && KeyTaken(rows, dedupeKey.value) then rows
    else rows[id := NewJob(cfg.policies[queue], queue, name, payload, delayMs, dedupeKey, now)]
  }

  // -------------------------------------------------------------- claim

  predicate Due(job: Job, queues: set<string>, now: int) {
    job.status == Pending && job.runAt <= now && job.queue in queues
  }

  function DueRows(rows: Rows, queues: set<string>, now: int): set<JobId> {
    set id | id in rows && Due(rows[id], queues, now)
  }

  /** `chosen` is what ORDER BY run_at LIMIT `limit` takes of the due rows no one else has locked. */
  ghost predicate ClaimChoice(rows: Rows, unlocked: set<JobId>, queues: set<string>, limit: int, now: int, chosen: set<JobId>) {
    var open := DueRows(rows, queues, now) * unlocked;
    && chosen <= open
    && |chosen| == Max(0, Min(limit, |open|))
    && forall a, b :: a in chosen && b in open && b !in chosen ==> rows[a].runAt <= rows[b].runAt
  }

  function ClaimJob(job: Job, worker: Worker, now: int): Job {
    job.(status := Active, attempts := job.attempts + 1, lockedAt := Some(now), lockedBy := Some(worker))
  }

  function ClaimRows(rows: Rows, chosen: set<JobId>, worker: Worker, now: int): Rows {
    map id | id in rows :: if id in chosen then ClaimJob(rows[id], worker, now) else rows[id]
  }

  // --------------------------------------------- what a run may write back

  predicate Held(rows: Rows, c: Claimed) {
    c.id in rows && rows[c.id].lockedBy == Some(c.worker) && rows[c.id].status == Active && rows[c.id].attempts == c.attempts
  }

  function RenewRow(rows: Rows, c: Claimed, now: int): Rows {
    if Held(rows, c) then rows[c.id := rows[c.id].(lockedAt := Some(now))] else rows
  }

  predicate Retries(cfg: Config, c: Claimed, err: JobError)
    requires c.queue in cfg.policies
  {
    c.attempts < c.maxAttempts && !IsPermanent(cfg.policies[c.queue], err)
  }

  function FinishJob(cfg: Config, job: Job, c: Claimed, outcome: Outcome, now: int): Job
    requires c.queue in cfg.policies
  {
    var unlocked := job.(lockedAt := None, lockedBy := None);
    match outcome
    case Success => unlocked.(status := Completed, finishedAt := Some(now), lastError := None)
    case Failure(err) =>
      var message := err.message[..Min(2000, |err.message|)];
      if Retries(cfg, c, err) then
        unlocked.(status := Pending, runAt := now + RetryDelay(cfg.policies[c.queue].delays, c.attempts), lastError := Some(message))
      else
        unlocked.(status := Failed, finishedAt := Some(now), lastError := Some(message))
  }

  function FinishRow(cfg: Config, rows: Rows, c: Claimed, outcome: Outcome, now: int): Rows
    requires c.queue in cfg.policies
  {
    if Held(rows, c) then rows[c.id := FinishJob(cfg, rows[c.id], c, outcome, now)] else rows
  }

  // -------------------------------------------------------------- sweep

  predicate Stale(cfg: Config, job: Job, now: int) {
    job.status == Active && job.lockedAt.Some? && job.lockedAt.value < now - cfg.staleLockMs
  }

  predicate SweepFails(cfg: Config, job: Job) {
    Key(job) in cfg.once || job.attempts >= Bound(cfg, job)
  }

  function SweepJob(cfg: Config, job: Job, now: int): Job {
    var unlocked := job.(lockedAt := None, lockedBy := None);
    if SweepFails(cfg, job) then unlocked.(status := Failed, finishedAt := Some(now), lastError := Some(INTERRUPTED))
    else unlocked.(status := Pending)
  }

  /** `chosen`: the stale rows no one else has locked. */
  function SweepRows(cfg: Config, rows: Rows, chosen: set<JobId>, now: int): Rows {
    map id | id in rows :: if id in chosen && Stale(cfg, rows[id], now) then SweepJob(cfg, rows[id], now) else rows[id]
  }

  // ----------------------------------------------------- console and prune

  function RetryRow(rows: Rows, id: JobId, now: int): Rows {
    if id in rows && rows[id].status == Failed then
      rows[id := rows[id].(status := Pending, attempts := 0, runAt := now, finishedAt := None)]
    else rows
  }

  predicate Expired(job: Job, now: int, completedMs: int, failedMs: int) {
    job.finishedAt.Some? &&
    ((job.status == Completed && job.finishedAt.value < now - completedMs) ||
     (job.status == Failed && job.finishedAt.value < now - failedMs))
  }

  function PruneRows(rows: Rows, now: int, completedMs: int, failedMs: int): Rows {
    map id | id in rows && !Expired(rows[id], now, completedMs, failedMs) :: rows[id]
  }

  // ------------------------------------------------------------ invariants

  /** What every row of the table satisfies, whatever the workers do. */
  predicate RowOk(cfg: Config, job: Job) {
    && job.queue in cfg.policies
    && job.maxAttempts == |cfg.policies[job.queue].delays| + 1
    && job.attempts <= Bound(cfg, job)
    && (job.status == Pending ==> job.attempts < Bound(cfg, job))
    && (job.status == Active ==> job.attempts >= 1)
    && (job.status == Active <==> job.lockedAt.Some?)
    && (job.status == Active <==> job.lockedBy.Some?)
    && (job.finishedAt.Some? <==> job.status in {Completed, Failed})
  }

  ghost predicate RowsOk(cfg: Config, rows: Rows) {
    forall id {:trigger RowOk(cfg, rows[id])} :: id in rows ==> RowOk(cfg, rows[id])
  }

  predicate ShareKey(rows: Rows, a: JobId, b: JobId) {
    a in rows && b in rows && rows[a].dedupeKey.Some? && rows[a].dedupeKey == rows[b].dedupeKey
  }

  /** The partial unique index queue_jobs_dedupe_idx. */
  ghost predicate KeysUnique(rows: Rows) {
    forall a, b :: ShareKey(rows, a, b) ==> a == b
  }

  /** Attempts left and whether it is active, as one number that every step but a heartbeat lowers. */
  function Measure(cfg: Config, job: Job): int {
    2 * (Bound(cfg, job) - job.attempts) + if job.status == Active then 1 else 0
  }

  lemma KeysKept(rows: Rows, rows': Rows)
    requires KeysUnique(rows) && rows'.Keys <= rows.Keys
    requires forall id :: id in rows' ==> rows'[id].dedupeKey == rows[id].dedupeKey
    ensures KeysUnique(rows')
  {
    forall a, b | ShareKey(rows', a, b) ensures a == b { assert ShareKey(rows, a, b); }
  }

  /** Changing one row, not its dedupe key, to a good one. */
  lemma SetRowKeeps(cfg: Config, rows: Rows, id: JobId, job: Job)
    requires RowsOk(cfg, rows) && KeysUnique(rows) && id in rows
    requires RowOk(cfg, job) && job.dedupeKey == rows[id].dedupeKey
    ensures RowsOk(cfg, rows[id := job]) && KeysUnique(rows[id := job])
  {
    var rows' := rows[id := job];
    forall other | other in rows' ensures RowOk(cfg, rows'[other]) {
      if other != id { assert RowOk(cfg, rows[other]); }
    }
    KeysKept(rows, rows');
  }

  lemma AddKeepsRowsOk(cfg: Config, rows: Rows, id: JobId, queue: string, name: string, payload: string, delayMs: int,
                       dedupeKey: Option<string>, now: int)
    requires RowsOk(cfg, rows) && KeysUnique(rows) && id !in rows && queue in cfg.policies
    ensures var rows' := AddRow(cfg, rows, id, queue, name, payload, delayMs, dedupeKey, now);
      RowsOk(cfg, rows') && KeysUnique(rows')
  {
    var rows' := AddRow(cfg, rows, id, queue, name, payload, delayMs, dedupeKey, now);
    forall other | other in rows' ensures RowOk(cfg, rows'[other]) {
      if other != id { assert RowOk(cfg, rows[other]); }
    }
    forall a, b | ShareKey(rows', a, b) ensures a == b {
      assert a != id && b != id ==> ShareKey(rows, a, b);
    }
  }

  lemma PruneKeepsRowsOk(cfg: Config, rows: Rows, now: int, completedMs: int, failedMs: int)
    requires RowsOk(cfg, rows) && KeysUnique(rows)
    ensures RowsOk(cfg, PruneRows(rows, now, completedMs, failedMs)) && KeysUnique(PruneRows(rows, now, completedMs, failedMs))
  {
    var rows' := PruneRows(rows, now, completedMs, failedMs);
    forall id | id in rows' ensures RowOk(cfg, rows'[id]) { assert RowOk(cfg, rows[id]); }
    KeysKept(rows, rows');
  }

  lemma ClaimKeepsRowsOk(cfg: Config, rows: Rows, due: set<JobId>, chosen: set<JobId>, worker: Worker, now: int)
    requires RowsOk(cfg, rows) && KeysUnique(rows) && chosen <= due
    requires forall id :: id in due ==> id in rows && rows[id].status == Pending
    ensures RowsOk(cfg, ClaimRows(rows, chosen, worker, now)) && KeysUnique(ClaimRows(rows, chosen, worker, now))
  {
    var rows' := ClaimRows(rows, chosen, worker, now);
    forall id | id in rows' ensures RowOk(cfg, rows'[id]) { assert RowOk(cfg, rows[id]); }
    KeysKept(rows, rows');
  }

  lemma SweepKeepsRowsOk(cfg: Config, rows: Rows, chosen: set<JobId>, now: int)
    requires RowsOk(cfg, rows) && KeysUnique(rows)
    ensures RowsOk(cfg, SweepRows(cfg, rows, chosen, now)) && KeysUnique(SweepRows(cfg, rows, chosen, now))
  {
    var rows' := SweepRows(cfg, rows, chosen, now);
    forall id | id in rows' ensures RowOk(cfg, rows'[id]) { assert RowOk(cfg, rows[id]); }
    KeysKept(rows, rows');
  }

  // ------------------------------------------- what the contracts speak of

  /** The row is active under this worker and attempt. */
  predicate HeldAs(rows: Rows, id: JobId, worker: Worker, attempt: nat) {
    id in rows && rows[id].status == Active && rows[id].attempts == attempt && rows[id].lockedBy == Some(worker)
  }

  /** A failure that another attempt may mend: not declared permanent, nor, on a queue that stops on those, a client error. */
  predicate Retryable(policy: Policy, err: JobError) {
    !err.permanent && (policy.stopOnClientError ==>
      err.status.None? || err.status.value < 400 || err.status.value > 499 || err.status.value in {408, 429})
  }

  /**
   * What an outcome leaves of the row: unlocked and, after a success, completed;
   * after a failure back in line, due just the delay of that attempt later, when
   * attempts are left and one may mend it; else failed.
   */
  predicate EndedAs(policy: Policy, c: Claimed, outcome: Outcome, now: int, row: Job, row': Job) {
    && row'.lockedAt == None && row'.lockedBy == None
    && row' == row.(status := row'.status, runAt := row'.runAt, finishedAt := row'.finishedAt, lastError := row'.lastError,
                    lockedAt := None, lockedBy := None)
    && match outcome
       case Success => row'.status == Completed && row'.finishedAt == Some(now) && row'.lastError == None && row'.runAt == row.runAt
       case Failure(err) =>
         && row'.lastError == Some(Cut(err.message, 2000))
         && if c.attempts < c.maxAttempts && Retryable(policy, err) then
              && 1 <= c.attempts <= |policy.delays| && row'.status == Pending
              && row'.runAt == now + policy.delays[c.attempts - 1] && row'.finishedAt == row.finishedAt
            else row'.status == Failed && row'.finishedAt == Some(now) && row'.runAt == row.runAt
  }

  function Cut(s: string, n: nat): string { if |s| > n then s[..n] else s }

  /** The jobs of these queues that are to run by now and that no one runs. */
  function Waiting(rows: Rows, queues: set<string>, now: int): set<JobId> {
    set id | id in rows && rows[id].queue in queues && rows[id].status == Pending && !(rows[id].runAt > now)
  }

  predicate FinishedBefore(job: Job, at: int) { job.finishedAt.Some? && job.finishedAt.value < at }

  lemma FewerTaken(taken: set<JobId>, all: set<JobId>)
    requires taken <= all
    ensures taken != all ==> |taken| < |all|
  {
    if taken != all { assert |all - taken| == |all| - |taken| && all - taken != {}; }
  }

  /** Active, and its lock is older than `ms`. */
  predicate SilentFor(job: Job, now: int, ms: nat) {
    job.status == Active && job.lockedAt.Some? && now - job.lockedAt.value > ms
  }

  // ------------------------------------------------------------- the table

  /** queue_jobs, updated in place. */
  class JobTable {
    var rows: Rows
    const cfg: Config

    constructor (cfg: Config)
      ensures this.cfg == cfg && rows == map[]
    {
      this.cfg := cfg;
      rows := map[];
    }

    ghost predicate Valid()
      reads this
    {
      RowsOk(cfg, rows) && KeysUnique(rows)
    }

    method Add(id: JobId, queue: string, name: string, payload: string, delayMs: int, dedupeKey: Option<string>, now: int)
      returns (r: Result<bool, string>)
      requires Valid() && id !in rows
      modifies this
      ensures Valid()
      ensures r.Err? <==> queue !in cfg.policies
      ensures r.Err? ==> rows == old(rows)
      ensures r.Ok? ==> rows == AddRow(cfg, old(rows), id, queue, name, payload, delayMs, dedupeKey, now)
      ensures r.Ok? ==> r.value == (id in rows)
      ensures r.Ok? ==> (r.value <==> dedupeKey.None? || forall other :: other in old(rows) ==> old(rows)[other].dedupeKey != dedupeKey)
      ensures r.Ok? ==> rows == if r.value
        then old(rows)[id := Job(queue, name, payload, dedupeKey, Pending, 0, |cfg.policies[queue].delays| + 1,
                                 if delayMs > 0 then now + delayMs else now, None, None, None, None)]
        else old(rows)
    {
      if queue !in cfg.policies {
        return Err("Unknown queue " + queue);
      }
      var taken := dedupeKey.Some? && exists other :: other in rows && rows[other].dedupeKey == Some(dedupeKey.value);
      AddKeepsRowsOk(cfg, rows, id, queue, name, payload, delayMs, dedupeKey, now);
      if !taken {
        rows := rows[id := Job(queue, name, payload, dedupeKey, Pending, 0, |cfg.policies[queue].delays| + 1,
                               now + Max(0, delayMs), None, None, None, None)];
      }
      return Ok(!taken);
    }

    method Claim(worker: Worker, queues: set<string>, limit: int, now: int, unlocked: set<JobId>, chosen: set<JobId>)
      returns (claimed: set<Claimed>)
      requires Valid() && ClaimChoice(rows, unlocked, queues, limit, now, chosen)
      modifies this
      ensures Valid()
      ensures rows == ClaimRows(old(rows), chosen, worker, now)
      ensures |chosen| <= Max(0, limit)
      ensures chosen <= Waiting(old(rows), queues, now) * unlocked
      // what is left in line is later, and only left because the limit is reached
      ensures forall id :: id in Waiting(old(rows), queues, now) * unlocked - chosen ==>
        |chosen| >= limit && forall taken :: taken in chosen ==> old(rows)[taken].runAt <= old(rows)[id].runAt
      ensures rows.Keys == old(rows).Keys && forall id :: id in rows ==>
        rows[id] == if id in chosen
          then old(rows)[id].(status := Active, attempts := old(rows)[id].attempts + 1, lockedAt := Some(now), lockedBy := Some(worker))
          else old(rows)[id]
      ensures forall c :: c in claimed ==> c.id in chosen && Held(rows, c)
      ensures forall id :: id in chosen ==>
        Claimed(id, worker, old(rows)[id].attempts + 1, old(rows)[id].queue, old(rows)[id].maxAttempts) in claimed
    {
      ClaimKeepsRowsOk(cfg, rows, DueRows(rows, queues, now), chosen, worker, now);
      FewerTaken(chosen, DueRows(rows, queues, now) * unlocked);
      assert DueRows(rows, queues, now) == Waiting(rows, queues, now);
      claimed := set id | id in chosen :: Claimed(id, worker, rows[id].attempts + 1, rows[id].queue, rows[id].maxAttempts);
      rows := ClaimRows(rows, chosen, worker, now);
    }

    method Renew(c: Claimed, now: int)
      requires Valid()
      modifies this
      ensures Valid() && rows == RenewRow(old(rows), c, now)
      ensures rows == if HeldAs(old(rows), c.id, c.worker, c.attempts) then old(rows)[c.id := old(rows)[c.id].(lockedAt := Some(now))]
                      else old(rows)
    {
      if c.id in rows {
        var job := rows[c.id];
        if job.lockedBy == Some(c.worker) && job.status == Active && job.attempts == c.attempts {
          assert RowOk(cfg, job);
          SetRowKeeps(cfg, rows, c.id, job.(lockedAt := Some(now)));
          rows := rows[c.id := job.(lockedAt := Some(now))];
        }
      }
    }

    method Finish(c: Claimed, outcome: Outcome, now: int) returns (landed: bool)
      requires Valid() && c.queue in cfg.policies
      requires c.id in rows ==> rows[c.id].queue == c.queue && rows[c.id].maxAttempts == c.maxAttempts
      modifies this
      ensures Valid() && rows == FinishRow(cfg, old(rows), c, outcome, now)
      ensures landed <==> HeldAs(old(rows), c.id, c.worker, c.attempts)
      ensures rows.Keys == old(rows).Keys && forall id :: id in rows && !(landed && id == c.id) ==> rows[id] == old(rows)[id]
      ensures landed ==> EndedAs(cfg.policies[c.queue], c, outcome, now, old(rows)[c.id], rows[c.id])
    {
      landed := c.id in rows && rows[c.id].lockedBy == Some(c.worker) && rows[c.id].status == Active
                && rows[c.id].attempts == c.attempts;
      if !landed {
        return;
      }
      var job := rows[c.id].(lockedAt := None, lockedBy := None);
      if outcome.Success? {
        job := job.(status := Completed, finishedAt := Some(now), lastError := None);
      } else {
        var message := outcome.error.message[..Min(2000, |outcome.error.message|)];
        var policy := cfg.policies[c.queue];
        assert message == Cut(outcome.error.message, 2000);
        var retry := c.attempts < c.maxAttempts && !IsPermanent(policy, outcome.error);
        if retry {
          job := job.(status := Pending, runAt := now + RetryDelay(policy.delays, c.attempts), lastError := Some(message));
        } else {
          job := job.(status := Failed, finishedAt := Some(now), lastError := Some(message));
        }
      }
      assert RowOk(cfg, rows[c.id]);
      SetRowKeeps(cfg, rows, c.id, job);
      rows := rows[c.id := job];
    }

    /** Returns the jobs the sweep failed: the ones whose interruption is reported. */
    method ReleaseStale(now: int, unlocked: set<JobId>) returns (cutOff: set<JobId>)
      requires Valid()
      modifies this
      ensures Valid() && rows == SweepRows(cfg, old(rows), unlocked, now)
      ensures cutOff == set id | id in old(rows) && id in unlocked && Stale(cfg, old(rows)[id], now) && SweepFails(cfg, old(rows)[id])
      ensures rows.Keys == old(rows).Keys
      ensures forall id :: id in rows && !(id in unlocked && SilentFor(old(rows)[id], now, cfg.staleLockMs)) ==>
        rows[id] == old(rows)[id] && id !in cutOff
      // cut off for good: a job that may not run twice, or one whose attempts, two more when resumable, are used up
      ensures forall id :: id in rows && id in unlocked && SilentFor(old(rows)[id], now, cfg.staleLockMs) ==>
        var job, key := old(rows)[id], old(rows)[id].queue + "/" + old(rows)[id].name;
        var usedUp := job.attempts >= job.maxAttempts + if key in cfg.resumable then 2 else 0;
        && (id in cutOff <==> key in cfg.once || usedUp)
        && rows[id] == if id in cutOff
             then job.(status := Failed, finishedAt := Some(now), lockedAt := None, lockedBy := None, lastError := Some(INTERRUPTED))
             else job.(status := Pending, lockedAt := None, lockedBy := None)
    {
      SweepKeepsRowsOk(cfg, rows, unlocked, now);
      cutOff := set id | id in rows && id in unlocked && Stale(cfg, rows[id], now) && SweepFails(cfg, rows[id]);
      rows := SweepRows(cfg, rows, unlocked, now);
    }

    method RetryJob(id: JobId, now: int) returns (found: bool)
      requires Valid()
      modifies this
      ensures Valid() && rows == RetryRow(old(rows), id, now)
      ensures found <==> id in old(rows) && old(rows)[id].status == Failed
      ensures rows == if found then old(rows)[id := old(rows)[id].(status := Pending, attempts := 0, runAt := now, finishedAt := None)]
                      else old(rows)
    {
      found := id in rows && rows[id].status == Failed;
      if found {
        assert RowOk(cfg, rows[id]);
        SetRowKeeps(cfg, rows, id, rows[id].(status := Pending, attempts := 0, runAt := now, finishedAt := None));
        rows := rows[id := rows[id].(status := Pending, attempts := 0, runAt := now, finishedAt := None)];
      }
    }

    method Prune(now: int, completedMs: int, failedMs: int) returns (removed: nat)
      requires Valid()
      modifies this
      ensures Valid() && rows == PruneRows(old(rows), now, completedMs, failedMs)
      ensures rows.Keys <= old(rows).Keys && removed == |old(rows)| - |rows|
      ensures forall id :: id in rows ==> rows[id] == old(rows)[id]
      ensures forall id :: id in old(rows) ==>
        var job := old(rows)[id];
        id !in rows <==> ((job.status == Completed && FinishedBefore(job, now - completedMs))
                          || (job.status == Failed && FinishedBefore(job, now - failedMs)))
    {
      var expired := set id | id in rows && Expired(rows[id], now, completedMs, failedMs);
      ghost var before := rows;
      PruneKeepsRowsOk(cfg, rows, now, completedMs, failedMs);
      rows := rows - expired;
      assert rows == PruneRows(before, now, completedMs, failedMs);
      removed := |expired|;
      assert rows.Keys == before.Keys - expired;
      assert |before.Keys| == |rows.Keys| + |expired|;
    }
  }
}
