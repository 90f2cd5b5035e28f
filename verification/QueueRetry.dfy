/**
 * What a manual retry (`retryJob`) does: attempt numbers start again at 0. It
 * keeps the fence exactly when no run of the job is left that may still write,
 * and keeps handlers apart exactly when none is left that may still run, or put
 * the job back in line.
 */
module QueueRetry {
  import opened Common
  import opened QueuePolicy
  import opened QueueRows
  import opened QueueRuns
  import opened QueueSafety
  import opened QueueTiming

  function Last(states: seq<Sys>): Sys
    requires states != []
  {
    states[|states| - 1]
  }

  lemma Step(cfg: Config, states: seq<Sys>, acts: seq<Action>, a: Action) returns (states': seq<Sys>, acts': seq<Action>)
    requires Execution(cfg, states, acts) && Enabled(cfg, Last(states), a)
    ensures states' == states + [Next(cfg, Last(states), a)] && acts' == acts + [a] && Execution(cfg, states', acts')
    ensures Inv(cfg, Last(states'))
  {
    states', acts' := states + [Next(cfg, Last(states), a)], acts + [a];
    forall i | 0 <= i < |acts'| ensures Enabled(cfg, states'[i], acts'[i]) && states'[i + 1] == Next(cfg, states'[i], acts'[i]) {
      if i < |acts| { assert states'[i] == states[i] && states'[i + 1] == states[i + 1]; }
    }
    InvAlways(cfg, states', acts', |acts'|);
  }

  // ------------------------------------------- what a step does to one job

  /** One worker takes just this job. */
  function TakeOne(s: Sys, id: JobId, worker: Worker): Action
    requires id in s.rows
  {
    Claim(worker, {s.rows[id].queue}, 1, {id}, {id})
  }

  predicate RunsKeptBut(s: Sys, s': Sys, q: RunId) {
    forall r :: r in s.runs && r != q ==> r in s'.runs && s'.runs[r] == s.runs[r]
  }

  lemma TakeOneIsEnabled(cfg: Config, s: Sys, id: JobId, worker: Worker)
    requires id in s.rows && s.rows[id].status == Pending && s.rows[id].runAt <= s.now
    ensures Enabled(cfg, s, TakeOne(s, id, worker))
  {
    assert DueRows(s.rows, {s.rows[id].queue}, s.now) * {id} == {id};
  }

  lemma TakesRun(cfg: Config, s: Sys, id: JobId, worker: Worker)
    requires Inv(cfg, s) && id in s.rows && id in s.hist
    ensures var t, q := AfterClaim(s, worker, {id}), RunId(id, |s.hist[id]|);
      && q !in s.runs && q in t.runs && t.runs[q] == Run(Snapshot(s.rows, id, worker), Taken)
      && RunsKeptBut(s, t, q) && t.runs.Keys == s.runs.Keys + {q}
  {
    var q := RunId(id, |s.hist[id]|);
    assert q in s.runs ==> RunInv(cfg, s, q);
    assert NewRuns(s, {id}) == {q};
  }

  lemma TakesOne(cfg: Config, s: Sys, id: JobId, worker: Worker)
    requires Inv(cfg, s) && id in s.rows && s.rows[id].status == Pending && s.rows[id].runAt <= s.now
    ensures Enabled(cfg, s, TakeOne(s, id, worker)) && id in s.hist
    ensures var t, q := Next(cfg, s, TakeOne(s, id, worker)), RunId(id, |s.hist[id]|);
      && t.now == s.now && id in t.rows && t.rows[id] == ClaimJob(s.rows[id], worker, s.now)
      && id in t.hist && t.hist[id] == s.hist[id] + [Took(worker, s.rows[id].attempts + 1, s.now)]
      && q !in s.runs && q in t.runs && t.runs[q] == Run(Snapshot(s.rows, id, worker), Taken) && RunsKeptBut(s, t, q)
      && t.runs.Keys == s.runs.Keys + {q}
  {
    TakeOneIsEnabled(cfg, s, id, worker);
    TakesRun(cfg, s, id, worker);
  }

  lemma RecordsOne(cfg: Config, s: Sys, q: RunId)
    requires Inv(cfg, s) && q in s.runs && s.runs[q].phase.Settling? && Held(s.rows, s.runs[q].claimed)
    ensures Enabled(cfg, s, Record(q)) && q.job in s.rows && q.job in s.hist && s.runs[q].claimed.id == q.job
    ensures var t, id := Next(cfg, s, Record(q)), q.job;
      && t.now == s.now && id in t.rows && t.rows[id] == FinishJob(cfg, s.rows[id], s.runs[q].claimed, s.runs[q].phase.outcome, s.now)
      && id in t.hist && t.hist[id] == s.hist[id] + [Recorded(q.index, t.rows[id].status)]
      && RunsKeptBut(s, t, q) && t.runs.Keys == s.runs.Keys && t.runs[q].phase == Over
  {
    assert RunInv(cfg, s, q);
  }

  lemma SweepsOne(cfg: Config, s: Sys, id: JobId)
    requires Inv(cfg, s) && id in s.rows && Stale(cfg, s.rows[id], s.now)
    ensures Enabled(cfg, s, Sweep({id})) && id in s.hist
    ensures var t := Next(cfg, s, Sweep({id}));
      && t.now == s.now && id in t.rows && t.rows[id] == SweepJob(cfg, s.rows[id], s.now)
      && id in t.hist && t.hist[id] == s.hist[id] + [Swept(SweepFails(cfg, s.rows[id]))]
      && t.runs == s.runs
  {
  }

  lemma RetriesOne(cfg: Config, s: Sys, id: JobId)
    requires Inv(cfg, s) && CanRetry(s, id)
    ensures Enabled(cfg, s, Retry(id)) && id in s.hist
    ensures var t := Next(cfg, s, Retry(id));
      && t.now == s.now && id in t.rows
      && t.rows[id] == s.rows[id].(status := Pending, attempts := 0, runAt := s.now, finishedAt := None)
      && id in t.hist && t.hist[id] == s.hist[id] + [Retried] && t.runs == s.runs
  {
  }

  lemma MovesOne(cfg: Config, s: Sys, q: RunId, phase: Phase)
    requires q in s.runs
    ensures var t := SetPhase(s, q, phase);
      t.now == s.now && t.rows == s.rows && t.hist == s.hist && t.runs[q] == Run(s.runs[q].claimed, phase) && RunsKeptBut(s, t, q)
      && t.runs.Keys == s.runs.Keys
  {
  }

  // ------------------------------------------------- attempts a job can reach

  /** The most attempts a job can reach: a `once` job is never swept back in line. */
  function Most(cfg: Config, job: Job): nat {
    if Key(job) in cfg.once then job.maxAttempts else Bound(cfg, job)
  }

  ghost predicate Fits(cfg: Config, job: Job, h: History) {
    && job.attempts <= Most(cfg, job) && (job.status == Pending ==> job.attempts < Most(cfg, job))
    && forall k :: 0 <= k < |h| && h[k].Took? ==> h[k].attempt <= Most(cfg, job)
  }

  lemma FitsKept(cfg: Config, now: int, row: Job, h: History, row': Job, h': History, ch: Change)
    requires RowOk(cfg, row) && JobStep(cfg, now, row, h, row', h', ch) && Fits(cfg, row, h)
    ensures Fits(cfg, row', h')
  {
  }

  lemma {:induction false} FitsAlways(cfg: Config, states: seq<Sys>, acts: seq<Action>, i: nat, id: JobId)
    requires Execution(cfg, states, acts) && i < |states| && id in states[i].rows
    ensures id in states[i].hist && Fits(cfg, states[i].rows[id], states[i].hist[id])
  {
    InvAlways(cfg, states, acts, i);
    if i > 0 {
      var s, a := states[i - 1], acts[i - 1];
      assert Enabled(cfg, s, a) && states[i] == Next(cfg, s, a);
      InvAlways(cfg, states, acts, i - 1);
      assert RowOk(cfg, states[i].rows[id]);
      if id in s.rows {
        FitsAlways(cfg, states, acts, i - 1, id);
        assert RowOk(cfg, s.rows[id]);
        var ch := StepIsJobStep(cfg, s, a, id);
        FitsKept(cfg, s.now, s.rows[id], s.hist[id], states[i].rows[id], states[i].hist[id], ch);
      } else {
        assert a.Add? && states[i].hist[id] == [];
      }
    }
  }

  // ------------------------------------------- climbing back to an attempt

  /** An execution that goes on from another one, without retrying the job again. */
  ghost predicate GoesOn(states: seq<Sys>, acts: seq<Action>, states': seq<Sys>, acts': seq<Action>, id: JobId) {
    && states <= states' && acts <= acts'
    && forall k :: |acts| <= k < |acts'| ==> acts'[k] != Retry(id)
  }

  /** No handler runs but, perhaps, that of `r`. */
  ghost predicate Quiescent(s: Sys, r: RunId) { forall x :: Live(s, x) ==> x == r }

  /** From `from` on time passes only while no other handler runs. */
  ghost predicate Calm(states: seq<Sys>, acts: seq<Action>, from: nat, r: RunId)
    requires |states| == |acts| + 1
  {
    forall k :: from <= k < |acts| && acts[k].Tick? ==> Quiescent(states[k], r)
  }

  /** How the lemmas below go on from `done`: the job not retried again, time passing calmly. */
  ghost predicate OnTheWay(cfg: Config, from: seq<Sys>, done: seq<Action>, states: seq<Sys>, acts: seq<Action>, id: JobId, r: RunId) {
    Execution(cfg, states, acts) && GoesOn(from, done, states, acts, id) && Calm(states, acts, |done|, r) && Inv(cfg, Last(states))
  }

  lemma GoOn(cfg: Config, from: seq<Sys>, done: seq<Action>, states: seq<Sys>, acts: seq<Action>, id: JobId, r: RunId, a: Action)
    returns (states': seq<Sys>, acts': seq<Action>)
    requires OnTheWay(cfg, from, done, states, acts, id, r) && Enabled(cfg, Last(states), a) && a != Retry(id)
    requires a.Tick? ==> Quiescent(Last(states), r)
    ensures OnTheWay(cfg, from, done, states', acts', id, r) && Last(states') == Next(cfg, Last(states), a)
    ensures states' == states + [Last(states')] && acts' == acts + [a]
  {
    states', acts' := Step(cfg, states, acts, a);
  }

  function LiveOthers(s: Sys, r: RunId): set<RunId> { set x | x in s.runs && Live(s, x) && x != r }

  /** Every other run is lost: its process stops. */
  lemma {:induction false} LoseOthers(cfg: Config, from: seq<Sys>, done: seq<Action>, states: seq<Sys>, acts: seq<Action>, id: JobId, r: RunId)
    returns (states': seq<Sys>, acts': seq<Action>)
    requires OnTheWay(cfg, from, done, states, acts, id, r)
    ensures OnTheWay(cfg, from, done, states', acts', id, r) && Quiescent(Last(states'), r)
    ensures var s, t := Last(states), Last(states');
      t.now == s.now && t.rows == s.rows && t.hist == s.hist && (r in s.runs ==> r in t.runs && t.runs[r] == s.runs[r])
    decreases LiveOthers(Last(states), r)
  {
    states', acts' := states, acts;
    if LiveOthers(Last(states), r) != {} {
      var x :| x in LiveOthers(Last(states), r);
      MovesOne(cfg, Last(states), x, Over);
      states', acts' := GoOn(cfg, from, done, states, acts, id, r, Lose(x));
      LoseOne(Last(states), x, r);
      states', acts' := LoseOthers(cfg, from, done, states', acts', id, r);
    } else {
      forall x | Live(Last(states), x) ensures x == r {
        assert x !in LiveOthers(Last(states), r);
      }
    }
  }

  lemma LoseOne(s: Sys, x: RunId, r: RunId)
    requires x in LiveOthers(s, r)
    ensures LiveOthers(SetPhase(s, x, Over), r) < LiveOthers(s, r)
  {
    assert x !in LiveOthers(SetPhase(s, x, Over), r);
  }

  /** The job waits for another attempt below `target`, and run `r` of it is as it was. */
  ghost predicate Climbing(cfg: Config, s: Sys, id: JobId, r: RunId, run: Run, target: nat) {
    && Inv(cfg, s) && id in s.rows && id in s.hist && s.rows[id].status == Pending
    && s.rows[id].attempts < target <= Most(cfg, s.rows[id])
    && r in s.runs && s.runs[r] == run && r.job == id && r.index < |s.hist[id]| && Quiescent(s, r)
  }

  ghost predicate OnlyLive(s: Sys, r: RunId, q: RunId) { forall x :: Live(s, x) ==> x == r || x == q }

  /** A step that moves `q` alone brings no other handler to life. */
  lemma StillOnly(s: Sys, t: Sys, r: RunId, q: RunId)
    requires OnlyLive(s, r, q) && RunsKeptBut(s, t, q) && t.runs.Keys == s.runs.Keys
    ensures OnlyLive(t, r, q) && (!Live(t, q) ==> Quiescent(t, r))
  {
    forall x | Live(t, x) ensures x == r || x == q {
      assert x == q || Live(s, x);
    }
  }

  /** Run `q` of the job has just been claimed; no other handler runs but, perhaps, that of `r`. */
  ghost predicate JustTaken(s: Sys, id: JobId, q: RunId, r: RunId, worker: Worker) {
    && id in s.rows && id in s.hist && s.rows[id].status == Active && s.rows[id].lockedBy == Some(worker) && s.rows[id].lockedAt == Some(s.now)
    && q.job == id && |s.hist[id]| == q.index + 1 && s.hist[id][q.index].Took? && s.hist[id][q.index].at == s.now
    && q in s.runs && s.runs[q] == Run(Claimed(id, worker, s.rows[id].attempts, s.rows[id].queue, s.rows[id].maxAttempts), Taken)
    && OnlyLive(s, r, q)
  }

  lemma WaitUntilDue(cfg: Config, from: seq<Sys>, done: seq<Action>, states: seq<Sys>, acts: seq<Action>, id: JobId, r: RunId)
    returns (states': seq<Sys>, acts': seq<Action>)
    requires OnTheWay(cfg, from, done, states, acts, id, r) && id in Last(states).rows && Quiescent(Last(states), r)
    ensures OnTheWay(cfg, from, done, states', acts', id, r) && Quiescent(Last(states'), r)
    ensures var s, t := Last(states), Last(states');
      t.rows == s.rows && t.hist == s.hist && t.runs == s.runs && s.rows[id].runAt <= t.now
  {
    var s := Last(states);
    states', acts' := GoOn(cfg, from, done, states, acts, id, r, Tick(Max(0, s.rows[id].runAt - s.now)));
    assert forall x :: Live(Last(states'), x) ==> Live(s, x);
  }

  /** When the job is due, the worker takes it. */
  lemma TakeWhenDue(cfg: Config, from: seq<Sys>, done: seq<Action>, states: seq<Sys>, acts: seq<Action>,
    id: JobId, r: RunId, run: Run, target: nat, worker: Worker) returns (states': seq<Sys>, acts': seq<Action>, q: RunId)
    requires OnTheWay(cfg, from, done, states, acts, id, r) && Climbing(cfg, Last(states), id, r, run, target)
    ensures OnTheWay(cfg, from, done, states', acts', id, r) && JustTaken(Last(states'), id, q, r, worker)
    ensures var s, t := Last(states), Last(states');
      && t.rows[id].attempts == s.rows[id].attempts + 1 && SameJob(s.rows[id], t.rows[id])
      && r.index < q.index && r in t.runs && t.runs[r] == run
  {
    var s := Last(states);
    states', acts' := WaitUntilDue(cfg, from, done, states, acts, id, r);
    var due := Last(states');
    q := JustTakes(cfg, due, id, r, worker);
    states', acts' := GoOn(cfg, from, done, states', acts', id, r, TakeOne(due, id, worker));
  }

  lemma JustTakes(cfg: Config, s: Sys, id: JobId, r: RunId, worker: Worker) returns (q: RunId)
    requires Inv(cfg, s) && id in s.rows && s.rows[id].status == Pending && s.rows[id].runAt <= s.now && Quiescent(s, r)
    ensures Enabled(cfg, s, TakeOne(s, id, worker)) && id in s.hist && q == RunId(id, |s.hist[id]|) && q !in s.runs
    ensures var t := Next(cfg, s, TakeOne(s, id, worker));
      && JustTaken(t, id, q, r, worker) && RunsKeptBut(s, t, q)
      && t.rows[id].attempts == s.rows[id].attempts + 1 && SameJob(s.rows[id], t.rows[id])
  {
    TakesOne(cfg, s, id, worker);
    q := RunId(id, |s.hist[id]|);
    OnlyNewLive(s, Next(cfg, s, TakeOne(s, id, worker)), q);
  }

  predicate SameJob(a: Job, b: Job) { a.queue == b.queue && a.name == b.name && a.maxAttempts == b.maxAttempts }

  lemma OnlyNewLive(s: Sys, t: Sys, q: RunId)
    requires RunsKeptBut(s, t, q) && t.runs.Keys == s.runs.Keys + {q}
    ensures forall x :: Live(t, x) ==> x == q || Live(s, x)
  {
  }

  const ODD_ERROR := Failure(JobError(false, None, ""))

  /** A step that only moves run `q` on. */
  lemma MoveOn(cfg: Config, from: seq<Sys>, done: seq<Action>, states: seq<Sys>, acts: seq<Action>,
    id: JobId, r: RunId, q: RunId, phase: Phase, a: Action) returns (states': seq<Sys>, acts': seq<Action>)
    requires OnTheWay(cfg, from, done, states, acts, id, r) && Enabled(cfg, Last(states), a) && (a.Start? || a.End?)
    requires q in Last(states).runs && OnlyLive(Last(states), r, q) && Next(cfg, Last(states), a) == SetPhase(Last(states), q, phase)
    ensures OnTheWay(cfg, from, done, states', acts', id, r) && OnlyLive(Last(states'), r, q)
    ensures var s, t := Last(states), Last(states');
      && t.now == s.now && t.rows == s.rows && t.hist == s.hist && RunsKeptBut(s, t, q)
      && q in t.runs && t.runs[q] == Run(s.runs[q].claimed, phase) && t.runs.Keys == s.runs.Keys
  {
    MovesOne(cfg, Last(states), q, phase);
    states', acts' := GoOn(cfg, from, done, states, acts, id, r, a);
    StillOnly(Last(states), Last(states'), r, q);
  }

  /** The attempt just taken fails, and the job goes back in line. */
  lemma FailAttempt(cfg: Config, from: seq<Sys>, done: seq<Action>, states: seq<Sys>, acts: seq<Action>,
    id: JobId, r: RunId, run: Run, q: RunId, worker: Worker) returns (states': seq<Sys>, acts': seq<Action>)
    requires OnTheWay(cfg, from, done, states, acts, id, r) && JustTaken(Last(states), id, q, r, worker)
    requires var s := Last(states); q != r && s.rows[id].attempts < s.rows[id].maxAttempts && r in s.runs && s.runs[r] == run
    ensures OnTheWay(cfg, from, done, states', acts', id, r) && Quiescent(Last(states'), r)
    ensures BackInLine(Last(states), Last(states'), id, r, run)
  {
    assert RunInv(cfg, Last(states), q);
    states', acts' := MoveOn(cfg, from, done, states, acts, id, r, q, Running, Start(q));
    states', acts' := MoveOn(cfg, from, done, states', acts', id, r, q, Settling(ODD_ERROR), End(q, ODD_ERROR));
    var ended := Last(states');
    RecordsOne(cfg, ended, q);
    states', acts' := GoOn(cfg, from, done, states', acts', id, r, Record(q));
    StillOnly(ended, Last(states'), r, q);
  }

  /** The job waits for its next attempt, and run `r` is as it was. */
  ghost predicate BackInLine(s: Sys, t: Sys, id: JobId, r: RunId, run: Run) {
    && id in s.rows && id in s.hist && id in t.rows && id in t.hist && t.rows[id].status == Pending && |t.hist[id]| > |s.hist[id]|
    && t.rows[id].attempts == s.rows[id].attempts && SameJob(s.rows[id], t.rows[id]) && r in t.runs && t.runs[r] == run
  }

  /** The attempt just taken is lost, goes stale, and the sweep puts the job back in line. */
  lemma SweepAttempt(cfg: Config, from: seq<Sys>, done: seq<Action>, states: seq<Sys>, acts: seq<Action>,
    id: JobId, r: RunId, run: Run, q: RunId, worker: Worker) returns (states': seq<Sys>, acts': seq<Action>)
    requires OnTheWay(cfg, from, done, states, acts, id, r) && JustTaken(Last(states), id, q, r, worker)
    requires var s := Last(states);
      q != r && Key(s.rows[id]) !in cfg.once && s.rows[id].attempts < Bound(cfg, s.rows[id]) && r in s.runs && s.runs[r] == run
    ensures OnTheWay(cfg, from, done, states', acts', id, r) && Quiescent(Last(states'), r)
    ensures BackInLine(Last(states), Last(states'), id, r, run)
  {
    MovesOne(cfg, Last(states), q, Over);
    states', acts' := GoOn(cfg, from, done, states, acts, id, r, Lose(q));
    StillOnly(Last(states), Last(states'), r, q);
    var lost := Last(states');
    states', acts' := GoOn(cfg, from, done, states', acts', id, r, Tick(cfg.staleLockMs + 1));
    SweepsOne(cfg, Last(states'), id);
    states', acts' := GoOn(cfg, from, done, states', acts', id, r, Sweep({id}));
    assert Last(states').runs == lost.runs;
    forall x | Live(Last(states'), x) ensures x == r { assert Live(lost, x); }
  }

  /** The worker takes the job again and again until it carries attempt `target`. */
  lemma {:induction false} Climb(cfg: Config, from: seq<Sys>, done: seq<Action>, states: seq<Sys>, acts: seq<Action>,
    id: JobId, r: RunId, run: Run, target: nat, worker: Worker) returns (states': seq<Sys>, acts': seq<Action>, q: RunId)
    requires OnTheWay(cfg, from, done, states, acts, id, r) && Climbing(cfg, Last(states), id, r, run, target)
    ensures OnTheWay(cfg, from, done, states', acts', id, r) && JustTaken(Last(states'), id, q, r, worker)
    ensures var s, t := Last(states), Last(states');
      t.rows[id].attempts == target && SameJob(s.rows[id], t.rows[id]) && r in t.runs && t.runs[r] == run && r.index < q.index
    decreases target - Last(states).rows[id].attempts
  {
    states', acts', q := TakeWhenDue(cfg, from, done, states, acts, id, r, run, target, worker);
    var t := Last(states');
    if t.rows[id].attempts < target {
      if t.rows[id].attempts < t.rows[id].maxAttempts {
        states', acts' := FailAttempt(cfg, from, done, states', acts', id, r, run, q, worker);
      } else {
        states', acts' := SweepAttempt(cfg, from, done, states', acts', id, r, run, q, worker);
      }
      states', acts', q := Climb(cfg, from, done, states', acts', id, r, run, target, worker);
    }
  }

  // ------------------------------------------------ when a retry is harmless

  /** The fence keeps out every run of the job but the one whose claim is the latest and open; runs that are over write nothing. */
  ghost predicate FenceHolds(s: Sys, id: JobId) {
    forall r :: r in s.runs && r.job == id && s.runs[r].phase != Over && Held(s.rows, s.runs[r].claimed) ==>
      id in s.hist && r.index == |s.hist[id]| - 1
  }

  /** The job is retried by hand, and then the execution goes on in any way without another retry of it. */
  ghost predicate AfterRetrying(cfg: Config, states: seq<Sys>, acts: seq<Action>, states': seq<Sys>, acts': seq<Action>, id: JobId)
    requires states != []
  {
    && Execution(cfg, states', acts') && Enabled(cfg, Last(states), Retry(id))
    && GoesOn(states + [Next(cfg, Last(states), Retry(id))], acts + [Retry(id)], states', acts', id)
  }

  /** After the retry, every other run lost, the worker of `r` climbs back to the attempt of `r`. */
  lemma RetryAndClimb(cfg: Config, states: seq<Sys>, acts: seq<Action>, id: JobId, r: RunId)
    returns (states': seq<Sys>, acts': seq<Action>, q: RunId)
    requires Execution(cfg, states, acts) && CanRetry(Last(states), id) && r in Last(states).runs && r.job == id
    ensures AfterRetrying(cfg, states, acts, states', acts', id) && Inv(cfg, Last(states'))
    ensures Calm(states', acts', |acts| + 1, r) && r.index < q.index
    ensures var c, t := Last(states).runs[r].claimed, Last(states');
      && r in t.runs && t.runs[r] == Last(states).runs[r] && JustTaken(t, id, q, r, c.worker) && t.rows[id].attempts == c.attempts
      && SameJob(Last(states).rows[id], t.rows[id])
  {
    var s := Last(states);
    InvAlways(cfg, states, acts, |acts|);
    FitsAlways(cfg, states, acts, |acts|, id);
    assert RunInv(cfg, s, r) && RowOk(cfg, s.rows[id]);
    RetriesOne(cfg, s, id);
    var c := s.runs[r].claimed;
    assert s.hist[id][r.index].attempt == c.attempts && MayFollow(s.hist[id][..r.index], s.hist[id][r.index]) by { assert JobInv(s, id); }
    var from, done := Step(cfg, states, acts, Retry(id));
    states', acts' := LoseOthers(cfg, from, done, from, done, id, r);
    states', acts', q := Climb(cfg, from, done, states', acts', id, r, s.runs[r], c.attempts, c.worker);
  }

  /** A run that is not over when its job is retried can write over a later claim. */
  lemma UnquietRetryBreaksTheFence(cfg: Config, states: seq<Sys>, acts: seq<Action>, id: JobId, r: RunId)
    returns (states': seq<Sys>, acts': seq<Action>)
    requires Execution(cfg, states, acts) && CanRetry(Last(states), id)
    requires r in Last(states).runs && r.job == id && Last(states).runs[r].phase != Over
    ensures AfterRetrying(cfg, states, acts, states', acts', id) && !FenceHolds(Last(states'), id)
  {
    InvAlways(cfg, states, acts, |acts|);
    assert RunInv(cfg, Last(states), r);
    var q;
    states', acts', q := RetryAndClimb(cfg, states, acts, id, r);
    assert Held(Last(states').rows, Last(states').runs[r].claimed);
  }

  lemma QuietGoesOn(states: seq<Sys>, acts: seq<Action>, states': seq<Sys>, acts': seq<Action>, id: JobId)
    requires |states| == |acts| + 1 && |states'| == |acts'| + 1 && GoesOn(states, acts, states', acts', id) && Quiet(states, acts, |acts|, id)
    ensures Quiet(states', acts', |acts'|, id)
  {
  }

  /**
   * A manual retry keeps the fence exactly when it finds every run of the job
   * over: then, however the system goes on, no run writes over a later claim;
   * otherwise it can go on so that one does.
   */
  lemma RetryKeepsFenceExactly(cfg: Config, states: seq<Sys>, acts: seq<Action>, id: JobId)
    requires Execution(cfg, states, acts) && Quiet(states, acts, |acts|, id) && CanRetry(Last(states), id)
    ensures AllOver(Last(states), id) <==>
      forall states', acts' :: AfterRetrying(cfg, states, acts, states', acts', id) ==> FenceHolds(Last(states'), id)
  {
    if AllOver(Last(states), id) {
      forall states', acts' | AfterRetrying(cfg, states, acts, states', acts', id) ensures FenceHolds(Last(states'), id) {
        var more, done := states + [Next(cfg, Last(states), Retry(id))], acts + [Retry(id)];
        assert Quiet(more, done, |done|, id);
        QuietGoesOn(more, done, states', acts', id);
        forall r | r in Last(states').runs && r.job == id && Last(states').runs[r].phase != Over && Held(Last(states').rows, Last(states').runs[r].claimed)
          ensures id in Last(states').hist && r.index == |Last(states').hist[id]| - 1
        {
          FencingWithQuietRetries(cfg, states', acts', |acts'|, r);
        }
      }
    } else {
      var r :| r in Last(states).runs && r.job == id && Last(states).runs[r].phase != Over;
      var states', acts' := UnquietRetryBreaksTheFence(cfg, states, acts, id, r);
    }
  }

  // --------------------------------------- when handlers are kept apart

  /** What was on time stays so, whatever comes after. */
  lemma OnTimeExtends(cfg: Config, states: seq<Sys>, acts: seq<Action>, states': seq<Sys>, acts': seq<Action>, i: nat, every: nat, lateMs: nat)
    requires |states| == |acts| + 1 && |states'| == |acts'| + 1 && states <= states' && acts <= acts' && i < |states|
    requires OnTimeAt(cfg, states, acts, i, every, lateMs)
    ensures OnTimeAt(cfg, states', acts', i, every, lateMs)
  {
    assert states'[i] == states[i];
    forall r, n: nat | Live(states[i], r) && r.job in states[i].hist && r.index < |states[i].hist[r.job]| && states[i].hist[r.job][r.index].Took?
      ensures BeatsKept(cfg, states', acts', i, r, ClaimedAt(states[i], r), n, every, lateMs)
    {
      var t := ClaimedAt(states[i], r);
      assert BeatsKept(cfg, states, acts, i, r, t, n, every, lateMs);
      if t + (n + every) * HeartbeatMs(cfg.staleLockMs) + lateMs < states[i].now {
        var b, a :| n < b <= n + every && BeatLanded(cfg, states, acts, i, r, t, b, lateMs, a);
        BeatStays(cfg, states, acts, states', acts', i, i, r, t, b, lateMs, a);
      }
    }
  }

  lemma BeatStays(cfg: Config, states: seq<Sys>, acts: seq<Action>, states': seq<Sys>, acts': seq<Action>, i: nat, j: nat, r: RunId, t: int, b: int, lateMs: nat, a: int)
    requires |states| == |acts| + 1 && |states'| == |acts'| + 1 && states <= states' && acts <= acts'
    requires i < |states| && i <= j < |states'| && BeatLanded(cfg, states, acts, i, r, t, b, lateMs, a)
    ensures BeatLanded(cfg, states', acts', j, r, t, b, lateMs, a)
  {
    assert states'[a] == states[a] && acts'[a] == acts[a];
  }

  /** A run's first `n + every` heartbeat periods are not over at its claim. */
  lemma NotYetDue(now: int, n: nat, every: nat, hb: nat, lateMs: nat)
    ensures !(now + (n + every) * hb + lateMs < now)
  {
    assert (n + every) * hb >= 0;
  }

  /** A step that takes no time leaves the heartbeats on time. */
  lemma StepStaysOnTime(cfg: Config, states: seq<Sys>, acts: seq<Action>, i: nat, every: nat, lateMs: nat)
    requires Execution(cfg, states, acts) && i < |acts| && !acts[i].Tick? && OnTimeAt(cfg, states, acts, i, every, lateMs)
    ensures OnTimeAt(cfg, states, acts, i + 1, every, lateMs)
  {
    var m := i + 1;
    var s, t := states[i], states[m];
    assert Enabled(cfg, s, acts[i]) && t == Next(cfg, s, acts[i]);
    InvAlways(cfg, states, acts, i);
    forall r, n: nat | Live(states[m], r) && r.job in states[m].hist && r.index < |states[m].hist[r.job]| && states[m].hist[r.job][r.index].Took?
      ensures BeatsKept(cfg, states, acts, m, r, ClaimedAt(states[m], r), n, every, lateMs)
    {
      if r in s.runs {
        LiveClaimedBefore(cfg, s, acts[i], r);
        BeatsStayKept(cfg, states, acts, i, r, ClaimedAt(s, r), n, every, lateMs);
      } else {
        NewRunClaimedNow(cfg, s, acts[i], r);
        NotYetDue(t.now, n, every, HeartbeatMs(cfg.staleLockMs), lateMs);
      }
    }
  }

  lemma BeatsStayKept(cfg: Config, states: seq<Sys>, acts: seq<Action>, i: nat, r: RunId, t: int, n: nat, every: nat, lateMs: nat)
    requires |states| == |acts| + 1 && i < |acts| && states[i + 1].now == states[i].now && BeatsKept(cfg, states, acts, i, r, t, n, every, lateMs)
    ensures BeatsKept(cfg, states, acts, i + 1, r, t, n, every, lateMs)
  {
    if t + (n + every) * HeartbeatMs(cfg.staleLockMs) + lateMs < states[i].now {
      var b, a :| n < b <= n + every && BeatLanded(cfg, states, acts, i, r, t, b, lateMs, a);
      BeatStays(cfg, states, acts, states, acts, i, i + 1, r, t, b, lateMs, a);
    }
  }

  lemma LiveClaimedBefore(cfg: Config, s: Sys, a: Action, r: RunId)
    requires Inv(cfg, s) && Enabled(cfg, s, a) && !a.Tick? && r in s.runs && Live(Next(cfg, s, a), r)
    ensures Live(s, r) && Next(cfg, s, a).now == s.now
    ensures r.job in s.hist && r.index < |s.hist[r.job]| && s.hist[r.job][r.index].Took?
    ensures r.job in Next(cfg, s, a).hist && s.hist[r.job] <= Next(cfg, s, a).hist[r.job]
  {
    LiveBefore(cfg, s, a, r);
    assert RunInv(cfg, s, r);
    HistoryGrows(cfg, s, a, r.job);
  }

  lemma NewRunClaimedNow(cfg: Config, s: Sys, a: Action, r: RunId)
    requires Inv(cfg, s) && Enabled(cfg, s, a) && r !in s.runs && Live(Next(cfg, s, a), r)
    requires var t := Next(cfg, s, a); r.job in t.hist && r.index < |t.hist[r.job]| && t.hist[r.job][r.index].Took?
    ensures ClaimedAt(Next(cfg, s, a), r) == Next(cfg, s, a).now
  {
    assert r in NewRuns(s, a.chosen);
  }

  /** So does a step that takes time while no handler runs. */
  lemma IdleStaysOnTime(cfg: Config, states: seq<Sys>, acts: seq<Action>, i: nat, every: nat, lateMs: nat)
    requires Execution(cfg, states, acts) && i < |acts| && acts[i].Tick? && forall r :: !Live(states[i], r)
    ensures OnTimeAt(cfg, states, acts, i + 1, every, lateMs)
  {
    assert Enabled(cfg, states[i], acts[i]) && states[i + 1] == Next(cfg, states[i], acts[i]);
    NoneLive(states[i], states[i + 1]);
  }

  lemma NoneLive(s: Sys, t: Sys)
    requires t.runs == s.runs && forall r :: !Live(s, r)
    ensures forall r :: !Live(t, r)
  {
    assert forall r :: Live(t, r) <==> Live(s, r);
  }

  lemma {:induction false} NeverLiveAgain(cfg: Config, states: seq<Sys>, acts: seq<Action>, i: nat, k: nat, r: RunId)
    requires Execution(cfg, states, acts) && i <= k < |states| && r in states[i].runs && !Live(states[i], r)
    ensures r in states[k].runs && !Live(states[k], r)
    decreases k
  {
    if i < k {
      NeverLiveAgain(cfg, states, acts, i, k - 1, r);
      assert Enabled(cfg, states[k - 1], acts[k - 1]) && states[k] == Next(cfg, states[k - 1], acts[k - 1]);
      InvAlways(cfg, states, acts, k - 1);
      RunsStay(cfg, states[k - 1], acts[k - 1], r);
      if Live(states[k], r) { LiveBefore(cfg, states[k - 1], acts[k - 1], r); }
    }
  }

  /** Going on calmly beside a run whose handler has ended keeps every heartbeat on time. */
  lemma {:induction false} CalmIsOnTime(cfg: Config, states: seq<Sys>, acts: seq<Action>, from: nat, i: nat, r: RunId, every: nat, lateMs: nat)
    requires Execution(cfg, states, acts) && from <= i < |states| && Calm(states, acts, from, r)
    requires r in states[from].runs && !Live(states[from], r) && OnTimeAt(cfg, states, acts, from, every, lateMs)
    ensures OnTimeAt(cfg, states, acts, i, every, lateMs)
    decreases i
  {
    if from < i {
      CalmIsOnTime(cfg, states, acts, from, i - 1, r, every, lateMs);
      if acts[i - 1].Tick? {
        NeverLiveAgain(cfg, states, acts, from, i - 1, r);
        assert Quiescent(states[i - 1], r);
        IdleStaysOnTime(cfg, states, acts, i - 1, every, lateMs);
      } else {
        StepStaysOnTime(cfg, states, acts, i - 1, every, lateMs);
      }
    }
  }

  /** All heartbeats are on time in a longer execution that is calm from the end of the shorter one, its next step aside. */
  lemma LongerIsOnTime(cfg: Config, states: seq<Sys>, acts: seq<Action>, states': seq<Sys>, acts': seq<Action>, r: RunId, every: nat, lateMs: nat)
    requires Execution(cfg, states, acts) && OnTime(cfg, states, acts, every, lateMs) && Execution(cfg, states', acts')
    requires states <= states' && acts <= acts' && |acts| < |acts'| && !acts'[|acts|].Tick?
    requires r in states'[|acts| + 1].runs && !Live(states'[|acts| + 1], r) && Calm(states', acts', |acts| + 1, r)
    ensures OnTime(cfg, states', acts', every, lateMs)
  {
    var n := |acts|;
    forall i: nat | i < |states'| ensures OnTimeAt(cfg, states', acts', i, every, lateMs) {
      var k := if i < n then i else n;
      assert OnTimeAt(cfg, states, acts, k, every, lateMs);
      OnTimeExtends(cfg, states, acts, states', acts', k, every, lateMs);
      if i > n {
        StepStaysOnTime(cfg, states', acts', n, every, lateMs);
        CalmIsOnTime(cfg, states', acts', n + 1, i, r, every, lateMs);
      }
    }
  }

  /** One step more. */
  lemma OneMoreOnTime(cfg: Config, states: seq<Sys>, acts: seq<Action>, states': seq<Sys>, acts': seq<Action>, every: nat, lateMs: nat)
    requires Execution(cfg, states, acts) && OnTime(cfg, states, acts, every, lateMs) && Execution(cfg, states', acts')
    requires states <= states' && acts <= acts' && |acts'| == |acts| + 1
    requires !acts'[|acts|].Tick? || OnTimeAt(cfg, states', acts', |acts'|, every, lateMs)
    ensures OnTime(cfg, states', acts', every, lateMs)
  {
    forall i: nat | i < |states'| ensures OnTimeAt(cfg, states', acts', i, every, lateMs) {
      if i < |states| {
        assert OnTimeAt(cfg, states, acts, i, every, lateMs);
        OnTimeExtends(cfg, states, acts, states', acts', i, every, lateMs);
      } else if !acts'[|acts|].Tick? {
        assert OnTimeAt(cfg, states, acts, |acts|, every, lateMs);
        OnTimeExtends(cfg, states, acts, states', acts', |acts|, every, lateMs);
        StepStaysOnTime(cfg, states', acts', |acts|, every, lateMs);
      }
    }
  }

  /** A step that takes no time keeps every heartbeat on time. */
  lemma StepOnTime(cfg: Config, states: seq<Sys>, acts: seq<Action>, a: Action, every: nat, lateMs: nat)
    returns (states': seq<Sys>, acts': seq<Action>)
    requires Execution(cfg, states, acts) && OnTime(cfg, states, acts, every, lateMs)
    requires Enabled(cfg, Last(states), a) && !a.Tick?
    ensures states' == states + [Next(cfg, Last(states), a)] && acts' == acts + [a]
    ensures Execution(cfg, states', acts') && OnTime(cfg, states', acts', every, lateMs) && Inv(cfg, Last(states'))
  {
    states', acts' := Step(cfg, states, acts, a);
    OneMoreOnTime(cfg, states, acts, states', acts', every, lateMs);
  }

  // --------------------------------------------- waiting beside a handler

  /** Each of the first `b` heartbeats of `q`, claimed at `t`, has landed. */
  ghost predicate Beating(cfg: Config, states: seq<Sys>, acts: seq<Action>, q: RunId, t: int, b: nat, lateMs: nat)
    requires |states| == |acts| + 1
  {
    forall j :: 0 < j <= b ==> Landed(cfg, states, acts, q, t, j, lateMs)
  }

  ghost predicate Landed(cfg: Config, states: seq<Sys>, acts: seq<Action>, q: RunId, t: int, j: int, lateMs: nat)
    requires |states| == |acts| + 1
  {
    exists a :: BeatLanded(cfg, states, acts, |acts|, q, t, j, lateMs, a)
  }

  lemma BeatingExtends(cfg: Config, states: seq<Sys>, acts: seq<Action>, states': seq<Sys>, acts': seq<Action>, q: RunId, t: int, b: nat, lateMs: nat)
    requires |states| == |acts| + 1 && |states'| == |acts'| + 1 && states <= states' && acts <= acts'
    requires Beating(cfg, states, acts, q, t, b, lateMs)
    ensures Beating(cfg, states', acts', q, t, b, lateMs)
  {
    forall j | 0 < j <= b ensures Landed(cfg, states', acts', q, t, j, lateMs) {
      assert Landed(cfg, states, acts, q, t, j, lateMs);
      var a :| BeatLanded(cfg, states, acts, |acts|, q, t, j, lateMs, a);
      BeatStays(cfg, states, acts, states', acts', |acts|, |acts'|, q, t, j, lateMs, a);
    }
  }

  /** The handler of `q`, claimed at `t`, is the only one that runs, and the job waits until `due`. */
  ghost predicate Waiting(s: Sys, id: JobId, q: RunId, t: int, due: int) {
    && id in s.rows && id in s.hist && s.rows[id].status == Pending && s.rows[id].runAt == due
    && q.job == id && q in s.runs && s.runs[q].phase == Running && Quiescent(s, q)
    && q.index < |s.hist[id]| && s.hist[id][q.index].Took? && s.hist[id][q.index].at == t
  }

  lemma MoreTimes(x: nat, y: nat, hb: nat)
    ensures x >= y ==> x * hb >= y * hb
  {
    if x >= y { assert (x - y) * hb >= 0; }
  }

  lemma SlotBefore(n: nat, every: nat, b: nat, hb: nat, lateMs: nat)
    requires every >= 1 && (n + every) * hb + lateMs < (b + 1) * hb
    ensures n < b && n + 1 <= n + every
  {
    MoreTimes(n + every, b + 1, hb);
  }

  /** With its first `b` heartbeats landed, a run is on time until the next slot is over. */
  lemma BeatingIsOnTime(cfg: Config, states: seq<Sys>, acts: seq<Action>, id: JobId, q: RunId, t: int, due: int, b: nat, every: nat, lateMs: nat)
    requires |states| == |acts| + 1 && Waiting(Last(states), id, q, t, due) && Beating(cfg, states, acts, q, t, b, lateMs)
    requires every >= 1 && Last(states).now <= t + (b + 1) * HeartbeatMs(cfg.staleLockMs)
    ensures OnTimeAt(cfg, states, acts, |acts|, every, lateMs)
  {
    var i, s, hb := |acts|, states[|acts|], HeartbeatMs(cfg.staleLockMs);
    forall r, n: nat | Live(states[i], r) && r.job in states[i].hist && r.index < |states[i].hist[r.job]| && states[i].hist[r.job][r.index].Took?
      ensures BeatsKept(cfg, states, acts, i, r, ClaimedAt(states[i], r), n, every, lateMs)
    {
      assert r == q && ClaimedAt(states[i], r) == t;
      if t + (n + every) * hb + lateMs < s.now {
        SlotBefore(n, every, b, hb, lateMs);
        var j := n + 1;
        assert Landed(cfg, states, acts, q, t, j, lateMs);
        var a :| BeatLanded(cfg, states, acts, |acts|, q, t, j, lateMs, a);
      }
    }
  }

  lemma TickWaits(cfg: Config, s: Sys, id: JobId, q: RunId, t: int, due: int, ms: nat)
    requires Waiting(s, id, q, t, due)
    ensures Waiting(Next(cfg, s, Tick(ms)), id, q, t, due)
  {
    assert forall x :: Live(Next(cfg, s, Tick(ms)), x) ==> Live(s, x);
  }

  /** Time passes by one heartbeat period, or what is left of it. */
  lemma WaitABit(cfg: Config, from: seq<Sys>, done: seq<Action>, states: seq<Sys>, acts: seq<Action>,
    id: JobId, q: RunId, t: int, due: int, b: nat, ms: nat, every: nat, lateMs: nat) returns (states': seq<Sys>, acts': seq<Action>)
    requires Execution(cfg, states, acts) && GoesOn(from, done, states, acts, id) && OnTime(cfg, states, acts, every, lateMs)
    requires Waiting(Last(states), id, q, t, due) && Beating(cfg, states, acts, q, t, b, lateMs) && every >= 1
    requires Last(states).now == t + b * HeartbeatMs(cfg.staleLockMs) && ms <= HeartbeatMs(cfg.staleLockMs)
    ensures Execution(cfg, states', acts') && GoesOn(from, done, states', acts', id) && OnTime(cfg, states', acts', every, lateMs)
    ensures Waiting(Last(states'), id, q, t, due) && Last(states').now == Last(states).now + ms && Beating(cfg, states', acts', q, t, b, lateMs)
  {
    TickWaits(cfg, Last(states), id, q, t, due, ms);
    states', acts' := Step(cfg, states, acts, Tick(ms));
    BeatingExtends(cfg, states, acts, states', acts', q, t, b, lateMs);
    assert (b + 1) * HeartbeatMs(cfg.staleLockMs) == b * HeartbeatMs(cfg.staleLockMs) + HeartbeatMs(cfg.staleLockMs);
    BeatingIsOnTime(cfg, states', acts', id, q, t, due, b, every, lateMs);
    OneMoreOnTime(cfg, states, acts, states', acts', every, lateMs);
  }

  /** The heartbeat of `q` lands; it holds no row, so nothing changes. */
  lemma Beat(cfg: Config, from: seq<Sys>, done: seq<Action>, states: seq<Sys>, acts: seq<Action>,
    id: JobId, q: RunId, t: int, due: int, b: nat, every: nat, lateMs: nat) returns (states': seq<Sys>, acts': seq<Action>)
    requires Execution(cfg, states, acts) && GoesOn(from, done, states, acts, id) && OnTime(cfg, states, acts, every, lateMs)
    requires Waiting(Last(states), id, q, t, due) && Beating(cfg, states, acts, q, t, b, lateMs)
    requires Last(states).now == t + (b + 1) * HeartbeatMs(cfg.staleLockMs)
    ensures Execution(cfg, states', acts') && GoesOn(from, done, states', acts', id) && OnTime(cfg, states', acts', every, lateMs)
    ensures Waiting(Last(states'), id, q, t, due) && Last(states').now == Last(states).now && Beating(cfg, states', acts', q, t, b + 1, lateMs)
  {
    var s := Last(states);
    InvAlways(cfg, states, acts, |acts|);
    assert RunInv(cfg, s, q);
    states', acts' := Step(cfg, states, acts, Renew(q));
    assert Last(states') == s;
    OneMoreOnTime(cfg, states, acts, states', acts', every, lateMs);
    BeatingExtends(cfg, states, acts, states', acts', q, t, b, lateMs);
    assert BeatLanded(cfg, states', acts', |acts'|, q, t, b + 1, lateMs, |acts|);
    assert Landed(cfg, states', acts', q, t, b + 1, lateMs);
  }

  /** The handler of `q` runs on, heartbeat by heartbeat, until the job is due. */
  lemma {:induction false} WaitOut(cfg: Config, from: seq<Sys>, done: seq<Action>, states: seq<Sys>, acts: seq<Action>,
    id: JobId, q: RunId, t: int, due: int, b: nat, every: nat, lateMs: nat) returns (states': seq<Sys>, acts': seq<Action>)
    requires Execution(cfg, states, acts) && GoesOn(from, done, states, acts, id) && OnTime(cfg, states, acts, every, lateMs)
    requires Waiting(Last(states), id, q, t, due) && Beating(cfg, states, acts, q, t, b, lateMs) && every >= 1
    requires Last(states).now == t + b * HeartbeatMs(cfg.staleLockMs) && Last(states).now <= due
    ensures Execution(cfg, states', acts') && GoesOn(from, done, states', acts', id) && OnTime(cfg, states', acts', every, lateMs)
    ensures Waiting(Last(states'), id, q, t, due) && Last(states').now == due
    decreases due - Last(states).now
  {
    var hb, left := HeartbeatMs(cfg.staleLockMs), due - Last(states).now;
    states', acts' := WaitABit(cfg, from, done, states, acts, id, q, t, due, b, Min(left, hb), every, lateMs);
    if left > hb {
      assert (b + 1) * hb == b * hb + hb;
      states', acts' := Beat(cfg, from, done, states', acts', id, q, t, due, b, every, lateMs);
      states', acts' := WaitOut(cfg, from, done, states', acts', id, q, t, due, b + 1, every, lateMs);
    }
  }

  // ------------------------------------ when a retry keeps handlers apart

  ghost predicate OneHandler(s: Sys, id: JobId) {
    forall r, q :: Live(s, r) && Live(s, q) && r.job == id && q.job == id ==> r == q
  }

  lemma HarmlessGoesOn(cfg: Config, states: seq<Sys>, acts: seq<Action>, states': seq<Sys>, acts': seq<Action>, id: JobId)
    requires |states| == |acts| + 1 && |states'| == |acts'| + 1 && GoesOn(states, acts, states', acts', id) && Harmless(cfg, states, acts, |acts|, id)
    ensures Harmless(cfg, states', acts', |acts'|, id)
  {
  }

  /** A handler that runs when its job is retried gets company at once. */
  lemma RetryUnderALiveRun(cfg: Config, states: seq<Sys>, acts: seq<Action>, every: nat, lateMs: nat, id: JobId, r: RunId)
    returns (states': seq<Sys>, acts': seq<Action>)
    requires Execution(cfg, states, acts) && OnTime(cfg, states, acts, every, lateMs) && CanRetry(Last(states), id)
    requires Live(Last(states), r) && r.job == id
    ensures AfterRetrying(cfg, states, acts, states', acts', id) && OnTime(cfg, states', acts', every, lateMs)
    ensures !OneHandler(Last(states'), id)
  {
    InvAlways(cfg, states, acts, |acts|);
    RetriesOne(cfg, Last(states), id);
    var from, done := StepOnTime(cfg, states, acts, Retry(id), every, lateMs);
    states', acts' := SecondHandler(cfg, from, done, from, done, id, r, every, lateMs);
  }

  /** The outcome of `r`, still on its way, is to put the job back in line. */
  predicate WillRetry(cfg: Config, run: Run) { run.phase.Settling? && !ForGood(cfg, run) && run.claimed.queue in cfg.policies }

  /** The late outcome of `r` lands on the claim of `q`, whose handler has started: the job waits, and `q` runs on. */
  lemma OutcomeLandsLate(cfg: Config, from: seq<Sys>, done: seq<Action>, states: seq<Sys>, acts: seq<Action>,
    id: JobId, r: RunId, q: RunId, every: nat, lateMs: nat) returns (states': seq<Sys>, acts': seq<Action>, due: int)
    requires Execution(cfg, states, acts) && GoesOn(from, done, states, acts, id) && OnTime(cfg, states, acts, every, lateMs)
    requires var s := Last(states);
      && r in s.runs && r.job == id && r != q && WillRetry(cfg, s.runs[r]) && JustTaken(s, id, q, r, s.runs[r].claimed.worker)
      && s.rows[id].attempts == s.runs[r].claimed.attempts && s.runs[r].claimed.id == id
    ensures Execution(cfg, states', acts') && GoesOn(from, done, states', acts', id) && OnTime(cfg, states', acts', every, lateMs)
    ensures Waiting(Last(states'), id, q, Last(states').now, due) && Last(states').now <= due
  {
    var s := Last(states);
    InvAlways(cfg, states, acts, |acts|);
    MovesOne(cfg, s, q, Running);
    var more, steps := StepOnTime(cfg, states, acts, Start(q), every, lateMs);
    var started := Last(more);
    RecordsOne(cfg, started, r);
    states', acts' := StepOnTime(cfg, more, steps, Record(r), every, lateMs);
    due := Last(states').rows[id].runAt;
    OnlyOneLeft(s, started, Last(states'), r, q);
  }

  lemma OnlyOneLeft(s: Sys, started: Sys, t: Sys, r: RunId, q: RunId)
    requires OnlyLive(s, r, q) && RunsKeptBut(s, started, q) && started.runs.Keys == s.runs.Keys
    requires RunsKeptBut(started, t, r) && t.runs.Keys == started.runs.Keys && !Live(t, r)
    ensures Quiescent(t, q)
  {
    forall x | Live(t, x) ensures x == q {
      assert x == r || Live(started, x);
      assert x == r || x == q || Live(s, x);
    }
  }

  /** An outcome on its way that is to put the job back in line brings two handlers together. */
  lemma RetryUnderAnOutcome(cfg: Config, states: seq<Sys>, acts: seq<Action>, every: nat, lateMs: nat, id: JobId, r: RunId)
    returns (states': seq<Sys>, acts': seq<Action>)
    requires Execution(cfg, states, acts) && OnTime(cfg, states, acts, every, lateMs) && every >= 1 && CanRetry(Last(states), id)
    requires r in Last(states).runs && r.job == id && WillRetry(cfg, Last(states).runs[r])
    ensures AfterRetrying(cfg, states, acts, states', acts', id) && OnTime(cfg, states', acts', every, lateMs)
    ensures !OneHandler(Last(states'), id)
  {
    var from, done := states + [Next(cfg, Last(states), Retry(id))], acts + [Retry(id)];
    InvAlways(cfg, states, acts, |acts|);
    assert RunInv(cfg, Last(states), r);
    RetriesOne(cfg, Last(states), id);
    var q, due;
    states', acts', q := RetryAndClimb(cfg, states, acts, id, r);
    assert states'[|acts| + 1] == from[|acts| + 1] && acts'[|acts|] == done[|acts|];
    LongerIsOnTime(cfg, states, acts, states', acts', r, every, lateMs);
    states', acts', due := OutcomeLandsLate(cfg, from, done, states', acts', id, r, q, every, lateMs);
    states', acts' := WaitOut(cfg, from, done, states', acts', id, q, Last(states').now, due, 0, every, lateMs);
    states', acts' := SecondHandler(cfg, from, done, states', acts', id, q, every, lateMs);
  }

  /** A job that is due under a running handler is claimed again. */
  lemma SecondHandler(cfg: Config, from: seq<Sys>, done: seq<Action>, states: seq<Sys>, acts: seq<Action>,
    id: JobId, q: RunId, every: nat, lateMs: nat) returns (states': seq<Sys>, acts': seq<Action>)
    requires Execution(cfg, states, acts) && GoesOn(from, done, states, acts, id) && OnTime(cfg, states, acts, every, lateMs)
    requires var s := Last(states); Live(s, q) && q.job == id && id in s.rows && s.rows[id].status == Pending && s.rows[id].runAt <= s.now
    ensures Execution(cfg, states', acts') && GoesOn(from, done, states', acts', id) && OnTime(cfg, states', acts', every, lateMs)
    ensures !OneHandler(Last(states'), id)
  {
    var s := Last(states);
    InvAlways(cfg, states, acts, |acts|);
    TakesOne(cfg, s, id, "");
    states', acts' := StepOnTime(cfg, states, acts, TakeOne(s, id, ""), every, lateMs);
    assert Live(Last(states'), q) && Live(Last(states'), RunId(id, |s.hist[id]|));
  }

  /**
   * A manual retry keeps handlers of the job apart exactly when it finds each run
   * of it over, or about to record an outcome that ends the job for good: then,
   * however the system goes on with heartbeats on time, two handlers never run at
   * once for the job; otherwise it can go on, heartbeats on time, so that they do.
   */
  lemma RetryKeepsHandlersApartExactly(cfg: Config, states: seq<Sys>, acts: seq<Action>, every: nat, lateMs: nat, id: JobId)
    requires Execution(cfg, states, acts) && OnTime(cfg, states, acts, every, lateMs) && every >= 1
    requires every * HeartbeatMs(cfg.staleLockMs) + lateMs <= cfg.staleLockMs
    requires Harmless(cfg, states, acts, |acts|, id) && CanRetry(Last(states), id)
    ensures AllForGood(cfg, Last(states), id) <==> NeverTwoAfter(cfg, states, acts, every, lateMs, id)
  {
    if AllForGood(cfg, Last(states), id) {
      forall states', acts' | AfterRetrying(cfg, states, acts, states', acts', id) && OnTime(cfg, states', acts', every, lateMs)
        ensures OneHandler(Last(states'), id)
      {
        HarmlessRetryKeepsApart(cfg, states, acts, states', acts', every, lateMs, id);
      }
    } else {
      var r :| r in Last(states).runs && r.job == id && !ForGood(cfg, Last(states).runs[r]);
      InvAlways(cfg, states, acts, |acts|);
      assert RunInv(cfg, Last(states), r);
      var states', acts';
      if Live(Last(states), r) {
        states', acts' := RetryUnderALiveRun(cfg, states, acts, every, lateMs, id, r);
      } else {
        states', acts' := RetryUnderAnOutcome(cfg, states, acts, every, lateMs, id, r);
      }
    }
  }

  ghost predicate NeverTwoAfter(cfg: Config, states: seq<Sys>, acts: seq<Action>, every: nat, lateMs: nat, id: JobId)
    requires states != []
  {
    forall states', acts' ::
      AfterRetrying(cfg, states, acts, states', acts', id) && OnTime(cfg, states', acts', every, lateMs) ==> OneHandler(Last(states'), id)
  }

  lemma HarmlessRetryKeepsApart(cfg: Config, states: seq<Sys>, acts: seq<Action>, states': seq<Sys>, acts': seq<Action>, every: nat, lateMs: nat, id: JobId)
    requires Execution(cfg, states, acts) && Harmless(cfg, states, acts, |acts|, id) && AllForGood(cfg, Last(states), id)
    requires every * HeartbeatMs(cfg.staleLockMs) + lateMs <= cfg.staleLockMs
    requires AfterRetrying(cfg, states, acts, states', acts', id) && OnTime(cfg, states', acts', every, lateMs)
    ensures OneHandler(Last(states'), id)
  {
    var from, done := states + [Next(cfg, Last(states), Retry(id))], acts + [Retry(id)];
    assert Harmless(cfg, from, done, |done|, id);
    HarmlessGoesOn(cfg, from, done, states', acts', id);
    forall r, q | Live(Last(states'), r) && Live(Last(states'), q) && r.job == id && q.job == id ensures r == q {
      MutualExclusion(cfg, states', acts', every, lateMs, |acts'|, r, q);
    }
  }

  // ------------------------------------------------------------- examples

  /** One queue with one retry, one `once` job, the smallest stale window. */
  const EXAMPLE := Config(map["q" := Policy([0], false)], {"q/book"}, {}, 10000)

  const TAKE := Claim("w", {"q"}, 1, {0}, {0})

  /** No live run is older than its claim's instant. */
  ghost predicate AllFresh(s: Sys) {
    forall r :: Live(s, r) && r.job in s.hist && r.index < |s.hist[r.job]| && s.hist[r.job][r.index].Took? ==> ClaimedAt(s, r) == s.now
  }

  lemma FreshKept(cfg: Config, s: Sys, a: Action)
    requires Inv(cfg, s) && Enabled(cfg, s, a) && AllFresh(s)
    requires a.Tick? ==> forall r :: r in s.runs ==> !Live(s, r)
    ensures AllFresh(Next(cfg, s, a))
  {
    var t := Next(cfg, s, a);
    forall r | Live(t, r) && r.job in t.hist && r.index < |t.hist[r.job]| && t.hist[r.job][r.index].Took? ensures ClaimedAt(t, r) == t.now {
      if r in s.runs {
        LiveBefore(cfg, s, a, r);
        assert RunInv(cfg, s, r);
        HistoryGrows(cfg, s, a, r.job);
      } else {
        assert r in NewRuns(s, a.chosen);
      }
    }
  }

  lemma FreshMeansOnTime(cfg: Config, states: seq<Sys>, acts: seq<Action>, every: nat, lateMs: nat)
    requires |states| == |acts| + 1 && EachFresh(states)
    ensures OnTime(cfg, states, acts, every, lateMs)
  {
    forall i: nat | i < |states| ensures OnTimeAt(cfg, states, acts, i, every, lateMs) {
      assert AllFresh(states[i]);
      forall r, n: nat | Live(states[i], r) && r.job in states[i].hist && r.index < |states[i].hist[r.job]| && states[i].hist[r.job][r.index].Took?
        ensures BeatsKept(cfg, states, acts, i, r, ClaimedAt(states[i], r), n, every, lateMs)
      {
        assert (n + every) * HeartbeatMs(cfg.staleLockMs) >= 0;
      }
    }
  }

  ghost predicate EachFresh(states: seq<Sys>) { forall i :: 0 <= i < |states| ==> AllFresh(states[i]) }

  lemma FreshAppend(states: seq<Sys>, t: Sys)
    requires EachFresh(states) && AllFresh(t)
    ensures EachFresh(states + [t])
  {
  }

  ghost predicate Example(states: seq<Sys>, acts: seq<Action>) {
    Execution(EXAMPLE, states, acts) && Inv(EXAMPLE, Last(states)) && EachFresh(states)
  }

  lemma Go(states: seq<Sys>, acts: seq<Action>, a: Action) returns (states': seq<Sys>, acts': seq<Action>)
    requires Example(states, acts) && Enabled(EXAMPLE, Last(states), a)
    requires a.Tick? ==> forall r :: r in Last(states).runs ==> !Live(Last(states), r)
    ensures Example(states', acts') && acts' == acts + [a] && Last(states') == Next(EXAMPLE, Last(states), a)
  {
    assert AllFresh(states[|states| - 1]);
    FreshKept(EXAMPLE, Last(states), a);
    FreshAppend(states, Next(EXAMPLE, Last(states), a));
    states', acts' := Step(EXAMPLE, states, acts, a);
  }

  /** Job 0, of the `once` kind, with the first run of it. */
  ghost predicate At(s: Sys, job: Job, h: History, phase: Phase) {
    && 0 in s.rows && s.rows[0] == job && 0 in s.hist && s.hist[0] == h
    && RunId(0, 0) in s.runs && s.runs[RunId(0, 0)] == Run(Claimed(0, "w", 1, "q", 2), phase)
  }

  function Book(status: Status, attempts: nat, runAt: int, lockedAt: Option<int>, finishedAt: Option<int>, lastError: Option<string>): Job {
    Job("q", "book", "", None, status, attempts, 2, runAt, lockedAt, if lockedAt.Some? then Some("w") else None, finishedAt, lastError)
  }

  predicate DueNow(job: Job, now: int) { job.queue == "q" && job.status == Pending && job.runAt <= now }

  lemma AddBook() returns (states: seq<Sys>, acts: seq<Action>)
    ensures Example(states, acts) && acts == [Add(0, "q", "book", "", 0, None)]
    ensures Last(states) == Sys(0, map[0 := Book(Pending, 0, 0, None, None, None)], map[], map[0 := []])
  {
    var first := Sys(0, map[], map[], map[]);
    assert Inv(EXAMPLE, first);
    states, acts := Go([first], [], Add(0, "q", "book", "", 0, None));
  }

  lemma TakesBook(s: Sys)
    requires s == Sys(0, map[0 := Book(Pending, 0, 0, None, None, None)], map[], map[0 := []]) && Inv(EXAMPLE, s)
    ensures Enabled(EXAMPLE, s, TAKE)
    ensures var t := Next(EXAMPLE, s, TAKE);
      At(t, Book(Active, 1, 0, Some(0), None, None), [Took("w", 1, 0)], Taken) && t.now == 0 && t.runs.Keys == {RunId(0, 0)}
  {
    assert TakeOne(s, 0, "w") == TAKE;
    TakesOne(EXAMPLE, s, 0, "w");
  }

  lemma FirstAttempt() returns (states: seq<Sys>, acts: seq<Action>)
    ensures Example(states, acts) && acts == [Add(0, "q", "book", "", 0, None), TAKE]
    ensures At(Last(states), Book(Active, 1, 0, Some(0), None, None), [Took("w", 1, 0)], Taken)
    ensures Last(states).now == 0 && Last(states).runs.Keys == {RunId(0, 0)}
  {
    states, acts := AddBook();
    TakesBook(Last(states));
    states, acts := Go(states, acts, TAKE);
  }

  lemma GoPhase(before: seq<Sys>, done: seq<Action>, a: Action, job: Job, h: History, phase: Phase, next: Phase)
    returns (states: seq<Sys>, acts: seq<Action>)
    requires Example(before, done) && At(Last(before), job, h, phase) && Last(before).runs.Keys == {RunId(0, 0)}
    requires (phase == Taken && a == Start(RunId(0, 0)) && next == Running)
          || (phase == Running && a == End(RunId(0, 0), ODD_ERROR) && next == Settling(ODD_ERROR))
    ensures Example(states, acts) && acts == done + [a] && At(Last(states), job, h, next)
    ensures Last(states).runs.Keys == {RunId(0, 0)} && Last(states).now == Last(before).now
  {
    states, acts := Go(before, done, a);
  }

  /** The stale window passes and the job is swept. */
  lemma GoSweep(before: seq<Sys>, done: seq<Action>, phase: Phase) returns (states: seq<Sys>, acts: seq<Action>)
    requires Execution(EXAMPLE, before, done) && Inv(EXAMPLE, Last(before)) && Last(before).now == 0
    requires At(Last(before), Book(Active, 1, 0, Some(0), None, None), [Took("w", 1, 0)], phase)
    ensures Execution(EXAMPLE, states, acts) && Inv(EXAMPLE, Last(states)) && acts == done + [Tick(10001), Sweep({0})]
    ensures var ticked := Next(EXAMPLE, Last(before), Tick(10001)); Inv(EXAMPLE, ticked) && states == before + [ticked] + [Next(EXAMPLE, ticked, Sweep({0}))]
    ensures At(Last(states), Book(Failed, 1, 0, None, Some(10001), Some(INTERRUPTED)), [Took("w", 1, 0), Swept(true)], phase)
    ensures Last(states).runs == Last(before).runs && Last(states).now == 10001
  {
    states, acts := Step(EXAMPLE, before, done, Tick(10001));
    assert Key(Last(states).rows[0]) == "q/book";
    SweepsOne(EXAMPLE, Last(states), 0);
    states, acts := Step(EXAMPLE, states, acts, Sweep({0}));
  }

  /**
   * The one way a cut-off `once` job's handler is still started: the claim's
   * answer is on its way for longer than the stale window.
   */
  lemma OnceJobStartedAfterCutOff() returns (states: seq<Sys>, acts: seq<Action>)
    ensures Execution(EXAMPLE, states, acts)
    ensures acts == [Add(0, "q", "book", "", 0, None), TAKE, Tick(10001), Sweep({0}), Start(RunId(0, 0))]
    ensures At(states[4], Book(Failed, 1, 0, None, Some(10001), Some(INTERRUPTED)), [Took("w", 1, 0), Swept(true)], Taken)
    ensures Quiet(states, acts, 4, 0) && Key(Book(Failed, 1, 0, None, Some(10001), Some(INTERRUPTED))) in EXAMPLE.once
  {
    assert Key(Book(Failed, 1, 0, None, Some(10001), Some(INTERRUPTED))) == "q/book";
    states, acts := FirstAttempt();
    states, acts := GoSweep(states, acts, Taken);
    states, acts := Step(EXAMPLE, states, acts, Start(RunId(0, 0)));
  }

  /** A run whose outcome is on its way. */
  lemma Stalled() returns (states: seq<Sys>, acts: seq<Action>)
    ensures Example(states, acts) && Last(states).now == 0 && Last(states).runs.Keys == {RunId(0, 0)}
    ensures acts == [Add(0, "q", "book", "", 0, None), TAKE, Start(RunId(0, 0)), End(RunId(0, 0), ODD_ERROR)]
    ensures At(Last(states), Book(Active, 1, 0, Some(0), None, None), [Took("w", 1, 0)], Settling(ODD_ERROR))
  {
    states, acts := FirstAttempt();
    var job, h := Book(Active, 1, 0, Some(0), None, None), [Took("w", 1, 0)];
    states, acts := GoPhase(states, acts, Start(RunId(0, 0)), job, h, Taken, Running);
    states, acts := GoPhase(states, acts, End(RunId(0, 0), ODD_ERROR), job, h, Running, Settling(ODD_ERROR));
  }

  lemma FreshThroughSweep(before: seq<Sys>, done: seq<Action>)
    requires Example(before, done) && forall r :: r in Last(before).runs ==> !Live(Last(before), r)
    requires Inv(EXAMPLE, Next(EXAMPLE, Last(before), Tick(10001)))
    ensures var ticked := Next(EXAMPLE, Last(before), Tick(10001)); EachFresh(before + [ticked] + [Next(EXAMPLE, ticked, Sweep({0}))])
  {
    assert AllFresh(before[|before| - 1]);
    FreshKept(EXAMPLE, Last(before), Tick(10001));
    var ticked := Next(EXAMPLE, Last(before), Tick(10001));
    FreshKept(EXAMPLE, ticked, Sweep({0}));
    FreshAppend(before, ticked);
    FreshAppend(before + [ticked], Next(EXAMPLE, ticked, Sweep({0})));
  }

  /** The job of that run is swept. */
  lemma StalledAndSwept() returns (states: seq<Sys>, acts: seq<Action>)
    ensures Example(states, acts)
    ensures acts == [Add(0, "q", "book", "", 0, None), TAKE, Start(RunId(0, 0)), End(RunId(0, 0), ODD_ERROR), Tick(10001), Sweep({0})]
    ensures At(Last(states), Book(Failed, 1, 0, None, Some(10001), Some(INTERRUPTED)), [Took("w", 1, 0), Swept(true)], Settling(ODD_ERROR))
    ensures Last(states).now == 10001
  {
    var before, done := Stalled();
    states, acts := GoSweep(before, done, Settling(ODD_ERROR));
    FreshThroughSweep(before, done);
  }

  lemma TakesAt(cfg: Config, s: Sys, job: Job, h: History, phase: Phase)
    requires Inv(cfg, s) && At(s, job, h, phase) && h != [] && DueNow(job, s.now)
    ensures Enabled(cfg, s, TAKE)
    ensures var t := Next(cfg, s, TAKE);
      && t.now == s.now && At(t, ClaimJob(job, "w", s.now), h + [Took("w", job.attempts + 1, s.now)], phase)
      && RunId(0, |h|) !in s.runs && RunId(0, |h|) in t.runs && t.runs[RunId(0, |h|)].phase == Taken && RunsKeptBut(s, t, RunId(0, |h|))
  {
    assert TakeOne(s, 0, "w") == TAKE;
    TakesOne(cfg, s, 0, "w");
    TookByW(s, Next(cfg, s, TAKE), job, h, phase);
  }

  lemma TookByW(s: Sys, t: Sys, job: Job, h: History, phase: Phase)
    requires At(s, job, h, phase) && h != [] && RunsKeptBut(s, t, RunId(0, |h|))
    requires 0 in t.rows && t.rows[0] == ClaimJob(job, "w", s.now) && 0 in t.hist && t.hist[0] == h + [Took("w", job.attempts + 1, s.now)]
    ensures At(t, ClaimJob(job, "w", s.now), h + [Took("w", job.attempts + 1, s.now)], phase)
  {
    assert RunId(0, 0) != RunId(0, |h|);
  }

  /** The job is claimed by the same worker, as its attempt number `job.attempts + 1`. */
  lemma GoTake(before: seq<Sys>, done: seq<Action>, job: Job, h: History, phase: Phase) returns (states: seq<Sys>, acts: seq<Action>)
    requires Example(before, done) && At(Last(before), job, h, phase) && h != []
    requires DueNow(job, Last(before).now)
    ensures Example(states, acts) && acts == done + [TAKE] && Last(states).now == Last(before).now
    ensures At(Last(states), ClaimJob(job, "w", Last(before).now), h + [Took("w", job.attempts + 1, Last(before).now)], phase)
    ensures Live(Last(states), RunId(0, |h|)) && forall r :: Live(Last(before), r) ==> Live(Last(states), r)
  {
    TakesAt(EXAMPLE, Last(before), job, h, phase);
    states, acts := Go(before, done, TAKE);
  }

  lemma GoRetry(before: seq<Sys>, done: seq<Action>, job: Job, h: History, phase: Phase) returns (states: seq<Sys>, acts: seq<Action>)
    requires Example(before, done) && At(Last(before), job, h, phase) && job.status == Failed
    ensures Example(states, acts) && acts == done + [Retry(0)] && Last(states).now == Last(before).now
    ensures At(Last(states), job.(status := Pending, attempts := 0, runAt := Last(before).now, finishedAt := None), h + [Retried], phase)
  {
    RetriesOne(EXAMPLE, Last(before), 0);
    states, acts := Go(before, done, Retry(0));
  }

  /** The late outcome of the first run lands on the claim that holds the job now. */
  lemma GoOverwrite(before: seq<Sys>, done: seq<Action>, job: Job, h: History) returns (states: seq<Sys>, acts: seq<Action>)
    requires Example(before, done) && At(Last(before), job, h, Settling(ODD_ERROR))
    requires job.lockedBy == Some("w") && job.status == Active && job.attempts == 1 && job.queue == "q"
    ensures Example(states, acts) && acts == done + [Record(RunId(0, 0))] && Last(states).now == Last(before).now
    ensures exists job', phase :: At(Last(states), job', h + [Recorded(0, Pending)], phase) && DueNow(job', Last(before).now)
    ensures forall r :: Live(Last(before), r) ==> Live(Last(states), r)
  {
    RecordsOne(EXAMPLE, Last(before), RunId(0, 0));
    states, acts := Go(before, done, Record(RunId(0, 0)));
    assert At(Last(states), Last(states).rows[0], h + [Recorded(0, Pending)], Last(states).runs[RunId(0, 0)].phase);
  }

  /**
   * A stalled run's outcome is still on its way when the job, swept meanwhile,
   * is retried by hand. The same worker claims it under the old attempt number,
   * the late outcome puts it back in line under the live handler, and a second
   * handler is claimed for it. Every heartbeat is on time.
   */
  lemma RetryBreaksMutualExclusion() returns (states: seq<Sys>, acts: seq<Action>)
    ensures Execution(EXAMPLE, states, acts) && OnTime(EXAMPLE, states, acts, 4, 0)
    ensures acts == [
      Add(0, "q", "book", "", 0, None), TAKE, Start(RunId(0, 0)), End(RunId(0, 0), ODD_ERROR), Tick(10001), Sweep({0}), Retry(0),
      TAKE, Record(RunId(0, 0)), TAKE]
    ensures Live(Last(states), RunId(0, 3)) && Live(Last(states), RunId(0, 5))
  {
    states, acts := StalledAndSwept();
    states, acts := RetriedAndTaken(states, acts);
    var h := [Took("w", 1, 0), Swept(true), Retried, Took("w", 1, 10001)];
    states, acts := GoOverwrite(states, acts, Book(Active, 1, 10001, Some(10001), None, Some(INTERRUPTED)), h);
    h := h + [Recorded(0, Pending)];
    var next, phase :| At(Last(states), next, h, phase) && DueNow(next, 10001);
    states, acts := GoTake(states, acts, next, h, phase);
    FreshMeansOnTime(EXAMPLE, states, acts, 4, 0);
  }

  lemma RetriedAndTaken(before: seq<Sys>, done: seq<Action>) returns (states: seq<Sys>, acts: seq<Action>)
    requires Example(before, done) && Last(before).now == 10001
    requires At(Last(before), Book(Failed, 1, 0, None, Some(10001), Some(INTERRUPTED)), [Took("w", 1, 0), Swept(true)], Settling(ODD_ERROR))
    ensures Example(states, acts) && acts == done + [Retry(0), TAKE] && Last(states).now == 10001 && Live(Last(states), RunId(0, 3))
    ensures At(Last(states), Book(Active, 1, 10001, Some(10001), None, Some(INTERRUPTED)),
               [Took("w", 1, 0), Swept(true), Retried, Took("w", 1, 10001)], Settling(ODD_ERROR))
  {
    var job, h := Book(Failed, 1, 0, None, Some(10001), Some(INTERRUPTED)), [Took("w", 1, 0), Swept(true)];
    states, acts := GoRetry(before, done, job, h, Settling(ODD_ERROR));
    job, h := Book(Pending, 0, 10001, None, None, Some(INTERRUPTED)), h + [Retried];
    states, acts := GoTake(states, acts, job, h, Settling(ODD_ERROR));
  }
}
