/**
 * What holds in every interleaving of the job queue: fencing, one ending per
 * claim, bounded attempts, termination, once-jobs and the backoff bound.
 */
module QueueSafety {
  import opened Common
  import opened QueuePolicy
  import opened QueueRows
  import opened QueueRuns

  lemma {:induction false} InvAlways(cfg: Config, states: seq<Sys>, acts: seq<Action>, i: nat)
    requires Execution(cfg, states, acts) && i < |states|
    ensures Inv(cfg, states[i])
  {
    if i > 0 {
      InvAlways(cfg, states, acts, i - 1);
      assert Enabled(cfg, states[i - 1], acts[i - 1]);
      StepKeepsInv(cfg, states[i - 1], acts[i - 1]);
    }
  }

  // ------------------------------------------------------------ fencing

  /**
   * The fencing test passes for exactly the runs that carry the worker and
   * attempt number of the latest claim, while that claim has neither been
   * swept nor had an outcome recorded. Manual retries included.
   */
  lemma FenceExact(cfg: Config, states: seq<Sys>, acts: seq<Action>, i: nat, r: RunId)
    requires Execution(cfg, states, acts) && i < |states| && r in states[i].runs
    ensures r.job in states[i].hist
    ensures var h := states[i].hist[r.job]; var c := states[i].runs[r].claimed;
      Held(states[i].rows, c) <==> Open(h) && h[|h| - 1].worker == c.worker && h[|h| - 1].attempt == c.attempts
  {
    InvAlways(cfg, states, acts, i);
    var s := states[i];
    assert RunInv(cfg, s, r) && JobInv(s, r.job);
    var h := s.hist[r.job];
    if Open(h) {
      assert h == h[..|h| - 1] + [h[|h| - 1]];
      assert MayFollow(h[..|h| - 1], h[|h| - 1]);
      AttemptsAppend(h[..|h| - 1], h[|h| - 1]);
    }
  }

  /** The latest claim is the only one with its attempt number since the last manual retry. */
  lemma LatestClaimIsUnique(h: History, k: nat)
    requires WellFormed(h) && k < |h| && h[k].Took? && NeverRetried(h[k..])
    ensures Open(h) && h[k].attempt == h[|h| - 1].attempt <==> k == |h| - 1
  {
    if Open(h) && k < |h| - 1 { AttemptIsUnique(h, k, |h| - 1); }
  }

  /** The job was not retried by hand since `r` claimed it. */
  ghost predicate NoRetrySince(s: Sys, r: RunId) {
    r.job in s.hist && r.index <= |s.hist[r.job]| && NeverRetried(s.hist[r.job][r.index..])
  }

  /** For a job not retried since, those are exactly the runs whose own claim is the latest and still open. */
  lemma FencingSinceRetry(cfg: Config, states: seq<Sys>, acts: seq<Action>, i: nat, r: RunId)
    requires Execution(cfg, states, acts) && i < |states| && r in states[i].runs && NoRetrySince(states[i], r)
    ensures Held(states[i].rows, states[i].runs[r].claimed) <==> r.index == |states[i].hist[r.job]| - 1
  {
    InvAlways(cfg, states, acts, i);
    FenceExact(cfg, states, acts, i, r);
    assert RunInv(cfg, states[i], r) && JobInv(states[i], r.job);
    LatestClaimIsUnique(states[i].hist[r.job], r.index);
  }

  // ------------------------------------------------------ quiet retries

  ghost predicate AllOver(s: Sys, id: JobId) {
    forall r :: r in s.runs && r.job == id ==> s.runs[r].phase == Over
  }

  /** Retry(id) would put the job back in line. */
  predicate CanRetry(s: Sys, id: JobId) {
    id in s.rows && s.rows[id].status == Failed
  }

  /** Every manual retry of the job up to state `i` that put it back in line found all its runs over. */
  ghost predicate Quiet(states: seq<Sys>, acts: seq<Action>, i: nat, id: JobId)
    requires i <= |acts| && i < |states|
  {
    forall k :: 0 <= k < i && acts[k] == Retry(id) && CanRetry(states[k], id) ==> AllOver(states[k], id)
  }

  lemma OverStaysOver(cfg: Config, s: Sys, a: Action, r: RunId)
    requires Inv(cfg, s) && Enabled(cfg, s, a) && r in s.runs
    ensures r in Next(cfg, s, a).runs && (s.runs[r].phase == Over ==> Next(cfg, s, a).runs[r].phase == Over)
  {
    assert RunInv(cfg, s, r);
    if a.Claim? { assert r !in NewRuns(s, a.chosen); }
  }

  lemma RetriedOnlyByRetry(cfg: Config, s: Sys, a: Action, id: JobId)
    requires Inv(cfg, s) && Enabled(cfg, s, a) && id in s.hist
    ensures var h, h' := s.hist[id], Next(cfg, s, a).hist[id];
      h' == h || (|h'| == |h| + 1 && h == h'[..|h|] && (h'[|h|] == Retried ==> a == Retry(id) && CanRetry(s, id)))
  {
    if id in s.rows && id in Next(cfg, s, a).rows {
      var ch := StepIsJobStep(cfg, s, a, id);
    } else {
      NoRowNoEvent(cfg, s, a, id);
    }
  }

  lemma StillNotRetried(cfg: Config, s: Sys, a: Action, r: RunId)
    requires Inv(cfg, s) && Enabled(cfg, s, a) && NoRetrySince(s, r)
    requires a == Retry(r.job) ==> !CanRetry(s, r.job)
    ensures NoRetrySince(Next(cfg, s, a), r)
  {
    RetriedOnlyByRetry(cfg, s, a, r.job);
    var h, h' := s.hist[r.job], Next(cfg, s, a).hist[r.job];
    if h' != h { OneMoreNotRetried(h, h', r.index); }
  }

  lemma OneMoreNotRetried(h: History, h': History, k: nat)
    requires k <= |h| && NeverRetried(h[k..]) && |h'| == |h| + 1 && h == h'[..|h|] && h'[|h|] != Retried
    ensures NeverRetried(h'[k..])
  {
    assert h'[k..] == h[k..] + [h'[|h|]];
  }

  lemma ClaimedJustNow(cfg: Config, s: Sys, a: Action, r: RunId)
    requires Inv(cfg, s) && Enabled(cfg, s, a) && r !in s.runs && r in Next(cfg, s, a).runs
    ensures NoRetrySince(Next(cfg, s, a), r)
  {
    var s' := Next(cfg, s, a);
    assert r in NewRuns(s, a.chosen);
    assert s'.hist[r.job][r.index..] == [s'.hist[r.job][r.index]];
  }

  lemma CurrentStep(cfg: Config, s: Sys, a: Action, r: RunId)
    requires Inv(cfg, s) && Enabled(cfg, s, a) && r in Next(cfg, s, a).runs
    requires r in s.runs ==> NoRetrySince(s, r) && (a == Retry(r.job) ==> !CanRetry(s, r.job))
    ensures NoRetrySince(Next(cfg, s, a), r)
  {
    if r in s.runs {
      StillNotRetried(cfg, s, a, r);
    } else {
      ClaimedJustNow(cfg, s, a, r);
    }
  }

  lemma QuietStep(cfg: Config, states: seq<Sys>, acts: seq<Action>, i: nat, r: RunId)
    requires Execution(cfg, states, acts) && i < |acts| && Quiet(states, acts, i + 1, r.job)
    requires r in states[i + 1].runs && states[i + 1].runs[r].phase != Over
    requires r in states[i].runs && states[i].runs[r].phase != Over ==> NoRetrySince(states[i], r)
    ensures NoRetrySince(states[i + 1], r)
  {
    assert Enabled(cfg, states[i], acts[i]) && states[i + 1] == Next(cfg, states[i], acts[i]);
    InvAlways(cfg, states, acts, i);
    if r in states[i].runs { OverStaysOver(cfg, states[i], acts[i], r); }
    CurrentStep(cfg, states[i], acts[i], r);
  }

  /** With quiet retries a run that is not over never has one behind it. */
  lemma {:induction false} QuietMeansCurrent(cfg: Config, states: seq<Sys>, acts: seq<Action>, i: nat, r: RunId)
    requires Execution(cfg, states, acts) && i < |states| && Quiet(states, acts, i, r.job)
    requires r in states[i].runs && states[i].runs[r].phase != Over
    ensures NoRetrySince(states[i], r)
  {
    if i > 0 {
      if r in states[i - 1].runs && states[i - 1].runs[r].phase != Over { QuietMeansCurrent(cfg, states, acts, i - 1, r); }
      QuietStep(cfg, states, acts, i - 1, r);
    }
  }

  // --------------------------------------------------- harmless retries

  /** The run is over, or on its way to record an outcome that ends the job for good. */
  predicate ForGood(cfg: Config, run: Run) {
    match run.phase
    case Over => true
    case Settling(outcome) => outcome.Success? || (run.claimed.queue in cfg.policies && !Retries(cfg, run.claimed, outcome.error))
    case _ => false
  }

  ghost predicate AllForGood(cfg: Config, s: Sys, id: JobId) {
    forall r :: r in s.runs && r.job == id ==> ForGood(cfg, s.runs[r])
  }

  /** Every manual retry of the job up to state `i` that put it back in line found no run of it that may still run its handler again. */
  ghost predicate Harmless(cfg: Config, states: seq<Sys>, acts: seq<Action>, i: nat, id: JobId)
    requires i <= |acts| && i < |states|
  {
    forall k :: 0 <= k < i && acts[k] == Retry(id) && CanRetry(states[k], id) ==> AllForGood(cfg, states[k], id)
  }

  lemma QuietIsHarmless(cfg: Config, states: seq<Sys>, acts: seq<Action>, i: nat, id: JobId)
    requires i <= |acts| && i < |states| && Quiet(states, acts, i, id)
    ensures Harmless(cfg, states, acts, i, id)
  {
    forall k | 0 <= k < i && acts[k] == Retry(id) && CanRetry(states[k], id) ensures AllForGood(cfg, states[k], id) {
      assert AllOver(states[k], id);
    }
  }

  lemma ForGoodStays(cfg: Config, s: Sys, a: Action, r: RunId)
    requires Inv(cfg, s) && Enabled(cfg, s, a) && r in s.runs
    ensures r in Next(cfg, s, a).runs && (ForGood(cfg, s.runs[r]) ==> ForGood(cfg, Next(cfg, s, a).runs[r]))
  {
    assert RunInv(cfg, s, r);
    if a.Claim? { assert r !in NewRuns(s, a.chosen); }
  }

  lemma HarmlessStep(cfg: Config, states: seq<Sys>, acts: seq<Action>, i: nat, r: RunId)
    requires Execution(cfg, states, acts) && i < |acts| && Harmless(cfg, states, acts, i + 1, r.job)
    requires r in states[i + 1].runs && !ForGood(cfg, states[i + 1].runs[r])
    requires r in states[i].runs && !ForGood(cfg, states[i].runs[r]) ==> NoRetrySince(states[i], r)
    ensures NoRetrySince(states[i + 1], r)
  {
    assert Enabled(cfg, states[i], acts[i]) && states[i + 1] == Next(cfg, states[i], acts[i]);
    InvAlways(cfg, states, acts, i);
    if r in states[i].runs { ForGoodStays(cfg, states[i], acts[i], r); }
    CurrentStep(cfg, states[i], acts[i], r);
  }

  /** With harmless retries a run that may still put its job back in line never has one behind it. */
  lemma {:induction false} HarmlessMeansCurrent(cfg: Config, states: seq<Sys>, acts: seq<Action>, i: nat, r: RunId)
    requires Execution(cfg, states, acts) && i < |states| && Harmless(cfg, states, acts, i, r.job)
    requires r in states[i].runs && !ForGood(cfg, states[i].runs[r])
    ensures NoRetrySince(states[i], r)
  {
    if i > 0 {
      if r in states[i - 1].runs && !ForGood(cfg, states[i - 1].runs[r]) { HarmlessMeansCurrent(cfg, states, acts, i - 1, r); }
      HarmlessStep(cfg, states, acts, i - 1, r);
    }
  }

  /** With quiet retries the fence lets through a run that is not over exactly when its own claim is the latest and open. */
  lemma FencingWithQuietRetries(cfg: Config, states: seq<Sys>, acts: seq<Action>, i: nat, r: RunId)
    requires Execution(cfg, states, acts) && i < |states| && Quiet(states, acts, i, r.job)
    requires r in states[i].runs && states[i].runs[r].phase != Over
    ensures r.job in states[i].hist
    ensures Held(states[i].rows, states[i].runs[r].claimed) <==> r.index == |states[i].hist[r.job]| - 1
  {
    QuietMeansCurrent(cfg, states, acts, i, r);
    FencingSinceRetry(cfg, states, acts, i, r);
  }

  /**
   * An outcome changes the table only through a run whose claim is the latest
   * and still open; so does a heartbeat, unless the run is already over, and
   * then it only moves the lock time.
   */
  lemma OnlyTheHolderWrites(cfg: Config, states: seq<Sys>, acts: seq<Action>, i: nat)
    requires Execution(cfg, states, acts) && i < |acts| && (acts[i].Renew? || acts[i].Record?)
    requires Quiet(states, acts, i, acts[i].run.job)
    requires states[i + 1].rows != states[i].rows
    ensures var r := acts[i].run;
      && r in states[i].runs && r.job in states[i].hist && r.job in states[i].rows
      && if states[i].runs[r].phase != Over then r.index == |states[i].hist[r.job]| - 1
         else acts[i].Renew?
    ensures var r := acts[i].run; acts[i].Renew? ==>
      states[i + 1].rows == states[i].rows[r.job := states[i].rows[r.job].(lockedAt := Some(states[i].now))]
    ensures forall id :: id in states[i].rows && id != acts[i].run.job ==>
      id in states[i + 1].rows && states[i + 1].rows[id] == states[i].rows[id]
  {
    assert Enabled(cfg, states[i], acts[i]);
    var r := acts[i].run;
    InvAlways(cfg, states, acts, i);
    assert RunInv(cfg, states[i], r);
    if states[i].runs[r].phase != Over { FencingWithQuietRetries(cfg, states, acts, i, r); }
  }

  /** A heartbeat once sent may land at any time, also when its handler has ended: it moves the lock of the row the run still holds. */
  lemma LateHeartbeatsLand(cfg: Config, s: Sys, r: RunId)
    requires Inv(cfg, s) && r in s.runs && s.runs[r].phase != Taken
    ensures Enabled(cfg, s, Renew(r))
    ensures var c := s.runs[r].claimed;
      Next(cfg, s, Renew(r)).rows == if HeldAs(s.rows, r.job, c.worker, c.attempts) then s.rows[r.job := s.rows[r.job].(lockedAt := Some(s.now))]
                                     else s.rows
  {
    assert RunInv(cfg, s, r);
  }

  ghost predicate OwnWriters(h: History) {
    forall k :: 0 <= k < |h| && h[k].Recorded? ==> h[k].writer == k - 1
  }

  lemma RecordedByItsRun(cfg: Config, s: Sys, a: Action, id: JobId)
    requires Inv(cfg, s) && Enabled(cfg, s, a) && id in s.hist
    requires var h, h' := s.hist[id], Next(cfg, s, a).hist[id]; |h'| > |h| && h'[|h|].Recorded?
    ensures a.Record? && a.run.job == id && Held(s.rows, s.runs[a.run].claimed) && Next(cfg, s, a).hist[id][|s.hist[id]|].writer == a.run.index
  {
    assert RunInv(cfg, s, a.run);
  }

  lemma OwnWritersKept(cfg: Config, states: seq<Sys>, acts: seq<Action>, i: nat, id: JobId)
    requires Execution(cfg, states, acts) && i < |acts| && Quiet(states, acts, i, id)
    requires id in states[i].hist && OwnWriters(states[i].hist[id])
    ensures id in states[i + 1].hist && OwnWriters(states[i + 1].hist[id])
  {
    var s, a := states[i], acts[i];
    assert Enabled(cfg, s, a) && states[i + 1] == Next(cfg, s, a);
    InvAlways(cfg, states, acts, i);
    RetriedOnlyByRetry(cfg, s, a, id);
    var h, h' := s.hist[id], states[i + 1].hist[id];
    if h' != h && h'[|h|].Recorded? {
      RecordedByItsRun(cfg, s, a, id);
      FencingWithQuietRetries(cfg, states, acts, i, a.run);
    }
  }

  lemma NewHistoryIsEmpty(cfg: Config, s: Sys, a: Action, id: JobId)
    requires Inv(cfg, s) && Enabled(cfg, s, a) && id !in s.hist && id in Next(cfg, s, a).hist
    ensures Next(cfg, s, a).hist[id] == []
  {
  }

  lemma {:induction false} OutcomesAreTheirOwn(cfg: Config, states: seq<Sys>, acts: seq<Action>, i: nat, id: JobId)
    requires Execution(cfg, states, acts) && i < |states| && Quiet(states, acts, i, id) && id in states[i].hist
    ensures OwnWriters(states[i].hist[id])
  {
    if i > 0 {
      if id in states[i - 1].hist {
        OutcomesAreTheirOwn(cfg, states, acts, i - 1, id);
        OwnWritersKept(cfg, states, acts, i - 1, id);
      } else {
        InvAlways(cfg, states, acts, i - 1);
        assert Enabled(cfg, states[i - 1], acts[i - 1]);
        NewHistoryIsEmpty(cfg, states[i - 1], acts[i - 1], id);
      }
    }
  }

  /** Each claim ends exactly one way: it is still active, it was swept, or its own run recorded its outcome. */
  lemma EachClaimEndsOneWay(cfg: Config, states: seq<Sys>, acts: seq<Action>, i: nat, r: RunId)
    requires Execution(cfg, states, acts) && i < |states| && r in states[i].runs && Quiet(states, acts, i, r.job)
    ensures r.job in states[i].hist
    ensures var h := states[i].hist[r.job];
      r.index < |h| && (r.index == |h| - 1 || h[r.index + 1].Swept? || (h[r.index + 1].Recorded? && h[r.index + 1].writer == r.index))
  {
    InvAlways(cfg, states, acts, i);
    assert RunInv(cfg, states[i], r) && JobInv(states[i], r.job);
    var h := states[i].hist[r.job];
    OutcomesAreTheirOwn(cfg, states, acts, i, r.job);
    var k := r.index + 1;
    if k < |h| { assert MayFollow(h[..k], h[k]); }
  }

  // --------------------------------------- bounded attempts, termination

  /** In every reachable state: attempts within bounds, locked exactly when active, finished_at exactly when over. */
  lemma AttemptsBounded(cfg: Config, states: seq<Sys>, acts: seq<Action>, i: nat, id: JobId)
    requires Execution(cfg, states, acts) && i < |states| && id in states[i].rows
    ensures var job := states[i].rows[id];
      && job.attempts <= job.maxAttempts + (if Key(job) in cfg.resumable then 2 else 0)
      && (job.status == Pending ==> job.attempts < job.maxAttempts + (if Key(job) in cfg.resumable then 2 else 0))
      && (job.status == Active <==> job.lockedAt.Some? && job.lockedBy.Some?)
      && (job.status != Active <==> job.lockedAt.None? && job.lockedBy.None?)
      && (job.finishedAt.Some? <==> job.status == Completed || job.status == Failed)
  {
    InvAlways(cfg, states, acts, i);
    assert RowOk(cfg, states[i].rows[id]);
  }

  /** Two rows never share a dedupe key. */
  lemma DedupeKeysStayUnique(cfg: Config, states: seq<Sys>, acts: seq<Action>, i: nat, a: JobId, b: JobId)
    requires Execution(cfg, states, acts) && i < |states| && a in states[i].rows && b in states[i].rows
    requires states[i].rows[a].dedupeKey.Some? && states[i].rows[a].dedupeKey == states[i].rows[b].dedupeKey
    ensures a == b
  {
    InvAlways(cfg, states, acts, i);
    assert ShareKey(states[i].rows, a, b);
  }

  lemma JobStepCosts(cfg: Config, now: int, row: Job, h: History, row': Job, h': History, ch: Change)
    requires RowOk(cfg, row) && RowOk(cfg, row') && JobStep(cfg, now, row, h, row', h', ch)
    ensures ch.Kept? || ch.Renewed? || ch.RetriedBy? || 0 <= Measure(cfg, row') < Measure(cfg, row)
  {
  }

  /**
   * Every step but a manual retry of the job leaves its row alone, or renews
   * its lock, or lowers a natural number: attempts left first, then active.
   */
  lemma EveryStepCostsAnAttempt(cfg: Config, states: seq<Sys>, acts: seq<Action>, i: nat, id: JobId)
    requires Execution(cfg, states, acts) && i < |acts| && id in states[i].rows && id in states[i + 1].rows
    requires acts[i] != Retry(id)
    ensures var job, job' := states[i].rows[id], states[i + 1].rows[id];
      && (job' == job || (acts[i].Renew? && job' == job.(lockedAt := Some(states[i].now)))
          || 0 <= Measure(cfg, job') < Measure(cfg, job))
  {
    InvAlways(cfg, states, acts, i);
    InvAlways(cfg, states, acts, i + 1);
    var s, a := states[i], acts[i];
    assert Enabled(cfg, s, a) && states[i + 1] == Next(cfg, s, a);
    assert RowOk(cfg, s.rows[id]) && RowOk(cfg, states[i + 1].rows[id]);
    var ch := StepIsJobStep(cfg, s, a, id);
    JobStepCosts(cfg, s.now, s.rows[id], s.hist[id], states[i + 1].rows[id], states[i + 1].hist[id], ch);
  }

  lemma {:induction false} HistoryCount(h: History)
    requires WellFormed(h) && NeverRetried(h)
    ensures |h| == 2 * AttemptsIn(h) - (if Open(h) then 1 else 0)
  {
    if h != [] {
      var g, e := h[..|h| - 1], h[|h| - 1];
      assert h == g + [e] && e in h;
      assert MayFollow(g, e);
      forall i | 0 <= i < |g| ensures MayFollow(g[..i], g[i]) {
        assert g[..i] == h[..i];
        assert MayFollow(h[..i], h[i]);
      }
      HistoryCount(g);
    }
  }

  /** Without a manual retry a job is claimed at most `Bound` times, and so many endings follow. */
  lemma ClaimsAreFinite(cfg: Config, states: seq<Sys>, acts: seq<Action>, i: nat, id: JobId)
    requires Execution(cfg, states, acts) && i < |states| && id in states[i].rows
    requires id in states[i].hist && NeverRetried(states[i].hist[id])
    ensures |states[i].hist[id]| <= 2 * Bound(cfg, states[i].rows[id])
  {
    InvAlways(cfg, states, acts, i);
    assert JobInv(states[i], id) && RowOk(cfg, states[i].rows[id]);
    HistoryCount(states[i].hist[id]);
  }

  // ------------------------------------------------ what is recorded

  /** Pruning removes the jobs that finished longer ago than the limit for how they ended, and nothing else. */
  lemma OnlyOldJobsArePruned(cfg: Config, s: Sys, completedMs: int, failedMs: int)
    ensures var t := Next(cfg, s, Prune(completedMs, failedMs));
      && t.hist == s.hist && t.runs == s.runs && t.rows.Keys <= s.rows.Keys
      && forall id :: id in s.rows ==>
        if (s.rows[id].status == Completed && FinishedBefore(s.rows[id], s.now - completedMs))
           || (s.rows[id].status == Failed && FinishedBefore(s.rows[id], s.now - failedMs))
        then id !in t.rows else id in t.rows && t.rows[id] == s.rows[id]
  {
  }

  /** The handler of `r` ended this way before action `i`. */
  ghost predicate EndedWith(acts: seq<Action>, i: nat, r: RunId, outcome: Outcome)
    requires i <= |acts|
  {
    exists k :: 0 <= k < i && acts[k] == End(r, outcome)
  }

  lemma SettlesByEnding(cfg: Config, s: Sys, a: Action, r: RunId)
    requires Inv(cfg, s) && Enabled(cfg, s, a) && r in Next(cfg, s, a).runs && Next(cfg, s, a).runs[r].phase.Settling?
    ensures a == End(r, Next(cfg, s, a).runs[r].phase.outcome) || (r in s.runs && s.runs[r].phase == Next(cfg, s, a).runs[r].phase)
  {
    if r in s.runs {
      assert RunInv(cfg, s, r);
      if a.Claim? { assert r !in NewRuns(s, a.chosen); }
    }
  }

  lemma {:induction false} SettlesOnItsEnd(cfg: Config, states: seq<Sys>, acts: seq<Action>, i: nat, r: RunId)
    requires Execution(cfg, states, acts) && i < |states| && r in states[i].runs && states[i].runs[r].phase.Settling?
    ensures EndedWith(acts, i, r, states[i].runs[r].phase.outcome)
  {
    var outcome := states[i].runs[r].phase.outcome;
    InvAlways(cfg, states, acts, i - 1);
    assert Enabled(cfg, states[i - 1], acts[i - 1]);
    SettlesByEnding(cfg, states[i - 1], acts[i - 1], r);
    if acts[i - 1] != End(r, outcome) { SettlesOnItsEnd(cfg, states, acts, i - 1, r); }
  }

  /**
   * What recording an outcome writes, and whose outcome it is: the one the run's
   * own handler ended with. A success completes the job. A failure that another
   * attempt may mend puts it back in line, due just the queue's delay for that
   * attempt later; any other fails it. A run that no longer holds its row writes nothing.
   */
  lemma OutcomeIsRecorded(cfg: Config, states: seq<Sys>, acts: seq<Action>, i: nat)
    requires Execution(cfg, states, acts) && i < |acts| && acts[i].Record?
    ensures var r, s := acts[i].run, states[i];
      r in s.runs && s.runs[r].phase.Settling? && EndedWith(acts, i, r, s.runs[r].phase.outcome)
    ensures var r, s, t := acts[i].run, states[i], states[i + 1]; var c := s.runs[r].claimed;
      !HeldAs(s.rows, r.job, c.worker, c.attempts) ==> t.rows == s.rows && t.hist == s.hist
    ensures var r, s, t := acts[i].run, states[i], states[i + 1]; var c, outcome := s.runs[r].claimed, s.runs[r].phase.outcome;
      HeldAs(s.rows, r.job, c.worker, c.attempts) ==>
        && r.job in t.rows && r.job in s.hist && c.queue in cfg.policies
        && t.hist == s.hist[r.job := s.hist[r.job] + [Recorded(r.index, t.rows[r.job].status)]]
        && t.rows == s.rows[r.job := t.rows[r.job]]
        && EndedAs(cfg.policies[c.queue], c, outcome, s.now, s.rows[r.job], t.rows[r.job])
  {
    var r, s := acts[i].run, states[i];
    assert Enabled(cfg, s, acts[i]);
    InvAlways(cfg, states, acts, i);
    assert RunInv(cfg, s, r);
    SettlesOnItsEnd(cfg, states, acts, i, r);
    if Held(s.rows, s.runs[r].claimed) { FinishEnds(cfg, s, r); }
  }

  lemma FinishEnds(cfg: Config, s: Sys, r: RunId)
    requires Inv(cfg, s) && r in s.runs && s.runs[r].phase.Settling? && Held(s.rows, s.runs[r].claimed)
    ensures var c, outcome := s.runs[r].claimed, s.runs[r].phase.outcome;
      && c.queue in cfg.policies
      && EndedAs(cfg.policies[c.queue], c, outcome, s.now, s.rows[c.id], FinishJob(cfg, s.rows[c.id], c, outcome, s.now))
  {
    var c, outcome := s.runs[r].claimed, s.runs[r].phase.outcome;
    assert RunInv(cfg, s, r) && RowOk(cfg, s.rows[c.id]);
    if outcome.Failure? {
      assert outcome.error.message[..Min(2000, |outcome.error.message|)] == Cut(outcome.error.message, 2000);
    }
  }

  /** Who wrote the event: a run of the job that recorded what its handler ended with, a success as completed and nothing else so. */
  ghost predicate Accounted(acts: seq<Action>, i: nat, id: JobId, e: Event)
    requires i <= |acts| && e.Recorded?
  {
    exists m: nat, outcome :: m < i && acts[m] == Record(RunId(id, e.writer)) && EndedWith(acts, m, RunId(id, e.writer), outcome)
      && (e.status == Completed <==> outcome.Success?)
  }

  /** A job is recorded as completed exactly by runs whose handler succeeded. */
  lemma {:induction false} CompletedMeansSuccess(cfg: Config, states: seq<Sys>, acts: seq<Action>, i: nat, id: JobId, k: nat)
    requires Execution(cfg, states, acts) && i < |states| && id in states[i].hist && k < |states[i].hist[id]|
    requires states[i].hist[id][k].Recorded?
    ensures Accounted(acts, i, id, states[i].hist[id][k])
  {
    var s, a, e := states[i - 1], acts[i - 1], states[i].hist[id][k];
    assert Enabled(cfg, s, a) && states[i] == Next(cfg, s, a);
    InvAlways(cfg, states, acts, i - 1);
    if id in s.hist { RetriedOnlyByRetry(cfg, s, a, id); }
    if id in s.hist && k < |s.hist[id]| {
      CompletedMeansSuccess(cfg, states, acts, i - 1, id, k);
      var m: nat, outcome :| m < i - 1 && acts[m] == Record(RunId(id, e.writer)) && EndedWith(acts, m, RunId(id, e.writer), outcome)
        && (e.status == Completed <==> outcome.Success?);
    } else {
      RecordedByItsRun(cfg, s, a, id);
      OutcomeIsRecorded(cfg, states, acts, i - 1);
      assert EndedWith(acts, i - 1, RunId(id, e.writer), s.runs[a.run].phase.outcome);
    }
  }

  // ----------------------------------------------------------- once-jobs

  /** Every sweep of a `once` job failed it, and every claim has its run. */
  ghost predicate OnceInv(cfg: Config, s: Sys) {
    && (forall id, k :: id in s.hist && id in s.rows && Key(s.rows[id]) in cfg.once && 0 <= k < |s.hist[id]| ==>
          s.hist[id][k] != Swept(false))
    && (forall id, k :: id in s.hist && 0 <= k < |s.hist[id]| && s.hist[id][k].Took? ==> RunId(id, k) in s.runs)
  }

  lemma ClaimsHaveRuns(cfg: Config, s: Sys, a: Action, id: JobId, k: nat)
    requires Inv(cfg, s) && OnceInv(cfg, s) && Enabled(cfg, s, a)
    requires id in Next(cfg, s, a).hist && k < |Next(cfg, s, a).hist[id]| && Next(cfg, s, a).hist[id][k].Took?
    ensures RunId(id, k) in Next(cfg, s, a).runs
  {
    if id in s.hist {
      if id in s.rows && id in Next(cfg, s, a).rows {
        var ch := StepIsJobStep(cfg, s, a, id);
        if ch.TookBy? { assert k == |s.hist[id]| ==> RunId(id, k) in NewRuns(s, a.chosen); }
      } else {
        NoRowNoEvent(cfg, s, a, id);
      }
      RunsStay(cfg, s, a, RunId(id, k));
    }
  }

  lemma RunsStay(cfg: Config, s: Sys, a: Action, r: RunId)
    requires Inv(cfg, s) && Enabled(cfg, s, a)
    ensures r in s.runs ==> r in Next(cfg, s, a).runs && (Next(cfg, s, a).runs[r].phase == Taken ==> s.runs[r].phase == Taken)
  {
    if r in s.runs {
      assert RunInv(cfg, s, r);
      if a.Claim? { assert r !in NewRuns(s, a.chosen); }
    }
  }

  lemma SweepFailsOnceJob(cfg: Config, s: Sys, a: Action, id: JobId, k: nat)
    requires Inv(cfg, s) && OnceInv(cfg, s) && Enabled(cfg, s, a)
    requires id in Next(cfg, s, a).rows && Key(Next(cfg, s, a).rows[id]) in cfg.once
    requires id in Next(cfg, s, a).hist && k < |Next(cfg, s, a).hist[id]|
    ensures Next(cfg, s, a).hist[id][k] != Swept(false)
  {
    if id in s.rows {
      var ch := StepIsJobStep(cfg, s, a, id);
    }
  }

  lemma OnceInvKept(cfg: Config, s: Sys, a: Action)
    requires Inv(cfg, s) && OnceInv(cfg, s) && Enabled(cfg, s, a)
    ensures OnceInv(cfg, Next(cfg, s, a))
  {
    var s' := Next(cfg, s, a);
    forall id, k | id in s'.hist && 0 <= k < |s'.hist[id]| && s'.hist[id][k].Took? ensures RunId(id, k) in s'.runs {
      ClaimsHaveRuns(cfg, s, a, id, k);
    }
    forall id, k | id in s'.hist && id in s'.rows && Key(s'.rows[id]) in cfg.once && 0 <= k < |s'.hist[id]|
      ensures s'.hist[id][k] != Swept(false)
    {
      SweepFailsOnceJob(cfg, s, a, id, k);
    }
  }

  lemma {:induction false} OnceInvAlways(cfg: Config, states: seq<Sys>, acts: seq<Action>, i: nat)
    requires Execution(cfg, states, acts) && i < |states|
    ensures OnceInv(cfg, states[i])
  {
    if i > 0 {
      OnceInvAlways(cfg, states, acts, i - 1);
      InvAlways(cfg, states, acts, i - 1);
      assert Enabled(cfg, states[i - 1], acts[i - 1]);
      OnceInvKept(cfg, states[i - 1], acts[i - 1]);
    }
  }

  lemma {:induction false} HistoriesGrow(cfg: Config, states: seq<Sys>, acts: seq<Action>, i: nat, m: nat, id: JobId)
    requires Execution(cfg, states, acts) && i <= m < |states| && id in states[i].hist
    ensures id in states[m].hist && states[i].hist[id] <= states[m].hist[id]
    decreases m
  {
    if i < m {
      HistoriesGrow(cfg, states, acts, i, m - 1, id);
      assert Enabled(cfg, states[m - 1], acts[m - 1]);
      InvAlways(cfg, states, acts, m - 1);
      HistoryGrows(cfg, states[m - 1], acts[m - 1], id);
    }
  }

  /** A run starts its handler once. */
  lemma {:induction false} StartedOnce(cfg: Config, states: seq<Sys>, acts: seq<Action>, i: nat, m: nat, r: RunId)
    requires Execution(cfg, states, acts) && i <= m < |states| && r in states[i].runs
    ensures r in states[m].runs
    ensures states[m].runs[r].phase == Taken ==> states[i].runs[r].phase == Taken
    decreases m
  {
    if i < m {
      StartedOnce(cfg, states, acts, i, m - 1, r);
      var s, a := states[m - 1], acts[m - 1];
      assert Enabled(cfg, s, a);
      InvAlways(cfg, states, acts, m - 1);
      RunsStay(cfg, s, a, r);
    }
  }

  lemma OnlyRetryFollowsFinal(h: History, j: nat)
    requires WellFormed(h) && j + 1 < |h| && Final(h[j])
    ensures forall i :: 0 <= i <= j ==> !NeverRetried(h[i..])
  {
    assert h[..j + 1][j] == h[j];
    assert MayFollow(h[..j + 1], h[j + 1]);
    forall i | 0 <= i <= j ensures !NeverRetried(h[i..]) {
      assert h[i..][j + 1 - i] == Retried;
    }
  }

  /** An event that ends a job for good is the last one, up to a manual retry. */
  lemma FinalIsLast(h: History, j: nat)
    requires WellFormed(h) && j < |h| && Final(h[j]) && NeverRetried(h[j..])
    ensures j == |h| - 1
  {
    if j + 1 < |h| {
      OnlyRetryFollowsFinal(h, j);
    }
  }

  /** Who recorded an outcome is over. */
  ghost predicate WritersOver(s: Sys) {
    forall id, k :: id in s.hist && 0 <= k < |s.hist[id]| && s.hist[id][k].Recorded? ==> WriterOver(s, RunId(id, s.hist[id][k].writer))
  }

  predicate WriterOver(s: Sys, r: RunId) { r in s.runs && s.runs[r].phase == Over }

  lemma WritersOverKept(cfg: Config, s: Sys, a: Action, id: JobId, k: nat)
    requires Inv(cfg, s) && WritersOver(s) && Enabled(cfg, s, a)
    requires id in Next(cfg, s, a).hist && k < |Next(cfg, s, a).hist[id]| && Next(cfg, s, a).hist[id][k].Recorded?
    ensures WriterOver(Next(cfg, s, a), RunId(id, Next(cfg, s, a).hist[id][k].writer))
  {
    if id in s.hist {
      RetriedOnlyByRetry(cfg, s, a, id);
      if k < |s.hist[id]| {
        assert WriterOver(s, RunId(id, s.hist[id][k].writer));
        OverStaysOver(cfg, s, a, RunId(id, s.hist[id][k].writer));
      } else {
        RecordedByItsRun(cfg, s, a, id);
      }
    }
  }

  lemma {:induction false} WritersAreOver(cfg: Config, states: seq<Sys>, acts: seq<Action>, i: nat)
    requires Execution(cfg, states, acts) && i < |states|
    ensures WritersOver(states[i])
  {
    if i > 0 {
      WritersAreOver(cfg, states, acts, i - 1);
      InvAlways(cfg, states, acts, i - 1);
      var s, a := states[i - 1], acts[i - 1];
      assert Enabled(cfg, s, a) && states[i] == Next(cfg, s, a);
      forall id, k | id in states[i].hist && 0 <= k < |states[i].hist[id]| && states[i].hist[id][k].Recorded?
        ensures WriterOver(states[i], RunId(id, states[i].hist[id][k].writer))
      {
        WritersOverKept(cfg, s, a, id, k);
      }
    }
  }

  /** A run of a cut-off `once` job whose handler has not started is the run of the very claim that was swept. */
  lemma UnstartedIsTheSweptClaim(cfg: Config, states: seq<Sys>, acts: seq<Action>, m: nat, r: RunId, j: nat)
    requires Execution(cfg, states, acts) && m < |states| && Quiet(states, acts, m, r.job)
    requires r in states[m].runs && states[m].runs[r].phase == Taken
    requires r.job in states[m].hist && j == |states[m].hist[r.job]| - 1 && states[m].hist[r.job][j].Swept?
    requires forall k :: 0 <= k <= j ==> states[m].hist[r.job][k] != Swept(false)
    ensures r.index + 1 == j
  {
    InvAlways(cfg, states, acts, m);
    assert RunInv(cfg, states[m], r) && JobInv(states[m], r.job);
    var h, k := states[m].hist[r.job], r.index + 1;
    EachClaimEndsOneWay(cfg, states, acts, m, r);
    WritersAreOver(cfg, states, acts, m);
    assert h[k].Recorded? ==> WriterOver(states[m], RunId(r.job, h[k].writer));
    QuietMeansCurrent(cfg, states, acts, m, r);
    if k < j {
      OnlyRetryFollowsFinal(h, k);
    }
  }

  /**
   * After a sweep cuts off a `once` job, declared resumable or not, and while no
   * one retries it by hand, the job has failed for good and is reported once.
   * Its handler can still be started in exactly one way: by the run of the very
   * claim that was swept, if the answer to that claim was still on its way.
   */
  lemma OnceNeverStartedAgain(cfg: Config, states: seq<Sys>, acts: seq<Action>, i: nat, m: nat, id: JobId, j: nat)
    requires Execution(cfg, states, acts) && i <= m < |states|
    requires id in states[i].rows && Key(states[i].rows[id]) in cfg.once
    requires id in states[i].hist && j < |states[i].hist[id]| && states[i].hist[id][j].Swept?
    requires id in states[m].hist && j < |states[m].hist[id]| && NeverRetried(states[m].hist[id][j..])
    requires Quiet(states, acts, m, id)
    ensures j == |states[m].hist[id]| - 1 && states[m].hist[id][j] == Swept(true)
    ensures id in states[m].rows ==> states[m].rows[id].status == Failed
    ensures forall k :: 0 <= k < |states[m].hist[id]| && states[m].hist[id][k] == Swept(true) && NeverRetried(states[m].hist[id][k..]) ==> k == j
    ensures forall r: RunId :: r.job == id ==>
      (Enabled(cfg, states[m], Start(r)) <==> r.index + 1 == j && r in states[m].runs && states[m].runs[r].phase == Taken)
  {
    OnceInvAlways(cfg, states, acts, i);
    HistoriesGrow(cfg, states, acts, i, m, id);
    InvAlways(cfg, states, acts, m);
    assert JobInv(states[m], id);
    var h := states[m].hist[id];
    assert forall k :: 0 <= k <= j ==> h[k] == states[i].hist[id][k];
    FinalIsLast(h, j);
    forall k | 0 <= k < |h| && h[k] == Swept(true) && NeverRetried(h[k..]) ensures k == j { FinalIsLast(h, k); }
    forall r: RunId | r.job == id && Enabled(cfg, states[m], Start(r)) ensures r.index + 1 == j {
      UnstartedIsTheSweptClaim(cfg, states, acts, m, r, j);
    }
  }

  // ------------------------------------------------------------- backoff

  /** The delay index of a retry is always in range: the fallbacks of `finish` are never used. */
  lemma RetryDelayInRange(cfg: Config, states: seq<Sys>, acts: seq<Action>, i: nat, r: RunId, err: JobError)
    requires Execution(cfg, states, acts) && i < |states| && r in states[i].runs
    ensures states[i].runs[r].claimed.queue in cfg.policies
    ensures var c := states[i].runs[r].claimed;
      Retries(cfg, c, err) ==> 0 <= c.attempts - 1 < |cfg.policies[c.queue].delays|
  {
    InvAlways(cfg, states, acts, i);
    assert RunInv(cfg, states[i], r) && JobInv(states[i], r.job);
    var h := states[i].hist[r.job];
    assert MayFollow(h[..r.index], h[r.index]);
  }

  /** No attempt of the job came before `due`, and none will. */
  ghost predicate NotBefore(s: Sys, id: JobId, due: int) {
    id in s.hist && (forall k :: 0 <= k < |s.hist[id]| && s.hist[id][k].Took? ==> s.hist[id][k].at >= due)
    && (s.hist[id] == [] && id in s.rows ==> s.rows[id].runAt >= due)
  }

  lemma NotBeforeKept(cfg: Config, s: Sys, a: Action, id: JobId, due: int)
    requires Inv(cfg, s) && Enabled(cfg, s, a) && NotBefore(s, id, due)
    ensures NotBefore(Next(cfg, s, a), id, due)
  {
    var t := Next(cfg, s, a);
    assert JobInv(s, id);
    HistoryGrows(cfg, s, a, id);
    if s.hist[id] != [] { assert MayFollow(s.hist[id][..0], s.hist[id][0]); }
    if id in s.rows && id in t.rows {
      var ch := StepIsJobStep(cfg, s, a, id);
      if ch.RecordedBy? || ch.SweptOff? || ch.RetriedBy? { assert s.hist[id] != []; }
    } else {
      NoRowNoEvent(cfg, s, a, id);
    }
  }

  /** A job added with a delay is never taken before the delay is over, and one without is due at once. */
  lemma {:induction false} NeverBeforeItsDelay(cfg: Config, states: seq<Sys>, acts: seq<Action>, added: nat, i: nat)
    requires Execution(cfg, states, acts) && added < i < |states| && acts[added].Add? && acts[added].id in states[added + 1].rows
    ensures NotBefore(states[i], acts[added].id, states[added].now + acts[added].delayMs)
    ensures i == added + 1 ==> states[i].rows[acts[added].id].runAt == states[added].now + Max(0, acts[added].delayMs)
    decreases i
  {
    assert Enabled(cfg, states[i - 1], acts[i - 1]);
    InvAlways(cfg, states, acts, i - 1);
    if i > added + 1 {
      NeverBeforeItsDelay(cfg, states, acts, added, i - 1);
      NotBeforeKept(cfg, states[i - 1], acts[i - 1], acts[added].id, states[added].now + acts[added].delayMs);
    }
  }

  ghost predicate OwnFailuresOnly(h: History) {
    forall k :: 0 <= k < |h| ==> h[k].Took? || h[k].Recorded?
  }

  ghost predicate BackoffInv(cfg: Config, s: Sys) {
    forall id :: id in s.rows && id in s.hist && s.rows[id].queue in cfg.policies ==>
      JobBacksOff(cfg.policies[s.rows[id].queue].delays, s.rows[id], s.hist[id])
  }

  predicate ClaimInTime(delays: seq<nat>, first: int, e: Event) {
    e.Took? ==> 1 <= e.attempt <= |delays| + 1 && first + Sum(delays[..e.attempt - 1]) <= e.at
  }

  ghost predicate JobBacksOff(delays: seq<nat>, job: Job, h: History) {
    OwnFailuresOnly(h) && h != [] && h[0].Took? ==>
      && (forall k :: 0 <= k < |h| ==> ClaimInTime(delays, h[0].at, h[k]))
      && (job.status == Pending ==> job.attempts <= |delays| && h[0].at + Sum(delays[..job.attempts]) <= job.runAt)
  }

  lemma ClaimBacksOff(delays: seq<nat>, now: int, row: Job, h: History, worker: Worker)
    requires row.status == Pending && row.runAt <= now && JobBacksOff(delays, row, h)
    requires |h| > 0 ==> h[0].Took?
    requires row.attempts == AttemptsIn(h)
    ensures JobBacksOff(delays, ClaimJob(row, worker, now), h + [Took(worker, row.attempts + 1, now)])
  {
    var h' := h + [Took(worker, row.attempts + 1, now)];
    if OwnFailuresOnly(h') {
      forall k | 0 <= k < |h| ensures h[k].Took? || h[k].Recorded? { assert h[k] == h'[k]; }
      if h == [] { assert delays[..0] == []; }
    }
  }

  lemma OutcomeBacksOff(cfg: Config, now: int, row: Job, h: History, c: Claimed, outcome: Outcome, writer: nat)
    requires RowOk(cfg, row) && JobBacksOff(cfg.policies[row.queue].delays, row, h)
    requires c.queue == row.queue && c.attempts == row.attempts && c.maxAttempts == row.maxAttempts
    requires Open(h) && h[|h| - 1].attempt == row.attempts && h[|h| - 1].at <= now
    requires h[0].Took?
    ensures var row' := FinishJob(cfg, row, c, outcome, now);
      JobBacksOff(cfg.policies[row.queue].delays, row', h + [Recorded(writer, row'.status)])
  {
    var delays := cfg.policies[row.queue].delays;
    var row' := FinishJob(cfg, row, c, outcome, now);
    var h' := h + [Recorded(writer, row'.status)];
    if OwnFailuresOnly(h') {
      forall k | 0 <= k < |h| ensures h[k].Took? || h[k].Recorded? { assert h[k] == h'[k]; }
      if row'.status == Pending { SumPrefixStep(delays, c.attempts - 1); }
    }
  }

  lemma JobBackoffKept(cfg: Config, now: int, row: Job, h: History, row': Job, h': History, ch: Change)
    requires RowOk(cfg, row) && WellFormed(h) && HappenedBy(h, now) && RowMatches(row, h)
    requires JobStep(cfg, now, row, h, row', h', ch)
    requires JobBacksOff(cfg.policies[row.queue].delays, row, h)
    ensures JobBacksOff(cfg.policies[row.queue].delays, row', h')
  {
    if h != [] { assert MayFollow(h[..0], h[0]); }
    match ch
    case TookBy(worker) => ClaimBacksOff(cfg.policies[row.queue].delays, now, row, h, worker);
    case RecordedBy(c, outcome, writer) =>
      var last := h[|h| - 1];
      assert h == h[..|h| - 1] + [last];
      assert MayFollow(h[..|h| - 1], last);
      AttemptsAppend(h[..|h| - 1], last);
      OutcomeBacksOff(cfg, now, row, h, c, outcome, writer);
    case SweptOff => assert h'[|h|].Swept?;
    case RetriedBy => assert h'[|h|].Retried?;
    case _ =>
  }

  lemma BackoffKeptByStep(cfg: Config, s: Sys, a: Action, id: JobId)
    requires Inv(cfg, s) && Enabled(cfg, s, a) && id in s.rows && id in Next(cfg, s, a).rows && s.rows[id].queue in cfg.policies
    requires JobBacksOff(cfg.policies[s.rows[id].queue].delays, s.rows[id], s.hist[id])
    ensures id in Next(cfg, s, a).hist && Next(cfg, s, a).rows[id].queue == s.rows[id].queue
    ensures JobBacksOff(cfg.policies[s.rows[id].queue].delays, Next(cfg, s, a).rows[id], Next(cfg, s, a).hist[id])
  {
    assert RowOk(cfg, s.rows[id]) && JobInv(s, id);
    var ch := StepIsJobStep(cfg, s, a, id);
    JobBackoffKept(cfg, s.now, s.rows[id], s.hist[id], Next(cfg, s, a).rows[id], Next(cfg, s, a).hist[id], ch);
  }

  lemma BackoffKept(cfg: Config, s: Sys, a: Action)
    requires Inv(cfg, s) && Enabled(cfg, s, a) && BackoffInv(cfg, s)
    ensures BackoffInv(cfg, Next(cfg, s, a))
  {
    var s' := Next(cfg, s, a);
    forall id | id in s'.rows && id in s'.hist && s'.rows[id].queue in cfg.policies
      ensures JobBacksOff(cfg.policies[s'.rows[id].queue].delays, s'.rows[id], s'.hist[id])
    {
      if id in s.rows {
        assert RowOk(cfg, s.rows[id]);
        BackoffKeptByStep(cfg, s, a, id);
      }
    }
  }

  lemma {:induction false} BackoffAlways(cfg: Config, states: seq<Sys>, acts: seq<Action>, i: nat)
    requires Execution(cfg, states, acts) && i < |states|
    ensures BackoffInv(cfg, states[i])
  {
    if i > 0 {
      BackoffAlways(cfg, states, acts, i - 1);
      InvAlways(cfg, states, acts, i - 1);
      assert Enabled(cfg, states[i - 1], acts[i - 1]);
      BackoffKept(cfg, states[i - 1], acts[i - 1]);
    }
  }

  /** A job that only ever failed by its own errors starts attempt n no earlier than the first n - 1 delays after its first. */
  lemma AttemptsAreSpacedOut(cfg: Config, states: seq<Sys>, acts: seq<Action>, i: nat, id: JobId, k: nat)
    requires Execution(cfg, states, acts) && i < |states| && id in states[i].rows
    requires id in states[i].hist && OwnFailuresOnly(states[i].hist[id])
    requires k < |states[i].hist[id]| && states[i].hist[id][k].Took?
    ensures states[i].rows[id].queue in cfg.policies
    ensures var h, delays := states[i].hist[id], cfg.policies[states[i].rows[id].queue].delays;
      && h[0].Took? && 1 <= h[k].attempt <= |delays| + 1
      && h[k].at >= h[0].at + Sum(delays[..h[k].attempt - 1])
  {
    InvAlways(cfg, states, acts, i);
    BackoffAlways(cfg, states, acts, i);
    assert RowOk(cfg, states[i].rows[id]) && JobInv(states[i], id);
    var h := states[i].hist[id];
    assert MayFollow(h[..0], h[0]);
  }

  /** On an exponential queue with n retries the last attempt starts at least base * (2^n - 1) after the first. */
  lemma LastAttemptOfExponentialQueue(cfg: Config, states: seq<Sys>, acts: seq<Action>, i: nat, id: JobId, k: nat,
                                      retries: nat, baseMs: nat)
    requires Execution(cfg, states, acts) && i < |states| && id in states[i].rows
    requires states[i].rows[id].queue in cfg.policies
    requires cfg.policies[states[i].rows[id].queue].delays == Exponential(retries, baseMs)
    requires id in states[i].hist && OwnFailuresOnly(states[i].hist[id])
    requires k < |states[i].hist[id]| && states[i].hist[id][k].Took? && states[i].hist[id][k].attempt == states[i].rows[id].maxAttempts
    ensures states[i].hist[id][0].Took?
    ensures states[i].hist[id][k].at >= states[i].hist[id][0].at + baseMs * (Pow2(retries) - 1)
  {
    InvAlways(cfg, states, acts, i);
    assert RowOk(cfg, states[i].rows[id]);
    AttemptsAreSpacedOut(cfg, states, acts, i, id, k);
    ExponentialSum(retries, baseMs, retries);
  }

  /** What the waits of a configured queue add up to, in ms. */
  function AllWaits(queue: string): nat
    requires queue in QUEUES
  {
    Sum(QUEUES[queue].delays)
  }

  lemma ConfiguredWaits()
    ensures AllWaits("events") == 75 * SECOND && AllWaits("notifications") == 225 * SECOND
    ensures AllWaits("pixels") == 90 * SECOND && AllWaits("carriers") == 450 * SECOND
    ensures AllWaits("ai") == 30 * SECOND && AllWaits("default") == 30 * SECOND && AllWaits("io") == 0
    ensures AllWaits("webhooks") == 32 * HOUR + 36 * MINUTE
  {
    ExponentialTotal(4, 5 * SECOND, 15);
    ExponentialTotal(4, 15 * SECOND, 15);
    ExponentialTotal(2, 30 * SECOND, 3);
    ExponentialTotal(4, 30 * SECOND, 15);
    ExponentialTotal(2, 10 * SECOND, 3);
    WebhookTotal();
    assert Sum([30 * SECOND]) == 30 * SECOND by { assert [30 * SECOND][..0] == []; }
  }

  lemma ExponentialTotal(retries: nat, baseMs: nat, times: nat)
    requires times == Pow2(retries) - 1
    ensures Sum(Exponential(retries, baseMs)) == baseMs * times
  {
    ExponentialSum(retries, baseMs, retries);
    assert Exponential(retries, baseMs)[..retries] == Exponential(retries, baseMs);
  }

  lemma WebhookTotal()
    ensures Sum(QUEUES["webhooks"].delays) == 32 * HOUR + 36 * MINUTE
  {
    var d := QUEUES["webhooks"].delays;
    assert d[..0] == [];
    SumPrefixStep(d, 0);
    SumPrefixStep(d, 1);
    SumPrefixStep(d, 2);
    SumPrefixStep(d, 3);
    SumPrefixStep(d, 4);
    SumPrefixStep(d, 5);
    assert d[..6] == d;
  }

  /** As the queues are configured: a job that fails every attempt by its own error is tried for the last time all its waits after the first. */
  lemma LastAttemptAsConfigured(cfg: Config, states: seq<Sys>, acts: seq<Action>, i: nat, id: JobId, k: nat)
    requires Execution(cfg, states, acts) && i < |states| && id in states[i].rows && cfg.policies == QUEUES
    requires id in states[i].hist && OwnFailuresOnly(states[i].hist[id])
    requires k < |states[i].hist[id]| && states[i].hist[id][k].Took? && states[i].hist[id][k].attempt == states[i].rows[id].maxAttempts
    ensures states[i].hist[id][0].Took? && states[i].rows[id].queue in QUEUES
    ensures states[i].hist[id][k].at >= states[i].hist[id][0].at + AllWaits(states[i].rows[id].queue)
  {
    InvAlways(cfg, states, acts, i);
    assert RowOk(cfg, states[i].rows[id]);
    AttemptsAreSpacedOut(cfg, states, acts, i, id, k);
    var delays := cfg.policies[states[i].rows[id].queue].delays;
    assert delays[..|delays|] == delays;
  }
}
