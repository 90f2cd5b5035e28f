/**
 * Timed mutual exclusion: while the heartbeats of a live run land often enough,
 * no sweep takes its job and no second handler runs for it.
 */
module QueueTiming {
  import opened Common
  import opened QueueRows
  import opened QueueRuns
  import opened QueueSafety

  function HeartbeatMs(staleLockMs: nat): (ms: nat)
    ensures ms >= 1000
  {
    Min(60 * 1000, Max(1000, staleLockMs / 4))
  }

  /** With a stale window of 10 s or more four heartbeat periods fit in it, and four longer ones would not; past four minutes it is one a minute. */
  lemma FourHeartbeatsFit(staleLockMs: nat)
    requires staleLockMs >= 10000
    ensures 4 * HeartbeatMs(staleLockMs) <= staleLockMs
    ensures if staleLockMs < 240000 then 4 * (HeartbeatMs(staleLockMs) + 1) > staleLockMs else HeartbeatMs(staleLockMs) == 60000
  {
  }

  /** The handler of a live run is running, or about to start. */
  predicate Live(s: Sys, r: RunId) {
    r in s.runs && (s.runs[r].phase == Taken || s.runs[r].phase == Running)
  }

  function ClaimedAt(s: Sys, r: RunId): int
    requires r.job in s.hist && r.index < |s.hist[r.job]| && s.hist[r.job][r.index].Took?
  {
    s.hist[r.job][r.index].at
  }

  /** Slot b of a run claimed at `t` is `b` heartbeat periods later; `ms` is how late its beat may land. */
  ghost predicate BeatLanded(cfg: Config, states: seq<Sys>, acts: seq<Action>, i: nat, r: RunId, t: int, b: int, lateMs: nat, a: int)
    requires i < |states| <= |acts| + 1
  {
    0 <= a < i && acts[a] == Renew(r)
    && t + b * HeartbeatMs(cfg.staleLockMs) <= states[a].now <= t + b * HeartbeatMs(cfg.staleLockMs) + lateMs
  }

  ghost predicate BeatsKept(cfg: Config, states: seq<Sys>, acts: seq<Action>, i: nat, r: RunId, t: int, n: int, every: nat, lateMs: nat)
    requires i < |states| <= |acts| + 1
  {
    t + (n + every) * HeartbeatMs(cfg.staleLockMs) + lateMs < states[i].now ==>
      exists b, a :: n < b <= n + every && BeatLanded(cfg, states, acts, i, r, t, b, lateMs, a)
  }

  ghost predicate OnTimeAt(cfg: Config, states: seq<Sys>, acts: seq<Action>, i: nat, every: nat, lateMs: nat)
    requires i < |states| <= |acts| + 1
  {
    forall r, n: nat {:trigger BeatsKept(cfg, states, acts, i, r, ClaimedAt(states[i], r), n, every, lateMs)} ::
      Live(states[i], r) && r.job in states[i].hist && r.index < |states[i].hist[r.job]| && states[i].hist[r.job][r.index].Took? ==>
        BeatsKept(cfg, states, acts, i, r, ClaimedAt(states[i], r), n, every, lateMs)
  }

  /** While a run is live, at least one of every `every` consecutive heartbeats of it lands, at most `lateMs` late. */
  ghost predicate OnTime(cfg: Config, states: seq<Sys>, acts: seq<Action>, every: nat, lateMs: nat)
    requires |states| == |acts| + 1
  {
    forall i: nat :: i < |states| ==> OnTimeAt(cfg, states, acts, i, every, lateMs)
  }

  lemma {:induction false} TimeIsMonotone(cfg: Config, states: seq<Sys>, acts: seq<Action>, i: nat, j: nat)
    requires Execution(cfg, states, acts) && i <= j < |states|
    ensures states[i].now <= states[j].now
    decreases j
  {
    if i < j {
      TimeIsMonotone(cfg, states, acts, i, j - 1);
      assert Enabled(cfg, states[j - 1], acts[j - 1]);
    }
  }

  /** `r` is the latest claim of its job, and nothing has ended it. */
  predicate Holds(s: Sys, r: RunId) {
    r in s.runs && r.job in s.rows && r.job in s.hist && r.index == |s.hist[r.job]| - 1
  }

  /** The run of the latest claim, not ended, passes the fence. */
  lemma HolderPasses(cfg: Config, states: seq<Sys>, acts: seq<Action>, i: nat, r: RunId)
    requires Execution(cfg, states, acts) && i < |states| && Holds(states[i], r)
    ensures Held(states[i].rows, states[i].runs[r].claimed)
  {
    InvAlways(cfg, states, acts, i);
    assert RunInv(cfg, states[i], r);
    FenceExact(cfg, states, acts, i, r);
  }

  /** While the history of a job stands still its lock time never goes back. */
  lemma LockStepForward(cfg: Config, s: Sys, a: Action, r: RunId)
    requires Inv(cfg, s) && Enabled(cfg, s, a) && Inv(cfg, Next(cfg, s, a))
    requires Holds(s, r) && Holds(Next(cfg, s, a), r)
    requires s.rows[r.job].lockedAt.Some? && s.rows[r.job].lockedAt.value <= s.now
    ensures Next(cfg, s, a).rows[r.job].lockedAt.Some?
    ensures s.rows[r.job].lockedAt.value <= Next(cfg, s, a).rows[r.job].lockedAt.value <= s.now
    ensures a == Renew(r) && Held(s.rows, s.runs[r].claimed) ==> Next(cfg, s, a).rows[r.job].lockedAt == Some(s.now)
  {
    var ch := StepIsJobStep(cfg, s, a, r.job);
    assert RunInv(cfg, s, r);
  }

  /** The lock of a run that still holds its job is at least as fresh as its claim and as each heartbeat it sent. */
  lemma {:induction false} LockIsFresh(cfg: Config, states: seq<Sys>, acts: seq<Action>, i: nat, r: RunId, k: nat)
    requires Execution(cfg, states, acts) && i < |states| && Holds(states[i], r)
    ensures LockSince(states[i], r) && (k < i && acts[k] == Renew(r) ==> states[k].now <= states[i].rows[r.job].lockedAt.value)
    decreases i
  {
    NoneAtFirst(cfg, states, acts, r);
    var s, a := states[i - 1], acts[i - 1];
    StepAt(cfg, states, acts, i - 1);
    if r in s.runs {
      HoldsBefore(cfg, s, a, r);
      LockIsFresh(cfg, states, acts, i - 1, r, k);
      HolderPasses(cfg, states, acts, i - 1, r);
      LockGoesOn(cfg, s, a, r);
    } else {
      LockBegins(cfg, s, a, r);
      NoBeatBeforeClaim(cfg, states, acts, k, i - 1, r);
    }
  }

  lemma NoneAtFirst(cfg: Config, states: seq<Sys>, acts: seq<Action>, r: RunId)
    requires Execution(cfg, states, acts)
    ensures r !in states[0].runs
  {
  }

  lemma StepAt(cfg: Config, states: seq<Sys>, acts: seq<Action>, i: nat)
    requires Execution(cfg, states, acts) && i < |acts|
    ensures Enabled(cfg, states[i], acts[i]) && states[i + 1] == Next(cfg, states[i], acts[i])
    ensures Inv(cfg, states[i]) && Inv(cfg, states[i + 1])
  {
    InvAlways(cfg, states, acts, i);
    InvAlways(cfg, states, acts, i + 1);
  }

  /** The lock is no older than the claim. */
  ghost predicate LockSince(s: Sys, r: RunId)
    requires Holds(s, r)
  {
    && s.hist[r.job][r.index].Took? && s.rows[r.job].lockedAt.Some?
    && ClaimedAt(s, r) <= s.rows[r.job].lockedAt.value <= s.now
  }

  lemma LockGoesOn(cfg: Config, s: Sys, a: Action, r: RunId)
    requires Inv(cfg, s) && Enabled(cfg, s, a) && Inv(cfg, Next(cfg, s, a))
    requires Holds(s, r) && Holds(Next(cfg, s, a), r) && LockSince(s, r) && Held(s.rows, s.runs[r].claimed)
    ensures LockSince(Next(cfg, s, a), r)
    ensures s.rows[r.job].lockedAt.value <= Next(cfg, s, a).rows[r.job].lockedAt.value
    ensures a == Renew(r) ==> s.now <= Next(cfg, s, a).rows[r.job].lockedAt.value
  {
    HistoryGrows(cfg, s, a, r.job);
    LockStepForward(cfg, s, a, r);
  }

  lemma LockBegins(cfg: Config, s: Sys, a: Action, r: RunId)
    requires Inv(cfg, s) && Enabled(cfg, s, a) && r !in s.runs && Holds(Next(cfg, s, a), r)
    ensures LockSince(Next(cfg, s, a), r) && a.Claim?
  {
    assert r in NewRuns(s, a.chosen);
  }

  lemma HoldsBefore(cfg: Config, s: Sys, a: Action, r: RunId)
    requires Inv(cfg, s) && Enabled(cfg, s, a) && Inv(cfg, Next(cfg, s, a)) && r in s.runs && Holds(Next(cfg, s, a), r)
    ensures Holds(s, r)
  {
    assert RunInv(cfg, s, r);
    HistoryGrows(cfg, s, a, r.job);
    assert JobInv(s, r.job);
  }

  lemma {:induction false} NoBeatBeforeClaim(cfg: Config, states: seq<Sys>, acts: seq<Action>, k: nat, i: nat, r: RunId)
    requires Execution(cfg, states, acts) && i < |states| && r !in states[i].runs
    ensures k < i ==> acts[k] != Renew(r)
  {
    if k < i && acts[k] == Renew(r) {
      assert Enabled(cfg, states[k], acts[k]);
      StartedOnce(cfg, states, acts, k, i, r);
    }
  }

  /** Enough landed beats keep the lock younger than `every` periods and the lateness. */
  lemma LockIsYoung(cfg: Config, states: seq<Sys>, acts: seq<Action>, every: nat, lateMs: nat, i: nat, r: RunId)
    requires Execution(cfg, states, acts) && OnTime(cfg, states, acts, every, lateMs)
    requires i < |states| && Holds(states[i], r) && Live(states[i], r)
    ensures states[i].rows[r.job].lockedAt.Some?
    ensures states[i].now - states[i].rows[r.job].lockedAt.value <= every * HeartbeatMs(cfg.staleLockMs) + lateMs
  {
    LockIsFresh(cfg, states, acts, i, r, 0);
    var hb, t, now := HeartbeatMs(cfg.staleLockMs), ClaimedAt(states[i], r), states[i].now;
    if t + every * hb + lateMs < now {
      var n := LastMissedSlot(now - t - lateMs, hb, every);
      assert OnTimeAt(cfg, states, acts, i, every, lateMs);
      assert BeatsKept(cfg, states, acts, i, r, t, n, every, lateMs);
      var b, a :| n < b <= n + every && BeatLanded(cfg, states, acts, i, r, t, b, lateMs, a);
      LockIsFresh(cfg, states, acts, i, r, a);
      SlotsApart(t, hb, n, b, every, lateMs, now, states[i].rows[r.job].lockedAt.value);
    }
  }

  lemma {:induction false} LastMissedSlot(span: int, hb: nat, every: nat) returns (n: nat)
    requires hb >= 1 && every * hb < span
    ensures (n + every) * hb < span <= (n + every + 1) * hb
    decreases span
  {
    n := 0;
    if span > (every + 1) * hb {
      assert (every + 1) * hb == every * hb + hb;
      var m := LastMissedSlot(span - hb, hb, every);
      n := m + 1;
      assert (n + every) * hb == (m + every) * hb + hb;
      assert (n + every + 1) * hb == (m + every + 1) * hb + hb;
    }
  }

  lemma SlotsApart(t: int, hb: nat, n: nat, b: nat, every: nat, lateMs: nat, now: int, lock: int)
    requires n < b && t + b * hb <= lock && now - t - lateMs <= (n + every + 1) * hb
    ensures now - lock <= every * hb + lateMs
  {
    assert b * hb == (n + 1) * hb + (b - n - 1) * hb;
    assert (n + every + 1) * hb == (n + 1) * hb + every * hb;
  }

  /**
   * While heartbeats land on time, and manual retries of the job find all its
   * runs over, a live run holds its job: no sweep takes it and no outcome but
   * its own ends it.
   */
  lemma {:induction false} LiveRunsHold(cfg: Config, states: seq<Sys>, acts: seq<Action>, every: nat, lateMs: nat, i: nat, r: RunId)
    requires Execution(cfg, states, acts) && OnTime(cfg, states, acts, every, lateMs)
    requires every * HeartbeatMs(cfg.staleLockMs) + lateMs <= cfg.staleLockMs
    requires i < |states| && Live(states[i], r) && Quiet(states, acts, i, r.job)
    ensures Holds(states[i], r) && Held(states[i].rows, states[i].runs[r].claimed)
    ensures !Stale(cfg, states[i].rows[r.job], states[i].now)
  {
    LiveRunsHoldByInduction(cfg, states, acts, every, lateMs, i, r);
    LockIsYoung(cfg, states, acts, every, lateMs, i, r);
    HolderPasses(cfg, states, acts, i, r);
  }

  lemma {:induction false} LiveRunsHoldByInduction(cfg: Config, states: seq<Sys>, acts: seq<Action>, every: nat, lateMs: nat, i: nat, r: RunId)
    requires Execution(cfg, states, acts) && OnTime(cfg, states, acts, every, lateMs)
    requires every * HeartbeatMs(cfg.staleLockMs) + lateMs <= cfg.staleLockMs
    requires i < |states| && Live(states[i], r) && Quiet(states, acts, i, r.job)
    ensures Holds(states[i], r)
    decreases i
  {
    NoneAtFirst(cfg, states, acts, r);
    if Live(states[i - 1], r) { LiveRunsHoldByInduction(cfg, states, acts, every, lateMs, i - 1, r); }
    StillHolds(cfg, states, acts, every, lateMs, i - 1, r);
  }

  lemma StillHolds(cfg: Config, states: seq<Sys>, acts: seq<Action>, every: nat, lateMs: nat, i: nat, r: RunId)
    requires Execution(cfg, states, acts) && OnTime(cfg, states, acts, every, lateMs)
    requires every * HeartbeatMs(cfg.staleLockMs) + lateMs <= cfg.staleLockMs
    requires i < |acts| && Live(states[i + 1], r) && Quiet(states, acts, i, r.job)
    requires Live(states[i], r) ==> Holds(states[i], r)
    ensures Holds(states[i + 1], r)
  {
    assert Enabled(cfg, states[i], acts[i]) && states[i + 1] == Next(cfg, states[i], acts[i]);
    InvAlways(cfg, states, acts, i);
    if r in states[i].runs {
      LiveBefore(cfg, states[i], acts[i], r);
      LockIsYoung(cfg, states, acts, every, lateMs, i, r);
      HolderIsNotEnded(cfg, states, acts, i, r);
    } else {
      JustClaimedHolds(cfg, states[i], acts[i], r);
    }
  }

  lemma JustClaimedHolds(cfg: Config, s: Sys, a: Action, r: RunId)
    requires Inv(cfg, s) && Enabled(cfg, s, a) && r !in s.runs && r in Next(cfg, s, a).runs
    ensures Holds(Next(cfg, s, a), r)
  {
    assert r in NewRuns(s, a.chosen);
  }

  lemma LiveBefore(cfg: Config, s: Sys, a: Action, r: RunId)
    requires Inv(cfg, s) && Enabled(cfg, s, a) && r in s.runs && Live(Next(cfg, s, a), r)
    ensures Live(s, r)
    ensures !(a.Record? && a.run == r)
  {
    assert RunInv(cfg, s, r);
    if a.Claim? { assert r !in NewRuns(s, a.chosen); }
  }

  /** A step appends nothing to the history of a job held by a live run whose lock is not stale. */
  lemma HolderIsNotEnded(cfg: Config, states: seq<Sys>, acts: seq<Action>, i: nat, r: RunId)
    requires Execution(cfg, states, acts) && i < |acts| && Holds(states[i], r) && Quiet(states, acts, i, r.job)
    requires Live(states[i], r) && Live(states[i + 1], r)
    requires !Stale(cfg, states[i].rows[r.job], states[i].now)
    ensures Holds(states[i + 1], r)
  {
    var s, a := states[i], acts[i];
    assert Enabled(cfg, s, a) && states[i + 1] == Next(cfg, s, a);
    InvAlways(cfg, states, acts, i);
    InvAlways(cfg, states, acts, i + 1);
    assert RunInv(cfg, s, r) && JobInv(s, r.job);
    RowStays(cfg, s, a, r);
    var ch := StepIsJobStep(cfg, s, a, r.job);
    if ch.RecordedBy? {
      FencingWithQuietRetries(cfg, states, acts, i, a.run);
      RecordedWasHeld(cfg, s, a);
    }
  }

  lemma RowStays(cfg: Config, s: Sys, a: Action, r: RunId)
    requires Inv(cfg, s) && Enabled(cfg, s, a) && Holds(s, r)
    ensures r.job in Next(cfg, s, a).rows
  {
    assert RunInv(cfg, s, r) && JobInv(s, r.job) && RowOk(cfg, s.rows[r.job]);
  }

  lemma RecordedWasHeld(cfg: Config, s: Sys, a: Action)
    requires Inv(cfg, s) && Enabled(cfg, s, a) && a.Record? && a.run.job in s.hist
    requires |Next(cfg, s, a).hist[a.run.job]| > |s.hist[a.run.job]|
    ensures Held(s.rows, s.runs[a.run].claimed)
  {
    assert RunInv(cfg, s, a.run);
  }

  // ------------------------------------------------------ mutual exclusion

  predicate RowEnded(s: Sys, id: JobId) {
    id !in s.rows || s.rows[id].status == Completed || s.rows[id].status == Failed
  }

  ghost predicate LatestClaim(s: Sys, r: RunId) {
    r.job in s.hist && forall k :: r.index < k < |s.hist[r.job]| ==> !s.hist[r.job][k].Took?
  }

  /** No claim came after the run's own: it holds its job, or its job has ended. */
  ghost predicate Guarded(s: Sys, r: RunId) {
    LatestClaim(s, r) && (Holds(s, r) || RowEnded(s, r.job))
  }

  /** A job that has ended is not claimed again without a manual retry. */
  lemma EndedStaysEnded(cfg: Config, s: Sys, a: Action, id: JobId)
    requires Inv(cfg, s) && Enabled(cfg, s, a) && id in s.hist && RowEnded(s, id)
    requires a == Retry(id) ==> !CanRetry(s, id)
    ensures id in Next(cfg, s, a).hist && Next(cfg, s, a).hist[id] == s.hist[id] && RowEnded(Next(cfg, s, a), id)
  {
    if id in s.rows && id in Next(cfg, s, a).rows {
      assert RowOk(cfg, s.rows[id]);
      var ch := StepIsJobStep(cfg, s, a, id);
    } else {
      NoRowNoEvent(cfg, s, a, id);
    }
  }

  lemma FinalOutcomeEnds(cfg: Config, row: Job, run: Run, now: int)
    requires run.phase.Settling? && ForGood(cfg, run) && run.claimed.queue in cfg.policies
    ensures FinishJob(cfg, row, run.claimed, run.phase.outcome, now).status in {Completed, Failed}
  {
  }

  /** What a step does to a job held by a live run: it leaves it held, or records an outcome that ends the job for good. */
  lemma HeldOrEnded(cfg: Config, states: seq<Sys>, acts: seq<Action>, i: nat, r: RunId)
    requires Execution(cfg, states, acts) && i < |acts| && Harmless(cfg, states, acts, i, r.job)
    requires Holds(states[i], r) && Live(states[i], r) && Live(states[i + 1], r) && !Stale(cfg, states[i].rows[r.job], states[i].now)
    ensures Guarded(states[i + 1], r)
  {
    var s, a := states[i], acts[i];
    assert Enabled(cfg, s, a) && states[i + 1] == Next(cfg, s, a);
    InvAlways(cfg, states, acts, i);
    InvAlways(cfg, states, acts, i + 1);
    assert RunInv(cfg, s, r) && JobInv(s, r.job);
    RowStays(cfg, s, a, r);
    var ch := StepIsJobStep(cfg, s, a, r.job);
    if ch.RecordedBy? {
      assert RunInv(cfg, s, a.run);
      RecordedWasHeld(cfg, s, a);
      if ForGood(cfg, s.runs[a.run]) {
        FinalOutcomeEnds(cfg, s.rows[r.job], s.runs[a.run], s.now);
      } else {
        HarmlessMeansCurrent(cfg, states, acts, i, a.run);
        FencingSinceRetry(cfg, states, acts, i, a.run);
      }
    }
  }

  /** An execution whose heartbeats land often enough for its stale window. */
  ghost predicate Punctual(cfg: Config, states: seq<Sys>, acts: seq<Action>, every: nat, lateMs: nat) {
    && Execution(cfg, states, acts) && OnTime(cfg, states, acts, every, lateMs)
    && every * HeartbeatMs(cfg.staleLockMs) + lateMs <= cfg.staleLockMs
  }

  lemma GuardedStep(cfg: Config, states: seq<Sys>, acts: seq<Action>, every: nat, lateMs: nat, i: nat, r: RunId)
    requires Punctual(cfg, states, acts, every, lateMs) == true
    requires i < |acts| && (Harmless(cfg, states, acts, i + 1, r.job) == true)
    requires Live(states[i + 1], r) && (Live(states[i], r) ==> Guarded(states[i], r))
    ensures Guarded(states[i + 1], r)
  {
    assert Enabled(cfg, states[i], acts[i]) && states[i + 1] == Next(cfg, states[i], acts[i]);
    InvAlways(cfg, states, acts, i);
    if r !in states[i].runs {
      JustClaimedHolds(cfg, states[i], acts[i], r);
      return;
    }
    LiveBefore(cfg, states[i], acts[i], r);
    if Holds(states[i], r) {
      LockIsYoung(cfg, states, acts, every, lateMs, i, r);
      HeldOrEnded(cfg, states, acts, i, r);
    } else {
      assert acts[i] == Retry(r.job) && CanRetry(states[i], r.job) ==> AllForGood(cfg, states[i], r.job);
      EndedStaysEnded(cfg, states[i], acts[i], r.job);
    }
  }

  lemma HarmlessBefore(cfg: Config, states: seq<Sys>, acts: seq<Action>, i: nat, id: JobId)
    requires 0 < i <= |acts| && i < |states| && Harmless(cfg, states, acts, i, id)
    ensures Harmless(cfg, states, acts, i - 1, id)
  {
  }

  lemma NotAtFirst(cfg: Config, states: seq<Sys>, acts: seq<Action>, every: nat, lateMs: nat, i: nat, r: RunId)
    requires Punctual(cfg, states, acts, every, lateMs) == true
    requires i < |states| && Live(states[i], r)
    ensures 0 < i <= |acts|
  {
    NoneAtFirst(cfg, states, acts, r);
  }

  // compared with true so that the verifier keeps them whole
  lemma {:induction false} LiveRunsAreGuarded(cfg: Config, states: seq<Sys>, acts: seq<Action>, every: nat, lateMs: nat, i: nat, r: RunId)
    requires Punctual(cfg, states, acts, every, lateMs) == true
    requires i < |states| && Live(states[i], r) && (Harmless(cfg, states, acts, i, r.job) == true)
    ensures Guarded(states[i], r)
    decreases i
  {
    NotAtFirst(cfg, states, acts, every, lateMs, i, r);
    HarmlessBefore(cfg, states, acts, i, r.job);
    if Live(states[i - 1], r) { LiveRunsAreGuarded(cfg, states, acts, every, lateMs, i - 1, r); }
    GuardedStep(cfg, states, acts, every, lateMs, i - 1, r);
  }

  /**
   * Two handlers never run at once for one job, while heartbeats land on time and
   * manual retries of the job find each of its runs over or about to end it for good.
   */
  lemma MutualExclusion(cfg: Config, states: seq<Sys>, acts: seq<Action>, every: nat, lateMs: nat, i: nat, r: RunId, q: RunId)
    requires Execution(cfg, states, acts) && OnTime(cfg, states, acts, every, lateMs)
    requires every * HeartbeatMs(cfg.staleLockMs) + lateMs <= cfg.staleLockMs
    requires i < |states| && Live(states[i], r) && Live(states[i], q) && r.job == q.job
    requires Harmless(cfg, states, acts, i, r.job)
    ensures r == q
  {
    LiveRunsAreGuarded(cfg, states, acts, every, lateMs, i, r);
    LiveRunsAreGuarded(cfg, states, acts, every, lateMs, i, q);
    InvAlways(cfg, states, acts, i);
    assert RunInv(cfg, states[i], r) && RunInv(cfg, states[i], q);
  }

  /** With a stale window of at least 10 s: one punctual heartbeat in four is enough, or one in three a whole period late. */
  lemma MutualExclusionAsConfigured(cfg: Config, states: seq<Sys>, acts: seq<Action>, i: nat, r: RunId, q: RunId)
    requires Execution(cfg, states, acts) && cfg.staleLockMs >= 10000
    requires OnTime(cfg, states, acts, 4, 0) || OnTime(cfg, states, acts, 3, HeartbeatMs(cfg.staleLockMs))
    requires i < |states| && Live(states[i], r) && Harmless(cfg, states, acts, i, r.job)
    ensures Quiet(states, acts, i, r.job) ==> r.job in states[i].rows && !Stale(cfg, states[i].rows[r.job], states[i].now)
    ensures Live(states[i], q) && q.job == r.job ==> q == r
  {
    FourHeartbeatsFit(cfg.staleLockMs);
    var every, lateMs := 4, 0;
    if !OnTime(cfg, states, acts, 4, 0) {
      every, lateMs := 3, HeartbeatMs(cfg.staleLockMs);
    }
    if Quiet(states, acts, i, r.job) { LiveRunsHold(cfg, states, acts, every, lateMs, i, r); }
    if Live(states[i], q) && q.job == r.job {
      MutualExclusion(cfg, states, acts, every, lateMs, i, r, q);
    }
  }
}
