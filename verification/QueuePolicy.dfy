/**
 * The retry policy of each queue (src/core/queue/queues.js).
 * `delays[i]` is the wait before attempt i + 2; a job is tried |delays| + 1 times.
 */
module QueuePolicy {
  import opened Common

  datatype Policy = Policy(delays: seq<nat>, stopOnClientError: bool)

  /** What a handler threw: only the fields the queue looks at. */
  datatype JobError = JobError(permanent: bool, status: Option<int>, message: string)

  const SECOND := 1000
  const MINUTE := 60 * SECOND
  const HOUR := 60 * MINUTE

  function Pow2(n: nat): nat {
    if n == 0 then 1 else 2 * Pow2(n - 1)
  }

  function Exponential(retries: nat, baseMs: nat): seq<nat> {
    seq(retries, i requires 0 <= i < retries => baseMs * Pow2(i))
  }

  /** The queues and their policies. A queue that is not a key is the unknown queue `policyFor` throws on. */
  const QUEUES: map<string, Policy> := map[
    "events" := Policy(Exponential(4, 5 * SECOND), false),
    "notifications" := Policy(Exponential(4, 15 * SECOND), true),
    "pixels" := Policy(Exponential(2, 30 * SECOND), false),
    "webhooks" := Policy([MINUTE, 5 * MINUTE, 30 * MINUTE, 2 * HOUR, 6 * HOUR, 24 * HOUR], false),
    "carriers" := Policy(Exponential(4, 30 * SECOND), false),
    "io" := Policy([], false),
    "ai" := Policy([30 * SECOND], false),
    "default" := Policy(Exponential(2, 10 * SECOND), false)
  ]

  /** The waits in ms, and which queue gives up on a client error. */
  lemma ConfiguredDelays()
    ensures QUEUES.Keys == {"events", "notifications", "pixels", "webhooks", "carriers", "io", "ai", "default"}
    ensures QUEUES["events"].delays == [5000, 10000, 20000, 40000]
    ensures QUEUES["notifications"].delays == [15000, 30000, 60000, 120000]
    ensures QUEUES["pixels"].delays == [30000, 60000]
    ensures QUEUES["webhooks"].delays == [60000, 300000, 1800000, 7200000, 21600000, 86400000]
    ensures QUEUES["carriers"].delays == [30000, 60000, 120000, 240000]
    ensures QUEUES["io"].delays == [] && QUEUES["ai"].delays == [30000] && QUEUES["default"].delays == [10000, 20000]
    ensures forall queue :: queue in QUEUES ==> (QUEUES[queue].stopOnClientError <==> queue == "notifications")
  {
    assert Pow2(0) == 1 && Pow2(1) == 2 && Pow2(2) == 4 && Pow2(3) == 8;
  }

  function IsPermanent(policy: Policy, err: JobError): bool {
    err.permanent ||
    (policy.stopOnClientError && err.status.Some? && 400 <= err.status.value < 500
     && err.status.value != 429 && err.status.value != 408)
  }

  /** The wait `finish` picks, with both of its fallbacks. */
  function RetryDelay(delays: seq<nat>, attempts: int): nat {
    if 1 <= attempts <= |delays| then delays[attempts - 1]
    else if |delays| > 0 then delays[|delays| - 1]
    else 0
  }

  function Sum(s: seq<nat>): nat {
    if s == [] then 0 else Sum(s[..|s| - 1]) + s[|s| - 1]
  }

  /** An exponential queue's first n waits add up to base * (2^n - 1). */
  lemma {:induction false} ExponentialSum(retries: nat, baseMs: nat, n: nat)
    requires n <= retries
    ensures Sum(Exponential(retries, baseMs)[..n]) == baseMs * (Pow2(n) - 1)
  {
    if n == 0 {
      assert Exponential(retries, baseMs)[..0] == [];
    } else {
      var d := Exponential(retries, baseMs);
      assert d[..n][..n - 1] == d[..n - 1];
      ExponentialSum(retries, baseMs, n - 1);
      calc {
        Sum(d[..n]);
        Sum(d[..n - 1]) + d[n - 1];
        baseMs * (Pow2(n - 1) - 1) + baseMs * Pow2(n - 1);
        baseMs * (2 * Pow2(n - 1) - 1);
        baseMs * (Pow2(n) - 1);
      }
    }
  }

  lemma SumPrefixStep(s: seq<nat>, n: nat)
    requires n < |s|
    ensures Sum(s[..n + 1]) == Sum(s[..n]) + s[n]
  {
    assert s[..n + 1][..n] == s[..n];
  }
}
