/**
 * Requests that carry one idempotency key (src/core/middleware/idempotency.js),
 * for one workspace and scope, while the key's row stays. Each read or write of
 * the row is one step; writes that are not awaited land in any order or are lost.
 */
module Idempotency {
  import opened Common

  type Hash = int

  datatype Response = Response(status: int, body: string)

  datatype Status = Processing | Completed(response: Response) | Failed

  datatype Row = Row(hash: Hash, status: Status)

  /** How a request ends that does not run the handler. */
  datatype Answer = Replayed(response: Response) | KeyReused | InProgress | Broken

  datatype Phase =
    | Inserting
    | Handling                 // the handler runs
    | Failing                  // it threw, and the status `failed` is being written
    | Reporting                // the error handler is to answer
    | Finished
    | Polling(left: nat)
    | Answered(answer: Answer)

  datatype Request = Request(hash: Hash, phase: Phase)

  const POLLS: nat := 10

  datatype State = State(
    row: Option<Row>,
    requests: map<nat, Request>,
    runs: seq<nat>,            // the requests that ran the handler
    offered: seq<Response>,    // every response given to the wrapped `res.json`
    sent: Option<Response>,    // the one the client of the running request got
    writes: seq<Response>)     // the writes on their way, each to store a response

  datatype Action =
    | Arrive(id: nat, hash: Hash)
    | Insert(id: nat)
    | InsertBreaks(id: nat, made: bool)          // the insert failed, or its result was lost
    | Answer(id: nat, response: Response)        // the handler's res.json
    | Throw(id: nat)
    | FailedWritten(id: nat, landed: bool)
    | Report(id: nat, response: Response)        // the error handler's res.json
    | Stop(id: nat)                              // returns, or its process dies
    | WriteEnds(index: nat, landed: bool)
    | Poll(id: nat)

  function Put(s: State, id: nat, phase: Phase): State
    requires id in s.requests
  {
    s.(requests := s.requests[id := s.requests[id].(phase := phase)])
  }

  /** What a request makes of the last row it read. */
  function Decide(row: Option<Row>, hash: Hash): Answer {
    if row.None? then InProgress
    else if row.value.hash != hash then KeyReused
    else match row.value.status
      case Completed(response) => Replayed(response)
      case _ => InProgress
  }

  predicate Settled(row: Option<Row>) { row.Some? && row.value.status != Processing }

  function PollOnce(found: Option<Row>, hash: Hash, left: nat): Phase
    requires left > 0
  {
    if Settled(found) || left == 1 then Answered(Decide(found, hash)) else Polling(left - 1)
  }

  predicate Enabled(s: State, a: Action) {
    match a
    case Arrive(id, _) => id !in s.requests
    case Insert(id) => id in s.requests && s.requests[id].phase == Inserting
    case InsertBreaks(id, made) => id in s.requests && s.requests[id].phase == Inserting && (made ==> s.row.None?)
    case Answer(id, _) => id in s.requests && s.requests[id].phase == Handling
    case Throw(id) => id in s.requests && s.requests[id].phase == Handling
    case FailedWritten(id, _) => id in s.requests && s.requests[id].phase == Failing
    case Report(id, _) => id in s.requests && s.requests[id].phase == Reporting
    case Stop(id) => id in s.requests && s.requests[id].phase in {Handling, Failing, Reporting}
    case WriteEnds(index, _) => index < |s.writes|
    case Poll(id) => id in s.requests && s.requests[id].phase.Polling? && s.requests[id].phase.left > 0
  }

  /** Each call of the wrapped `res.json` starts a write and sends the response, unless one was sent before. */
  function Offer(s: State, response: Response): State {
    s.(offered := s.offered + [response], writes := s.writes + [response],
       sent := if s.sent.Some? then s.sent else Some(response))
  }

  function WithStatus(row: Option<Row>, status: Status): Option<Row> {
    if row.None? then None else Some(row.value.(status := status))
  }

  function After(s: State, a: Action): State
    requires Enabled(s, a)
  {
    match a
    case Arrive(id, hash) => s.(requests := s.requests[id := Request(hash, Inserting)])
    case Insert(id) =>
      if s.row.Some? then Put(s, id, Polling(POLLS))
      else Put(s.(row := Some(Row(s.requests[id].hash, Processing)), runs := s.runs + [id]), id, Handling)
    case InsertBreaks(id, made) =>
      Put(if made then s.(row := Some(Row(s.requests[id].hash, Processing))) else s, id, Answered(Broken))
    case Answer(id, response) => Offer(s, response)
    case Throw(id) => Put(s, id, Failing)
    case FailedWritten(id, landed) =>
      Put(if landed then s.(row := WithStatus(s.row, Failed)) else s, id, Reporting)
    case Report(id, response) => Put(Offer(s, response), id, Finished)
    case Stop(id) => Put(s, id, Finished)
    case WriteEnds(index, landed) =>
      var rest := s.(writes := s.writes[..index] + s.writes[index + 1..]);
      if landed then rest.(row := WithStatus(s.row, Completed(s.writes[index]))) else rest
    case Poll(id) =>
      Put(s, id, PollOnce(s.row, s.requests[id].hash, s.requests[id].phase.left))
  }

  const START := State(None, map[], [], [], None, [])

  predicate Execution(states: seq<State>, actions: seq<Action>) {
    && |states| == |actions| + 1 && states[0] == START
    && forall i :: 0 <= i < |actions| ==> Enabled(states[i], actions[i]) && states[i + 1] == After(states[i], actions[i])
  }

  // ------------------------------------------------------------ invariant

  predicate IsRunner(p: Phase) { p == Handling || p == Failing || p == Reporting }

  predicate RequestOk(s: State, id: nat)
    requires id in s.requests
  {
    var r := s.requests[id];
    && (IsRunner(r.phase) ==> s.runs == [id])
    && (r.phase.Polling? ==> 0 < r.phase.left <= POLLS && s.row.Some?)
    && (r.phase.Answered? && r.phase.answer.Replayed? ==>
          s.row.Some? && s.row.value.hash == r.hash && r.phase.answer.response in s.offered)
    && (r.phase == Answered(KeyReused) ==> s.row.Some? && s.row.value.hash != r.hash)
    && (r.phase == Answered(InProgress) ==> s.row.Some? && s.row.value.hash == r.hash)
  }

  ghost predicate Inv(s: State) {
    && |s.runs| <= 1 && (s.runs != [] ==> s.row.Some? && s.runs[0] in s.requests && s.requests[s.runs[0]].hash == s.row.value.hash)
    && (s.offered != [] ==> s.runs != [])
    && s.sent == (if s.offered == [] then None else Some(s.offered[0]))
    && (forall i :: 0 <= i < |s.writes| ==> s.writes[i] in s.offered)
    && (s.row.Some? && s.row.value.status.Completed? ==> s.row.value.status.response in s.offered)
    && forall id {:trigger RequestOk(s, id)} :: id in s.requests ==> RequestOk(s, id)
  }

  lemma RequestStaysOk(s: State, a: Action, id: nat)
    requires Inv(s) && Enabled(s, a) && id in After(s, a).requests
    ensures RequestOk(After(s, a), id)
  {
    if id in s.requests { assert RequestOk(s, id); }
  }

  lemma StepKeepsInv(s: State, a: Action)
    requires Inv(s) && Enabled(s, a)
    ensures Inv(After(s, a))
  {
    var t := After(s, a);
    if a.Answer? || a.Report? { assert RequestOk(s, a.id); }
    forall id | id in t.requests ensures RequestOk(t, id) {
      RequestStaysOk(s, a, id);
    }
    WritesStayOffered(s, a);
  }

  lemma WritesStayOffered(s: State, a: Action)
    requires Inv(s) && Enabled(s, a)
    ensures var t := After(s, a);
      && (forall i :: 0 <= i < |t.writes| ==> t.writes[i] in t.offered)
      && (t.row.Some? && t.row.value.status.Completed? ==> t.row.value.status.response in t.offered)
  {
  }

  lemma {:induction false} InvAlways(states: seq<State>, actions: seq<Action>)
    requires Execution(states, actions)
    ensures Inv(states[|actions|])
    decreases |actions|
  {
    if actions != [] {
      var n := |actions| - 1;
      InvAlways(states[..n + 1], actions[..n]);
      assert states[..n + 1][n] == states[n];
      StepKeepsInv(states[n], actions[n]);
    }
  }

  // -------------------------------------------------------------- theorems

  predicate GotReplay(s: State, id: nat, response: Response) {
    id in s.requests && s.requests[id].phase == Answered(Replayed(response))
  }

  /**
   * The handler runs at most once, and a replay is given only to a request with
   * the same body as the one that ran, and is one of the responses that one offered.
   */
  lemma RunsOnceAndReplaysItsOwn(states: seq<State>, actions: seq<Action>)
    requires Execution(states, actions)
    ensures var s := states[|actions|];
      && |s.runs| <= 1
      && forall id, response :: GotReplay(s, id, response) ==>
        |s.runs| == 1 && s.runs[0] in s.requests && s.requests[id].hash == s.requests[s.runs[0]].hash && response in s.offered
  {
    InvAlways(states, actions);
    var s := states[|actions|];
    forall id, response | GotReplay(s, id, response)
      ensures |s.runs| == 1 && s.runs[0] in s.requests && s.requests[id].hash == s.requests[s.runs[0]].hash && response in s.offered
    {
      assert RequestOk(s, id);
    }
  }

  /**
   * The answer to a request that polls, told by the row it reads: another body's
   * key is refused as reused, a stored response is replayed, and anything else
   * of its own body is in progress, at once when the run failed and after the last
   * poll when it goes on. The row is there, and the answer holds of it ever after.
   */
  lemma PollAnswers(states: seq<State>, actions: seq<Action>, i: nat, id: nat)
    requires Execution(states, actions) && i < |actions| && actions[i] == Poll(id)
    ensures id in states[i].requests && id in states[i + 1].requests && states[i].requests[id].phase.Polling? && states[i].row.Some?
    ensures var row, r, phase := states[i].row.value, states[i].requests[id], states[i + 1].requests[id].phase;
      && (phase.Polling? <==> row.status == Processing && r.phase.left > 1)
      && (phase == Answered(KeyReused) <==> !phase.Polling? && row.hash != r.hash)
      && (forall response :: phase == Answered(Replayed(response)) <==> row.hash == r.hash && row.status == Completed(response))
      && (phase == Answered(InProgress) <==> !phase.Polling? && row.hash == r.hash && !row.status.Completed?)
  {
    InvUpTo(states, actions, i);
    assert Enabled(states[i], actions[i]) && RequestOk(states[i], id);
  }

  lemma InvUpTo(states: seq<State>, actions: seq<Action>, i: nat)
    requires Execution(states, actions) && i < |states|
    ensures Inv(states[i])
  {
    InvAlways(states[..i + 1], actions[..i]);
    assert states[..i + 1][i] == states[i];
  }

  /** Requests are told apart by the body the key was first used with, in every reachable state. */
  lemma KeysAreForOneBody(states: seq<State>, actions: seq<Action>, id: nat, answer: Answer)
    requires Execution(states, actions) && id in states[|actions|].requests
    requires states[|actions|].requests[id].phase == Answered(answer) && answer != Broken
    ensures states[|actions|].row.Some?
    ensures answer == KeyReused <==> states[|actions|].requests[id].hash != states[|actions|].row.value.hash
  {
    InvAlways(states, actions);
    assert RequestOk(states[|actions|], id);
  }

  /** What is stored changes by the writes that land, and by nothing else. */
  lemma StoredByWrites(states: seq<State>, actions: seq<Action>, i: nat)
    requires Execution(states, actions) && i < |actions|
    ensures var s, t := states[i], states[i + 1];
      match actions[i]
      case WriteEnds(k, true) => k < |s.writes| && s.row.Some? && t.row == Some(s.row.value.(status := Completed(s.writes[k])))
      case FailedWritten(_, true) => s.row.Some? && t.row == Some(s.row.value.(status := Failed))
      case Insert(id) => id in s.requests && t.row == if s.row.Some? then s.row else Some(Row(s.requests[id].hash, Processing))
      case InsertBreaks(id, true) => id in s.requests && t.row == Some(Row(s.requests[id].hash, Processing))
      case _ => t.row == s.row
  {
    InvUpTo(states, actions, i);
    assert Enabled(states[i], actions[i]);
    if actions[i].FailedWritten? { assert RequestOk(states[i], actions[i].id); }
    if actions[i].WriteEnds? { assert states[i].writes[actions[i].index] in states[i].offered; }
  }

  /** If the request was answered by a replay, it is what the request that ran the handler was sent. */
  predicate Faithful(s: State, id: nat, response: Response) {
    GotReplay(s, id, response) ==> s.sent == Some(response)
  }

  /** However the steps of the requests interleave. */
  ghost predicate AlwaysFaithful(offered: seq<Response>) {
    forall states: seq<State>, actions: seq<Action>, id: nat, response: Response ::
      Execution(states, actions) && states[|actions|].offered == offered ==> Faithful(states[|actions|], id, response)
  }

  predicate AllAlike(offered: seq<Response>) { forall i :: 0 <= i < |offered| ==> offered[i] == offered[0] }

  lemma Extend(states: seq<State>, actions: seq<Action>, a: Action) returns (more: seq<State>)
    requires Execution(states, actions) && Enabled(states[|actions|], a)
    ensures more == states + [After(states[|actions|], a)] && Execution(more, actions + [a])
  {
    more := states + [After(states[|actions|], a)];
  }

  /** One request arrives, inserts the row and offers the responses, none of which is stored yet. */
  lemma {:induction false} OfferAll(offered: seq<Response>) returns (states: seq<State>, actions: seq<Action>)
    ensures Execution(states, actions)
    ensures states[|actions|] ==
      State(Some(Row(0, Processing)), map[0 := Request(0, Handling)], [0], offered, if offered == [] then None else Some(offered[0]), offered)
  {
    if offered == [] {
      states, actions := [START], [];
      states := Extend(states, actions, Arrive(0, 0));
      actions := [Arrive(0, 0)];
      states := Extend(states, actions, Insert(0));
      actions := actions + [Insert(0)];
    } else {
      var n := |offered| - 1;
      states, actions := OfferAll(offered[..n]);
      states := Extend(states, actions, Answer(0, offered[n]));
      actions := actions + [Answer(0, offered[n])];
      assert offered == offered[..n] + [offered[n]];
    }
  }

  /** Another response than the one sent can be what is stored, and so replayed. */
  lemma UnlikeOffersBreakReplay(offered: seq<Response>, k: nat)
    requires k < |offered| && offered[k] != offered[0]
    ensures !AlwaysFaithful(offered)
  {
    var states, actions := OfferAll(offered);
    states := Extend(states, actions, WriteEnds(k, true));
    actions := actions + [WriteEnds(k, true)];
    states := Extend(states, actions, Arrive(1, 0));
    actions := actions + [Arrive(1, 0)];
    states := Extend(states, actions, Insert(1));
    actions := actions + [Insert(1)];
    states := Extend(states, actions, Poll(1));
    actions := actions + [Poll(1)];
    assert !Faithful(states[|actions|], 1, offered[k]);
  }

  /** Replay is faithful on every interleaving exactly when the responses offered are all alike. */
  lemma ReplayIsFaithful(offered: seq<Response>)
    ensures AlwaysFaithful(offered) <==> AllAlike(offered)
  {
    if AllAlike(offered) {
      forall states: seq<State>, actions: seq<Action>, id: nat, response: Response
        | Execution(states, actions) && states[|actions|].offered == offered
        ensures Faithful(states[|actions|], id, response)
      {
        RunsOnceAndReplaysItsOwn(states, actions);
        InvAlways(states, actions);
      }
    } else {
      var k :| 0 <= k < |offered| && offered[k] != offered[0];
      UnlikeOffersBreakReplay(offered, k);
    }
  }

  /** The handler answers once at most, and does not throw once it has. */
  predicate Tidy(actions: seq<Action>) {
    forall i, j :: 0 <= i < j < |actions| && actions[i].Answer? ==> !actions[j].Answer? && !actions[j].Throw?
  }

  predicate HasAnswered(actions: seq<Action>) { exists i :: 0 <= i < |actions| && actions[i].Answer? }

  lemma {:induction false} TidyOffersOnce(states: seq<State>, actions: seq<Action>)
    requires Execution(states, actions) && Tidy(actions)
    ensures var s := states[|actions|];
      && |s.offered| <= 1
      && (forall id :: id in s.requests && s.requests[id].phase in {Failing, Reporting} ==> s.offered == [])
      && (forall id :: id in s.requests && s.requests[id].phase == Handling && s.offered != [] ==> HasAnswered(actions))
    decreases |actions|
  {
    if actions != [] {
      var n := |actions| - 1;
      var before, a := states[..n + 1], actions[n];
      TidyOffersOnce(before, actions[..n]);
      InvAlways(before, actions[..n]);
      assert before[n] == states[n];
      TidyStep(states[n], a, actions[..n]);
      assert actions[..n] + [a] == actions;
    }
  }

  lemma TidyStep(s: State, a: Action, earlier: seq<Action>)
    requires Inv(s) && Enabled(s, a) && Tidy(earlier + [a]) && |s.offered| <= 1
    requires forall id :: id in s.requests && s.requests[id].phase in {Failing, Reporting} ==> s.offered == []
    requires forall id :: id in s.requests && s.requests[id].phase == Handling && s.offered != [] ==> HasAnswered(earlier)
    ensures var t := After(s, a);
      && |t.offered| <= 1
      && (forall id :: id in t.requests && t.requests[id].phase in {Failing, Reporting} ==> t.offered == [])
      && (forall id :: id in t.requests && t.requests[id].phase == Handling && t.offered != [] ==> HasAnswered(earlier + [a]))
  {
    var t, all := After(s, a), earlier + [a];
    if HasAnswered(earlier) {
      var i :| 0 <= i < |earlier| && earlier[i].Answer?;
      assert all[i].Answer? && all[|earlier|] == a;
    }
    if a.Answer? { assert all[|earlier|].Answer?; }
    forall id | id in t.requests ensures id in s.requests ==> RequestOk(s, id) {
    }
    if a.Answer? || a.Report? || a.Throw? { assert RequestOk(s, a.id); }
  }

  /** With a tidy handler every replay, of an error answer too, is what the running request was sent. */
  lemma TidyHandlersReplayFaithfully(states: seq<State>, actions: seq<Action>, id: nat, response: Response)
    requires Execution(states, actions) && Tidy(actions)
    ensures Faithful(states[|actions|], id, response)
  {
    TidyOffersOnce(states, actions);
    ReplayIsFaithful(states[|actions|].offered);
  }

  // ------------------------------------------------------------ the polling

  /** Where a polling request stands after these reads of the row. */
  function PollAll(found: seq<Option<Row>>, hash: Hash, left: nat): Phase {
    if found == [] || left == 0 then Polling(left)
    else
      match PollOnce(found[0], hash, left)
      case Polling(fewer) => PollAll(found[1..], hash, fewer)
      case done => done
  }

  lemma {:induction false} KeepPolling(found: seq<Option<Row>>, next: Option<Row>, hash: Hash, left: nat)
    requires |found| < left && PollAll(found, hash, left) == Polling(left - |found|)
    ensures PollAll(found + [next], hash, left) == PollOnce(next, hash, left - |found|)
  {
    if found != [] {
      assert PollOnce(found[0], hash, left) == Polling(left - 1);
      assert (found + [next])[1..] == found[1..] + [next];
      KeepPolling(found[1..], next, hash, left - 1);
    }
  }

  /** `found` is what the reads of the row would return, one after another; `hash` is the polling request's. */
  method PollForCompletion(found: seq<Option<Row>>, attempts: nat, ghost hash: Hash) returns (existing: Option<Row>, rounds: nat)
    requires 0 < attempts <= |found|
    ensures 0 < rounds <= attempts && existing == found[rounds - 1]
    ensures rounds < attempts ==> existing.Some? && existing.value.status != Processing
    ensures forall i :: 0 <= i < rounds - 1 ==> found[i].None? || found[i].value.status == Processing
    ensures PollAll(found[..rounds], hash, attempts) == Answered(Decide(existing, hash))
  {
    existing, rounds := None, 0;
    for i := 0 to attempts
      invariant rounds == i && forall k :: 0 <= k < i ==> !Settled(found[k])
      invariant i < attempts && PollAll(found[..i], hash, attempts) == Polling(attempts - i)
    {
      var row := found[i];
      rounds := i + 1;
      assert found[..i] + [row] == found[..i + 1];
      KeepPolling(found[..i], row, hash, attempts);
      if row.Some? && row.value.status != Processing { return row, rounds; }
      if i == attempts - 1 { return row, rounds; }
    }
  }
}
