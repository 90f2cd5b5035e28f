/**
 * Whether a session still stands (src/core/security/sessionGate.js): the walk
 * along its refreshes, and the answers a server keeps for a while.
 */
module SessionGate {
  import opened Common

  type Id = nat

  datatype Session = Session(revoked: bool, expiresAt: int, rotatedTo: Option<Id>)

  type Db = map<Id, Session>

  const MAX_CHAIN: nat := 50

  const CACHE_MS: int := 10000

  const CACHE_MAX: nat := 10000

  // ------------------------------------------------------------- the table

  /** What happens to sessions: sign-in, refresh, and every way of ending some. */
  datatype Change =
    | SignIn(id: Id, expiresAt: int)
    | Refresh(id: Id, successor: Id, expiresAt: int)
    | End(ids: set<Id>)

  /** New ids are fresh; of two refreshes of one session only the first finds it live. */
  predicate Possible(db: Db, c: Change) {
    match c
    case SignIn(id, _) => id !in db
    case Refresh(id, successor, _) => id in db && !db[id].revoked && successor !in db
    case End(ids) => true
  }

  function Apply(db: Db, c: Change): Db {
    match c
    case SignIn(id, expiresAt) => db[id := Session(false, expiresAt, None)]
    case Refresh(id, successor, expiresAt) =>
      if id in db then
        db[id := db[id].(revoked := true, rotatedTo := Some(successor))][successor := Session(false, expiresAt, None)]
      else db
    case End(ids) => map id | id in db :: if id in ids then db[id].(revoked := true) else db[id]
  }

  predicate SessionOk(db: Db, id: Id)
    requires id in db
  {
    db[id].rotatedTo.Some? ==> db[id].revoked && db[id].rotatedTo.value in db
  }

  ghost predicate DbOk(db: Db) { forall id {:trigger SessionOk(db, id)} :: id in db ==> SessionOk(db, id) }

  lemma ChangesKeepDbOk(db: Db, c: Change)
    requires DbOk(db) && Possible(db, c)
    ensures DbOk(Apply(db, c))
  {
    var after := Apply(db, c);
    forall id | id in after ensures SessionOk(after, id) {
      if id in db { assert SessionOk(db, id); }
    }
  }

  // ------------------------------------------------------------- the walk

  /** The deepest row of the recursive query, from the row `id` at this depth. */
  function Walk(db: Db, id: Id, depth: nat): Id
    requires id in db && 1 <= depth <= MAX_CHAIN
    decreases MAX_CHAIN - depth
  {
    if db[id].revoked && depth < MAX_CHAIN && db[id].rotatedTo.Some? && db[id].rotatedTo.value in db
    then Walk(db, db[id].rotatedTo.value, depth + 1)
    else id
  }

  predicate Live(db: Db, id: Id, now: int) { id in db && !db[id].revoked && db[id].expiresAt > now }

  /** `currentSessionId`: the live end of the chain, if there is one. */
  function CurrentSession(db: Db, sid: Id, now: int): Option<Id> {
    if sid in db && Live(db, Walk(db, sid, 1), now) then Some(Walk(db, sid, 1)) else None
  }

  /** What the query of `isActive` answers. */
  predicate Accepts(db: Db, sid: Id, now: int) { CurrentSession(db, sid, now).Some? }

  /** The session after `k` rotations. */
  function Follow(db: Db, id: Id, k: nat): Option<Id>
    decreases k
  {
    if id !in db then None
    else if k == 0 then Some(id)
    else if db[id].rotatedTo.None? then None
    else Follow(db, db[id].rotatedTo.value, k - 1)
  }

  ghost predicate LeadsTo(db: Db, sid: Id, k: nat, end: Id) {
    Follow(db, sid, k) == Some(end) && end in db && !db[end].revoked
  }

  lemma {:induction false} WalkFindsEnd(db: Db, sid: Id, depth: nat, k: nat, end: Id)
    requires DbOk(db) && 1 <= depth && depth + k <= MAX_CHAIN && LeadsTo(db, sid, k, end)
    ensures sid in db && Walk(db, sid, depth) == end
    decreases k
  {
    assert SessionOk(db, sid);
    if k > 0 { WalkFindsEnd(db, db[sid].rotatedTo.value, depth + 1, k - 1, end); }
  }

  lemma {:induction false} WalkFollows(db: Db, sid: Id, depth: nat) returns (k: nat)
    requires DbOk(db) && sid in db && 1 <= depth <= MAX_CHAIN
    ensures depth + k <= MAX_CHAIN && Follow(db, sid, k) == Some(Walk(db, sid, depth))
    decreases MAX_CHAIN - depth
  {
    assert SessionOk(db, sid);
    if depth < MAX_CHAIN && db[sid].rotatedTo.Some? {
      k := WalkFollows(db, db[sid].rotatedTo.value, depth + 1);
      k := k + 1;
    } else {
      k := 0;
    }
  }

  /** The database accepts a session exactly when 49 rotations at most lead to one that is neither revoked nor expired. */
  lemma AcceptsExactly(db: Db, sid: Id, now: int)
    requires DbOk(db)
    ensures Accepts(db, sid, now) <==> exists k: nat, end: Id :: k < 50 && LeadsTo(db, sid, k, end) && db[end].expiresAt > now
    ensures forall k: nat, end: Id :: LeadsTo(db, sid, k, end) && Accepts(db, sid, now) ==> CurrentSession(db, sid, now) == Some(end)
  {
    if Accepts(db, sid, now) {
      var k := WalkFollows(db, sid, 1);
      assert LeadsTo(db, sid, k, Walk(db, sid, 1));
      forall m: nat, end: Id | LeadsTo(db, sid, m, end) ensures end == Walk(db, sid, 1) {
        OneEnd(db, sid, k, Walk(db, sid, 1), m, end);
      }
    }
    forall k: nat, end: Id | k < MAX_CHAIN && LeadsTo(db, sid, k, end) && Live(db, end, now) ensures Accepts(db, sid, now) {
      WalkFindsEnd(db, sid, 1, k, end);
    }
  }

  lemma {:induction false} OneEnd(db: Db, sid: Id, k: nat, end: Id, m: nat, other: Id)
    requires DbOk(db) && LeadsTo(db, sid, k, end) && LeadsTo(db, sid, m, other)
    ensures k == m && end == other
    decreases k
  {
    assert SessionOk(db, sid);
    if k > 0 && m > 0 { OneEnd(db, db[sid].rotatedTo.value, k - 1, end, m - 1, other); }
  }

  // -------------------------------------------------- what changes change

  /** The chain of `sid` ends in a session ended on purpose. */
  ghost predicate Dead(db: Db, sid: Id) {
    exists k: nat, end: Id :: Follow(db, sid, k) == Some(end) && end in db && db[end].revoked && db[end].rotatedTo.None?
  }

  lemma {:induction false} FollowStays(db: Db, c: Change, sid: Id, k: nat)
    requires DbOk(db) && Possible(db, c) && Follow(db, sid, k).Some?
    ensures Follow(Apply(db, c), sid, k) == Follow(db, sid, k)
    decreases k
  {
    assert SessionOk(db, sid);
    if k > 0 { FollowStays(db, c, db[sid].rotatedTo.value, k - 1); }
  }

  lemma {:induction false} FollowEnds(db: Db, sid: Id, k: nat)
    ensures Follow(db, sid, k).Some? ==> Follow(db, sid, k).value in db
    decreases k
  {
    if sid in db && k > 0 && db[sid].rotatedTo.Some? { FollowEnds(db, db[sid].rotatedTo.value, k - 1); }
  }

  lemma DeadStaysDead(db: Db, c: Change, sid: Id)
    requires DbOk(db) && Possible(db, c) && Dead(db, sid)
    ensures Dead(Apply(db, c), sid)
  {
    var k: nat, end: Id :| Follow(db, sid, k) == Some(end) && end in db && db[end].revoked && db[end].rotatedTo.None?;
    FollowStays(db, c, sid, k);
    assert Follow(Apply(db, c), sid, k) == Some(end);
  }

  lemma {:induction false} DeadHasNoEnd(db: Db, sid: Id, k: nat, dead: Id, m: nat, live: Id)
    requires DbOk(db) && Follow(db, sid, k) == Some(dead) && dead in db && db[dead].revoked && db[dead].rotatedTo.None?
    ensures !LeadsTo(db, sid, m, live)
    decreases k
  {
    assert SessionOk(db, sid);
    if k > 0 && m > 0 { DeadHasNoEnd(db, db[sid].rotatedTo.value, k - 1, dead, m - 1, live); }
  }

  lemma DeadIsRefused(db: Db, sid: Id, now: int)
    requires DbOk(db) && Dead(db, sid)
    ensures !Accepts(db, sid, now)
  {
    var k: nat, end: Id :| Follow(db, sid, k) == Some(end) && end in db && db[end].revoked && db[end].rotatedTo.None?;
    if Accepts(db, sid, now) {
      var m := WalkFollows(db, sid, 1);
      DeadHasNoEnd(db, sid, k, end, m, Walk(db, sid, 1));
    }
  }

  /** Ending the live end of a chain ends the whole chain, however long it is. */
  lemma EndingTheEndKillsTheChain(db: Db, ids: set<Id>, sid: Id, k: nat, end: Id)
    requires DbOk(db) && LeadsTo(db, sid, k, end) && end in ids
    ensures Dead(Apply(db, End(ids)), sid)
  {
    FollowStays(db, End(ids), sid, k);
    assert SessionOk(db, end);
    assert Follow(Apply(db, End(ids)), sid, k) == Some(end);
  }

  /** Ending sessions refuses those whose chain ends in one of them, and no others: endOtherSessions spares the one asking. */
  lemma EndCutsExactly(db: Db, ids: set<Id>, sid: Id, now: int)
    requires DbOk(db)
    ensures CurrentSession(Apply(db, End(ids)), sid, now) ==
      if Accepts(db, sid, now) && CurrentSession(db, sid, now).value in ids then None else CurrentSession(db, sid, now)
  {
    var after := Apply(db, End(ids));
    ChangesKeepDbOk(db, End(ids));
    if Accepts(db, sid, now) {
      var k := WalkFollows(db, sid, 1);
      var end := Walk(db, sid, 1);
      if end in ids {
        EndingTheEndKillsTheChain(db, ids, sid, k, end);
        DeadIsRefused(after, sid, now);
      } else {
        FollowStays(db, End(ids), sid, k);
        WalkFindsEnd(after, sid, 1, k, end);
      }
    } else if Accepts(after, sid, now) {
      var k := WalkFollows(after, sid, 1);
      SameLinks(db, ids, sid, k);
      WalkFindsEnd(db, sid, 1, k, Walk(after, sid, 1));
    }
  }

  lemma {:induction false} SameLinks(db: Db, ids: set<Id>, sid: Id, k: nat)
    ensures Follow(Apply(db, End(ids)), sid, k) == Follow(db, sid, k)
    decreases k
  {
    if sid in db && k > 0 && db[sid].rotatedTo.Some? { SameLinks(db, ids, db[sid].rotatedTo.value, k - 1); }
  }

  lemma {:induction false} FollowPlusOne(db: Db, sid: Id, k: nat, end: Id, next: Id)
    requires Follow(db, sid, k) == Some(end) && end in db && db[end].rotatedTo == Some(next) && next in db
    ensures Follow(db, sid, k + 1) == Some(next)
    decreases k
  {
    if k > 0 { FollowPlusOne(db, db[sid].rotatedTo.value, k - 1, end, next); }
  }

  /** Signing in makes a session good until it expires, and changes nothing for another one. */
  lemma SignInStandsAlone(db: Db, id: Id, expiresAt: int, sid: Id, now: int)
    requires DbOk(db) && Possible(db, SignIn(id, expiresAt))
    ensures Accepts(Apply(db, SignIn(id, expiresAt)), sid, now) <==> if sid == id then expiresAt > now else Accepts(db, sid, now)
  {
    var after := Apply(db, SignIn(id, expiresAt));
    if sid != id && sid in db { WalkStays(db, SignIn(id, expiresAt), sid, 1); }
  }

  lemma {:induction false} WalkStays(db: Db, c: Change, sid: Id, depth: nat)
    requires DbOk(db) && Possible(db, c) && c.SignIn? && sid in db && 1 <= depth <= MAX_CHAIN
    ensures sid in Apply(db, c) && Walk(Apply(db, c), sid, depth) == Walk(db, sid, depth) && Walk(db, sid, depth) in db
    decreases MAX_CHAIN - depth
  {
    assert SessionOk(db, sid);
    if depth < MAX_CHAIN && db[sid].rotatedTo.Some? { WalkStays(db, c, db[sid].rotatedTo.value, depth + 1); }
  }

  /** A refresh keeps the older tokens of the chain good, up to the 49th rotation. */
  lemma RefreshKeepsTheChain(db: Db, sid: Id, k: nat, end: Id, successor: Id, expiresAt: int, now: int)
    requires DbOk(db) && LeadsTo(db, sid, k, end) && Possible(db, Refresh(end, successor, expiresAt))
    ensures Accepts(Apply(db, Refresh(end, successor, expiresAt)), sid, now) <==> k + 1 < 50 && expiresAt > now
  {
    var c := Refresh(end, successor, expiresAt);
    var after := Apply(db, c);
    ChangesKeepDbOk(db, c);
    FollowStays(db, c, sid, k);
    FollowPlusOne(after, sid, k, end, successor);
    assert LeadsTo(after, sid, k + 1, successor);
    AcceptsExactly(after, sid, now);
    if Accepts(after, sid, now) {
      var m: nat, e: Id :| m < MAX_CHAIN && LeadsTo(after, sid, m, e) && Live(after, e, now);
      OneEnd(after, sid, k + 1, successor, m, e);
    }
  }

  // ------------------------------------------------------------ the cache

  /** An answer kept until `until`; `asOf`, when the database gave it, is there for the statements alone. */
  datatype Entry = Entry(sid: Id, active: bool, until: int, asOf: int)

  function IndexOf(cache: seq<Entry>, sid: Id): (i: nat)
    ensures i <= |cache| && (i < |cache| ==> cache[i].sid == sid)
    ensures forall j :: 0 <= j < i ==> cache[j].sid != sid
  {
    if cache == [] || cache[0].sid == sid then 0 else 1 + IndexOf(cache[1..], sid)
  }

  /** The answer the cache still gives for `sid`. */
  function Found(cache: seq<Entry>, sid: Id, now: int): Option<bool> {
    var i := IndexOf(cache, sid);
    if i < |cache| && cache[i].until > now then Some(cache[i].active) else None
  }

  /** `Map.set`: a key that is there keeps its place, a new one goes last. */
  function Set(cache: seq<Entry>, e: Entry): seq<Entry> {
    var i := IndexOf(cache, e.sid);
    if i < |cache| then cache[i := e] else cache + [e]
  }

  /** A full cache first drops the entry that went in first. */
  function Stored(cache: seq<Entry>, e: Entry): seq<Entry> {
    Set(if |cache| >= CACHE_MAX then cache[1..] else cache, e)
  }

  ghost predicate CacheOk(cache: seq<Entry>) {
    |cache| <= CACHE_MAX && forall i, j :: 0 <= i < j < |cache| ==> cache[i].sid != cache[j].sid
  }

  /** The cache answers with the one entry of the session, while it lasts. */
  lemma FoundExactly(cache: seq<Entry>, sid: Id, now: int, active: bool)
    requires CacheOk(cache)
    ensures Found(cache, sid, now) == Some(active) <==> exists i :: 0 <= i < |cache| && cache[i].sid == sid && cache[i].active == active && now < cache[i].until
  {
    var i := IndexOf(cache, sid);
    if k :| 0 <= k < |cache| && cache[k].sid == sid { assert k == i; }
  }

  /** All that was kept for other sessions is kept, in its place, but the one entry a full cache drops: the oldest. */
  lemma StoringKeepsOthers(cache: seq<Entry>, e: Entry, i: nat)
    requires CacheOk(cache) && i < |cache| && cache[i].sid != e.sid
    ensures var dropped := if |cache| == CACHE_MAX then 1 else 0;
      i >= dropped ==> i - dropped < |Stored(cache, e)| && Stored(cache, e)[i - dropped] == cache[i]
    ensures |cache| == CACHE_MAX && i == 0 ==> cache[i] !in Stored(cache, e)
  {
    var room := if |cache| >= CACHE_MAX then cache[1..] else cache;
    var at := IndexOf(room, e.sid);
    if |cache| == CACHE_MAX && i == 0 {
      forall k | 0 <= k < |Stored(cache, e)| ensures Stored(cache, e)[k] != cache[0] {
        assert k < |room| ==> room[k] == cache[k + 1];
      }
    }
  }

  lemma StoringKeepsCacheOk(cache: seq<Entry>, e: Entry)
    requires CacheOk(cache)
    ensures CacheOk(Stored(cache, e))
    ensures forall now :: Found(Stored(cache, e), e.sid, now) == if e.until > now then Some(e.active) else None
  {
    var room := if |cache| >= CACHE_MAX then cache[1..] else cache;
    var i := IndexOf(room, e.sid);
    var now := Set(room, e);
    assert now[i] == e;
    assert forall j :: 0 <= j < i ==> now[j] == room[j];
    assert IndexOf(now, e.sid) == i;
  }

  class Gate {
    var cache: seq<Entry>

    ghost predicate Valid() reads this { CacheOk(cache) }

    constructor ()
      ensures Valid() && cache == []
    {
      cache := [];
    }

    /** `db` is the table as the query finds it; its result is back at `back`. */
    method IsActive(sid: Option<Id>, db: Db, now: int, back: int) returns (active: bool)
      requires Valid()
      modifies this
      ensures Valid()
      ensures sid.None? ==> active && cache == old(cache)
      ensures sid.Some? && Found(old(cache), sid.value, now).Some? ==>
        active == Found(old(cache), sid.value, now).value && cache == old(cache)
      ensures sid.Some? && Found(old(cache), sid.value, now).None? ==>
        active == Accepts(db, sid.value, now) && cache == Stored(old(cache), Entry(sid.value, active, back + CACHE_MS, now))
    {
      if sid.None? { return true; }
      var hit := Found(cache, sid.value, now);
      if hit.Some? { return hit.value; }
      active := Accepts(db, sid.value, now);
      var entry := Entry(sid.value, active, back + CACHE_MS, now);
      StoringKeepsCacheOk(cache, entry);
      if |cache| >= CACHE_MAX { cache := cache[1..]; }
      cache := Set(cache, entry);
    }

    method ForgetAll()
      modifies this
      ensures Valid() && cache == []
    {
      cache := [];
    }
  }

  // ------------------------------------- one server beside the database

  datatype Read = Read(sid: Id, active: bool, asOf: int)

  datatype Answer = Answer(sid: Id, active: bool, at: int)

  datatype Server = Server(db: Db, clock: int, cache: seq<Entry>, queries: seq<Read>, given: seq<Answer>)

  /** Sessions change anywhere; this server reads, answers and forgets. */
  datatype Step =
    | Changes(change: Change)
    | Tick(ms: nat)
    | BeginRead(sid: Id)
    | EndRead(index: nat)
    | LoseRead(index: nat)
    | AnswerFromCache(sid: Id)
    | Forget

  /** No read of the database is still on its way `slowest` after the database answered it. */
  predicate CanTake(s: Server, step: Step, slowest: nat) {
    match step
    case Changes(change) => Possible(s.db, change)
    case Tick(ms) => forall i :: 0 <= i < |s.queries| ==> s.clock + ms <= s.queries[i].asOf + slowest
    case BeginRead(sid) => Found(s.cache, sid, s.clock).None?
    case EndRead(index) => index < |s.queries|
    case LoseRead(index) => index < |s.queries|
    case AnswerFromCache(sid) => Found(s.cache, sid, s.clock).Some?
    case Forget => true
  }

  function Without(queries: seq<Read>, index: nat): seq<Read>
    requires index < |queries|
  {
    queries[..index] + queries[index + 1..]
  }

  function Take(s: Server, step: Step, slowest: nat): Server
    requires CanTake(s, step, slowest)
  {
    match step
    case Changes(change) => s.(db := Apply(s.db, change))
    case Tick(ms) => s.(clock := s.clock + ms)
    case BeginRead(sid) => s.(queries := s.queries + [Read(sid, Accepts(s.db, sid, s.clock), s.clock)])
    case EndRead(index) =>
      var r := s.queries[index];
      s.(queries := Without(s.queries, index),
         cache := Stored(s.cache, Entry(r.sid, r.active, s.clock + CACHE_MS, r.asOf)),
         given := s.given + [Answer(r.sid, r.active, s.clock)])
    case LoseRead(index) => s.(queries := Without(s.queries, index))
    case AnswerFromCache(sid) => s.(given := s.given + [Answer(sid, Found(s.cache, sid, s.clock).value, s.clock)])
    case Forget => s.(cache := [])
  }

  predicate Steps(states: seq<Server>, steps: seq<Step>, slowest: nat) {
    && |states| == |steps| + 1
    && forall i :: 0 <= i < |steps| ==> CanTake(states[i], steps[i], slowest) && states[i + 1] == Take(states[i], steps[i], slowest)
  }

  const START := Server(map[], 0, [], [], [])

  // ------------------------------------------------------ answers are fresh

  /** A read that comes back is answered and kept for ten seconds, whatever it found. */
  lemma AnswersAreKept(s: Server, index: nat, slowest: nat, later: int)
    requires CacheOk(s.cache) && CanTake(s, EndRead(index), slowest)
    ensures var r, t := s.queries[index], Take(s, EndRead(index), slowest);
      && t.given == s.given + [Answer(r.sid, r.active, s.clock)]
      && Found(t.cache, r.sid, later) == if later < s.clock + 10000 then Some(r.active) else None
  {
    var r := s.queries[index];
    StoringKeepsCacheOk(s.cache, Entry(r.sid, r.active, s.clock + CACHE_MS, r.asOf));
  }

  /** The database gave this answer at `asOf`, in one of the states. */
  ghost predicate Given(states: seq<Server>, sid: Id, active: bool, asOf: int) {
    exists i :: 0 <= i < |states| && states[i].clock == asOf && Accepts(states[i].db, sid, asOf) == active
  }

  ghost predicate ReadOk(states: seq<Server>, clock: int, slowest: nat, r: Read) {
    Given(states, r.sid, r.active, r.asOf) && r.asOf <= clock <= r.asOf + slowest
  }

  ghost predicate EntryOk(states: seq<Server>, clock: int, slowest: nat, e: Entry) {
    Given(states, e.sid, e.active, e.asOf) && e.asOf <= clock && e.until <= e.asOf + slowest + CACHE_MS
  }

  /** The answer is what the database gave no later than it, and at most CACHE_MS and one read before. */
  ghost predicate Fresh(states: seq<Server>, slowest: nat, a: Answer) {
    exists asOf {:trigger Given(states, a.sid, a.active, asOf)} :: Given(states, a.sid, a.active, asOf) && asOf <= a.at <= asOf + slowest + CACHE_MS
  }

  ghost predicate ServerOk(states: seq<Server>, slowest: nat)
    requires states != []
  {
    var s := states[|states| - 1];
    && CacheOk(s.cache)
    && (forall i :: 0 <= i < |s.queries| ==> ReadOk(states, s.clock, slowest, s.queries[i]))
    && (forall i :: 0 <= i < |s.cache| ==> EntryOk(states, s.clock, slowest, s.cache[i]))
    && (forall i :: 0 <= i < |s.given| ==> Fresh(states, slowest, s.given[i]))
  }

  lemma GivenStays(states: seq<Server>, next: Server, sid: Id, active: bool, asOf: int)
    requires Given(states, sid, active, asOf)
    ensures Given(states + [next], sid, active, asOf)
  {
    var i :| 0 <= i < |states| && states[i].clock == asOf && Accepts(states[i].db, sid, asOf) == active;
    assert (states + [next])[i] == states[i];
  }

  lemma FreshStays(states: seq<Server>, next: Server, slowest: nat, a: Answer)
    requires Fresh(states, slowest, a)
    ensures Fresh(states + [next], slowest, a)
  {
    var asOf :| Given(states, a.sid, a.active, asOf) && asOf <= a.at <= asOf + slowest + CACHE_MS;
    GivenStays(states, next, a.sid, a.active, asOf);
  }

  lemma {:induction false} StoredMember(cache: seq<Entry>, e: Entry, i: nat)
    requires i < |Stored(cache, e)|
    ensures Stored(cache, e)[i] == e || Stored(cache, e)[i] in cache
  {
  }

  lemma QueriesStayOk(states: seq<Server>, step: Step, slowest: nat, i: nat)
    requires states != [] && ServerOk(states, slowest) && CanTake(states[|states| - 1], step, slowest)
    requires i < |Take(states[|states| - 1], step, slowest).queries|
    ensures var t := Take(states[|states| - 1], step, slowest);
      ReadOk(states + [t], t.clock, slowest, t.queries[i])
  {
    var s := states[|states| - 1];
    var t := Take(s, step, slowest);
    if step.BeginRead? && i == |s.queries| {
      assert (states + [t])[|states|] == t;
    } else {
      var j := if (step.EndRead? || step.LoseRead?) && i >= step.index then i + 1 else i;
      assert t.queries[i] == s.queries[j] && ReadOk(states, s.clock, slowest, s.queries[j]);
      GivenStays(states, t, t.queries[i].sid, t.queries[i].active, t.queries[i].asOf);
    }
  }

  lemma CacheStaysOk(states: seq<Server>, step: Step, slowest: nat, i: nat)
    requires states != [] && ServerOk(states, slowest) && CanTake(states[|states| - 1], step, slowest)
    requires i < |Take(states[|states| - 1], step, slowest).cache|
    ensures var t := Take(states[|states| - 1], step, slowest);
      EntryOk(states + [t], t.clock, slowest, t.cache[i])
  {
    var s := states[|states| - 1];
    var t := Take(s, step, slowest);
    var e := t.cache[i];
    if step.EndRead? {
      assert ReadOk(states, s.clock, slowest, s.queries[step.index]);
      var r := s.queries[step.index];
      StoredMember(s.cache, Entry(r.sid, r.active, s.clock + CACHE_MS, r.asOf), i);
    }
    if e in s.cache {
      var j :| 0 <= j < |s.cache| && s.cache[j] == e;
      assert EntryOk(states, s.clock, slowest, s.cache[j]);
    }
    GivenStays(states, t, e.sid, e.active, e.asOf);
  }

  lemma AnswersStayFresh(states: seq<Server>, step: Step, slowest: nat, i: nat)
    requires states != [] && ServerOk(states, slowest) && CanTake(states[|states| - 1], step, slowest)
    requires i < |Take(states[|states| - 1], step, slowest).given|
    ensures var t := Take(states[|states| - 1], step, slowest);
      Fresh(states + [t], slowest, t.given[i])
  {
    var s := states[|states| - 1];
    var t := Take(s, step, slowest);
    var a := t.given[i];
    if i < |s.given| {
      assert Fresh(states, slowest, s.given[i]);
    } else if step.EndRead? {
      assert ReadOk(states, s.clock, slowest, s.queries[step.index]);
      assert Given(states, a.sid, a.active, s.queries[step.index].asOf);
    } else {
      var j := IndexOf(s.cache, step.sid);
      assert EntryOk(states, s.clock, slowest, s.cache[j]);
      assert Given(states, a.sid, a.active, s.cache[j].asOf);
    }
    FreshStays(states, t, slowest, a);
  }

  lemma StepKeepsServerOk(states: seq<Server>, step: Step, slowest: nat)
    requires states != [] && ServerOk(states, slowest) && CanTake(states[|states| - 1], step, slowest)
    ensures ServerOk(states + [Take(states[|states| - 1], step, slowest)], slowest)
  {
    var s := states[|states| - 1];
    var t := Take(s, step, slowest);
    var all := states + [t];
    forall i | 0 <= i < |t.queries| ensures ReadOk(all, t.clock, slowest, t.queries[i]) {
      QueriesStayOk(states, step, slowest, i);
    }
    forall i | 0 <= i < |t.cache| ensures EntryOk(all, t.clock, slowest, t.cache[i]) {
      CacheStaysOk(states, step, slowest, i);
    }
    forall i | 0 <= i < |t.given| ensures Fresh(all, slowest, t.given[i]) {
      AnswersStayFresh(states, step, slowest, i);
    }
    CacheKeepsOk(s, step, slowest);
  }

  lemma CacheKeepsOk(s: Server, step: Step, slowest: nat)
    requires CacheOk(s.cache) && CanTake(s, step, slowest)
    ensures CacheOk(Take(s, step, slowest).cache)
  {
    if step.EndRead? {
      var r := s.queries[step.index];
      StoringKeepsCacheOk(s.cache, Entry(r.sid, r.active, s.clock + CACHE_MS, r.asOf));
    }
  }

  /** Every answer of a server is one the database gave within the last CACHE_MS and one read; its cache never outgrows CACHE_MAX. */
  lemma {:induction false} AnswersAreFresh(states: seq<Server>, steps: seq<Step>, slowest: nat)
    requires Steps(states, steps, slowest) && states[0] == START
    ensures ServerOk(states, slowest)
    decreases |steps|
  {
    if steps != [] {
      var n := |steps| - 1;
      var before := states[..n + 1];
      AnswersAreFresh(before, steps[..n], slowest);
      StepKeepsServerOk(before, steps[n], slowest);
      assert before[|before| - 1] == states[n];
      assert states == before + [Take(states[n], steps[n], slowest)];
    }
  }

  // -------------------------------------------- how immediate the cut is

  /** From `s` on, whatever steps follow, this server never accepts `sid`. */
  ghost predicate CutFor(s: Server, sid: Id, slowest: nat) {
    forall states: seq<Server>, steps: seq<Step> ::
      Steps(states, steps, slowest) && states[0] == s ==> NoneAccepted(states[|steps|].given, |s.given|, sid)
  }

  predicate NoneAccepted(given: seq<Answer>, from: nat, sid: Id) {
    forall i :: from <= i < |given| && given[i].sid == sid ==> !given[i].active
  }

  predicate NoOldRead(queries: seq<Read>, sid: Id) {
    forall i :: 0 <= i < |queries| && queries[i].sid == sid ==> !queries[i].active
  }

  predicate NoOldEntry(cache: seq<Entry>, sid: Id) {
    forall i :: 0 <= i < |cache| && cache[i].sid == sid ==> !cache[i].active
  }

  ghost predicate CutState(s: Server, sid: Id, from: nat) {
    && DbOk(s.db) && Dead(s.db, sid) && NoOldRead(s.queries, sid) && NoOldEntry(s.cache, sid)
    && from <= |s.given| && NoneAccepted(s.given, from, sid)
  }

  lemma StepKeepsCut(s: Server, step: Step, slowest: nat, sid: Id, from: nat)
    requires CutState(s, sid, from) && CanTake(s, step, slowest)
    ensures CutState(Take(s, step, slowest), sid, from)
  {
    var t := Take(s, step, slowest);
    match step
    case Changes(change) =>
      ChangesKeepDbOk(s.db, change);
      DeadStaysDead(s.db, change, sid);
    case BeginRead(asked) => DeadIsRefused(s.db, sid, s.clock);
    case EndRead(index) =>
      var r := s.queries[index];
      forall i | 0 <= i < |t.cache| && t.cache[i].sid == sid ensures !t.cache[i].active {
        StoredMember(s.cache, Entry(r.sid, r.active, s.clock + CACHE_MS, r.asOf), i);
      }
    case _ =>
  }

  lemma {:induction false} StepsKeepCut(states: seq<Server>, steps: seq<Step>, slowest: nat, sid: Id, from: nat)
    requires Steps(states, steps, slowest) && CutState(states[0], sid, from)
    ensures CutState(states[|steps|], sid, from)
    decreases |steps|
  {
    if steps != [] {
      var n := |steps| - 1;
      StepsKeepCut(states[..n + 1], steps[..n], slowest, sid, from);
      assert states[..n + 1][n] == states[n];
      StepKeepsCut(states[n], steps[n], slowest, sid, from);
    }
  }

  /**
   * A session is ended and the cache emptied: the cut is immediate on this
   * server exactly when no read that found the session live is on its way.
   */
  lemma CutIsImmediateExactly(s: Server, sid: Id, slowest: nat)
    requires DbOk(s.db) && Dead(s.db, sid)
    ensures CutFor(Take(s, Forget, slowest), sid, slowest) <==> NoOldRead(s.queries, sid)
  {
    var t := Take(s, Forget, slowest);
    if NoOldRead(s.queries, sid) {
      forall states: seq<Server>, steps: seq<Step> | Steps(states, steps, slowest) && states[0] == t
        ensures NoneAccepted(states[|steps|].given, |t.given|, sid)
      {
        StepsKeepCut(states, steps, slowest, sid, |t.given|);
      }
    } else {
      var i :| 0 <= i < |s.queries| && s.queries[i].sid == sid && s.queries[i].active;
      var states, steps := [t, Take(t, EndRead(i), slowest)], [EndRead(i)];
      assert Steps(states, steps, slowest);
      assert states[1].given[|t.given|] == Answer(sid, true, t.clock);
      assert !NoneAccepted(states[|steps|].given, |t.given|, sid);
    }
  }
}
