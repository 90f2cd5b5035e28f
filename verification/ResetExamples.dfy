/**
 * Two resets whose planning passes and whose DELETE fails (scripts/launch-reset.js):
 * one crosses a CASCADE key, the other a SET NULL key whose column is referred to.
 * Both cross the key of table 1 to table 0; table 2 is users.
 */
module ResetExamples {
  import opened Common
  import opened DeleteOrder
  import opened ForeignKeys
  import opened LaunchReset

  datatype Trap = CascadeTrap | SetNullTrap

  /** The column of table 1 its own hard key refers to. */
  function Target(trap: Trap): Column { if trap == CascadeTrap then "id" else "a" }

  function BackKey(): Fk { Fk(0, 1, SetNull, ["b"], ["id"]) }

  function CrossedKey(trap: Trap): Fk { Fk(1, 0, if trap == CascadeTrap then Cascade else SetNull, ["a"], ["id"]) }

  function SelfKey(trap: Trap): Fk { Fk(1, 1, NoAction, ["s"], [Target(trap)]) }

  function TrapSchema(trap: Trap): Schema { Schema([BackKey(), CrossedKey(trap), SelfKey(trap)], 2, map[], {}) }

  function TrapKinds(): Kinds { map[0 := Wipe, 1 := Wipe, 2 := KeepCreator] }

  function First(): Row { map["id" := Value("x"), "a" := Value("z")] }

  /** It refers to the first row of its table, by its id or by its `a`. */
  function Second(trap: Trap): Row { map["id" := Value("y"), "s" := Value(if trap == CascadeTrap then "x" else "z")] }

  function TrapDb(trap: Trap): Db {
    map[0 := map[0 := map["id" := Value("z")]],
        1 := map[0 := First(), 1 := Second(trap)],
        2 := map[0 := map["id" := Value("u"), "platform_role" := Value("creator")]]]
  }

  // ------------------------------------------------------------- the order

  const EDGES: set<Edge> := {(0, 1), (1, 0)}

  lemma TrapEdges(trap: Trap)
    ensures Edges({0, 1, 2}, TrapSchema(trap).fks) == EDGES && HardEdges({0, 1, 2}, TrapSchema(trap).fks) == {}
  {
    var fks := TrapSchema(trap).fks;
    assert fks[0] == BackKey() && fks[1] == CrossedKey(trap) && fks[2] == SelfKey(trap);
    assert forall fk :: fk in fks <==> fk == fks[0] || fk == fks[1] || fk == fks[2];
  }

  lemma SortedOne(x: Table)
    ensures Sorted({x}) == [x]
  {
    assert Least({x}) == x;
    assert {x} - {x} == {};
  }

  lemma OrderStep(remaining: set<Table>, t: Table, rest: seq<Table>)
    requires Ready(EDGES, {}, remaining) == [t] && t in remaining
    requires OrderFrom(EDGES, {}, remaining - {t}) == Ok(rest)
    ensures OrderFrom(EDGES, {}, remaining) == Ok([t] + rest)
  {
    assert Elements([t]) == {t};
  }

  lemma FreeIs(remaining: set<Table>, t: Table)
    requires Free(EDGES, remaining) == {t}
    ensures Ready(EDGES, {}, remaining) == [t]
  {
    SortedOne(t);
  }

  lemma LastOne()
    ensures OrderFrom(EDGES, {}, {1}) == Ok([1])
  {
    assert Free(EDGES, {1}) == {1};
    FreeIs({1}, 1);
    assert {1} - {1} == {};
    OrderStep({1}, 1, []);
    assert [1] + [] == [1];
  }

  /** Neither is free and neither is held by a hard key: the first one goes. */
  lemma StuckPair()
    ensures Ready(EDGES, {}, {0, 1}) == [0]
  {
    assert (0, 1) in EDGES && (1, 0) in EDGES;
    assert Free(EDGES, {0, 1}) == {};
    assert Sorted({}) == [];
    assert Free({}, {0, 1}) == {0, 1};
    assert Least({0, 1}) == 0;
  }

  lemma PairOrder()
    ensures OrderFrom(EDGES, {}, {0, 1}) == Ok([0, 1])
  {
    LastOne();
    StuckPair();
    assert {0, 1} - {0} == {1};
    OrderStep({0, 1}, 0, [1]);
    assert [0] + [1] == [0, 1];
  }

  lemma OnlyUsersFree()
    ensures Ready(EDGES, {}, {0, 1, 2}) == [2]
  {
    assert (0, 1) in EDGES && (1, 0) in EDGES;
    assert Free(EDGES, {0, 1, 2}) == {2};
    FreeIs({0, 1, 2}, 2);
  }

  lemma UsersThenPair(all: set<Table>, pair: set<Table>)
    requires all == {0, 1, 2} && pair == {0, 1}
    ensures OrderFrom(EDGES, {}, all) == Ok([2] + [0, 1])
  {
    PairOrder();
    OnlyUsersFree();
    assert all - {2} == pair;
    OrderStep(all, 2, [0, 1]);
  }

  lemma TrapOrder()
    ensures OrderFrom(EDGES, {}, {0, 1, 2}) == Ok([2, 0, 1])
  {
    UsersThenPair({0, 1, 2}, {0, 1});
    assert [2] + [0, 1] == [2, 0, 1];
  }

  // -------------------------------------------------------- the references

  lemma OneColumn(row: Row, col: Column)
    ensures Tuple(row, [col]) == [At(row, col)]
  {
  }

  lemma TrapRefers(trap: Trap, fk: Fk, c: RowRef, p: RowRef)
    requires fk in TrapSchema(trap).fks
    ensures RefersTo(TrapDb(trap), fk, c, p) <==>
      (fk == CrossedKey(trap) && c == (1, 0) && p == (0, 0)) || (fk == SelfKey(trap) && c == (1, 1) && p == (1, 0))
  {
    var db := TrapDb(trap);
    assert fk == BackKey() || fk == CrossedKey(trap) || fk == SelfKey(trap);
    if c.0 in db && c.1 in db[c.0] && p.0 in db && p.1 in db[p.0] {
      OneColumn(db[c.0][c.1], fk.childCols[0]);
      OneColumn(db[p.0][p.1], fk.parentCols[0]);
    }
  }

  lemma TrapKeysHold(trap: Trap)
    ensures KeysHold(TrapSchema(trap), TrapDb(trap))
  {
    var db := TrapDb(trap);
    forall fk, c | fk in TrapSchema(trap).fks && c in AllRows(db) ensures KeyHolds(db, fk, c) {
      TrapKeyHolds(trap, fk, c);
    }
  }

  lemma TrapKeyHolds(trap: Trap, fk: Fk, c: RowRef)
    requires fk in TrapSchema(trap).fks && c in AllRows(TrapDb(trap))
    ensures KeyHolds(TrapDb(trap), fk, c)
  {
    var db := TrapDb(trap);
    var p: RowRef := if fk == CrossedKey(trap) then (0, 0) else (1, 0);
    TrapRefers(trap, fk, c, p);
    assert p in AllRows(db);
    assert fk == BackKey() || fk == CrossedKey(trap) || fk == SelfKey(trap);
    OneColumn(db[c.0][c.1], fk.childCols[0]);
  }

  // ----------------------------------------------------------- the planning

  lemma TrapNames(trap: Trap)
    ensures Elements(DeleteNames(TrapDb(trap), TrapKinds())) == {0, 1, 2}
  {
    var wipe, users := OfKind(TrapDb(trap), TrapKinds(), Wipe), OfKind(TrapDb(trap), TrapKinds(), KeepCreator);
    assert wipe == {0, 1} && users == {2};
    SortedIsTheSet(wipe);
    SortedIsTheSet(users);
    assert forall t :: t in Sorted(wipe) + Sorted(users) <==> t in Sorted(wipe) || t in Sorted(users);
  }

  lemma TrapKindsAre(trap: Trap)
    ensures ValidKinds(TrapSchema(trap), TrapKinds()) && TrapDb(trap).Keys - TrapKinds().Keys == {}
    ensures OfKind(TrapDb(trap), TrapKinds(), Decide) == {} && OfKind(TrapDb(trap), TrapKinds(), Truncate) == {}
    ensures CreatorRows(TrapSchema(trap), TrapDb(trap)) == {0}
  {
  }

  lemma TrapNoPointers(trap: Trap)
    ensures !PointsAtDeleted(TrapSchema(trap), TrapDb(trap), TrapKinds(), 0)
  {
    forall fk, c, p | fk in TrapSchema(trap).fks && Kept(TrapKinds(), 0, c) ensures !RefersTo(TrapDb(trap), fk, c, p) {
      TrapRefers(trap, fk, c, p);
    }
  }

  lemma TrapOrderOf(trap: Trap)
    ensures OrderOf(TrapSchema(trap), TrapDb(trap), TrapKinds()) == Ok([2, 0, 1])
  {
    TrapNames(trap);
    TrapEdges(trap);
    TrapOrder();
  }

  lemma TrapPlanned(trap: Trap)
    ensures Planned(TrapSchema(trap), TrapDb(trap), TrapKinds(), 1) == Ok(Plan(0, [2, 0, 1]))
  {
    TrapKindsAre(trap);
    TrapNoPointers(trap);
    TrapOrderOf(trap);
    PlannedIs(TrapSchema(trap), TrapDb(trap), TrapKinds(), 0, [2, 0, 1]);
  }

  lemma PlannedIs(sch: Schema, db: Db, kinds: Kinds, creator: RowId, order: seq<Table>)
    requires ValidKinds(sch, kinds) && db.Keys - kinds.Keys == {}
    requires OfKind(db, kinds, Decide) == {} && OfKind(db, kinds, Truncate) == {}
    requires CreatorRows(sch, db) == {creator} && !PointsAtDeleted(sch, db, kinds, creator) && OrderOf(sch, db, kinds) == Ok(order)
    ensures Planned(sch, db, kinds, 1) == Ok(Plan(creator, order))
  {
    assert Least({creator}) == creator;
  }

  // ------------------------------------------------------------ the DELETE

  lemma UsersFirst(trap: Trap)
    ensures GoneRows(TrapDb(trap), TrapKinds(), Plan(0, [2, 0, 1]), 2) == {}
    ensures GoneRows(TrapDb(trap), TrapKinds(), Plan(0, [2, 0, 1]), 0) == {0}
  {
  }

  function Doomed(trap: Trap): set<RowRef> { if trap == CascadeTrap then {(0, 0), (1, 0)} else {(0, 0)} }

  lemma TrapCascades(trap: Trap, d: set<RowRef>)
    requires (0, 0) in d && d <= Doomed(trap)
    ensures Cascaded(TrapSchema(trap), TrapDb(trap), d) == if trap == CascadeTrap then {(1, 0)} else {}
  {
    var sch, db := TrapSchema(trap), TrapDb(trap);
    assert sch.fks[1] == CrossedKey(trap);
    TrapRefers(trap, CrossedKey(trap), (1, 0), (0, 0));
    if trap == CascadeTrap { CascadedIn(sch, db, d, CrossedKey(trap), (1, 0), (0, 0)); }
    forall c | c in Cascaded(sch, db, d) ensures trap == CascadeTrap && c == (1, 0) {
      var k :| k in sch.fks && k.onDelete == Cascade && Hits(db, k, c, d);
      var p :| p in d && RefersTo(db, k, c, p);
      TrapRefers(trap, k, c, p);
    }
  }

  lemma TrapReached(trap: Trap)
    ensures {(0, 0)} <= AllRows(TrapDb(trap)) && Reached(TrapSchema(trap), TrapDb(trap), {(0, 0)}) == Doomed(trap)
  {
    assert (0, 0) in AllRows(TrapDb(trap)) && (1, 0) in AllRows(TrapDb(trap));
    TrapCascades(trap, {(0, 0)});
    TrapCascades(trap, Doomed(trap));
    TwoRounds(TrapSchema(trap), TrapDb(trap), {(0, 0)}, Doomed(trap));
  }

  lemma TwoRounds(sch: Schema, db: Db, start: set<RowRef>, all: set<RowRef>)
    requires start <= all <= AllRows(db) && start + Cascaded(sch, db, start) == all && Cascaded(sch, db, all) <= all
    ensures Reached(sch, db, start) == all
  {
    assert all + Cascaded(sch, db, all) == all;
  }

  /** The second row of table 1 refers to no row that goes, and stays as it is. */
  lemma SecondStays(trap: Trap)
    ensures RowAfter(TrapSchema(trap), TrapDb(trap), (1, 1), Doomed(trap)) == Second(trap)
  {
    forall fk | fk in TrapSchema(trap).fks ensures !Hits(TrapDb(trap), fk, (1, 1), Doomed(trap)) || fk.onDelete == NoAction {
      forall p | p in Doomed(trap) && RefersTo(TrapDb(trap), fk, (1, 1), p) ensures fk.onDelete == NoAction {
        TrapRefers(trap, fk, (1, 1), p);
      }
    }
  }

  /** The first row of table 1 goes, or loses what the second refers to. */
  lemma FirstIsLost(trap: Trap)
    ensures (1, 0) in Doomed(trap) || At(RowAfter(TrapSchema(trap), TrapDb(trap), (1, 0), Doomed(trap)), "a") == Null
  {
    var sch, db := TrapSchema(trap), TrapDb(trap);
    assert sch.fks[1] == CrossedKey(trap);
    TrapRefers(trap, CrossedKey(trap), (1, 0), (0, 0));
    assert Hits(db, CrossedKey(trap), (1, 0), Doomed(trap));
    assert trap == SetNullTrap ==> Clears(sch, db, (1, 0), Doomed(trap), "a", SetNull);
  }

  lemma SecondIsStranded(trap: Trap)
    ensures !KeysHold(TrapSchema(trap), Survivors(TrapSchema(trap), TrapDb(trap), Doomed(trap)))
  {
    var sch, key := TrapSchema(trap), SelfKey(trap);
    var after := Survivors(sch, TrapDb(trap), Doomed(trap));
    SecondStays(trap);
    FirstIsLost(trap);
    SurvivorRows(sch, TrapDb(trap), Doomed(trap));
    assert (1, 1) in AllRows(after) && sch.fks[2] == key;
    OneColumn(after[1][1], "s");
    forall p | p in AllRows(after) ensures !RefersTo(after, key, (1, 1), p) {
      if p.0 == 1 {
        OneColumn(after[1][p.1], Target(trap));
        assert p == (1, 0) || p == (1, 1);
      }
    }
    assert !KeyHolds(after, key, (1, 1));
  }

  // ------------------------------------------------ what foretells it

  const PLAN := Plan(0, [2, 0, 1])

  lemma TrapIsPlain(trap: Trap)
    ensures PlainPlan(TrapSchema(trap), TrapDb(trap), PLAN)
  {
    TrapKeysHold(trap);
    var fks := TrapSchema(trap).fks;
    assert forall fk :: fk in fks ==> fk == BackKey() || fk == CrossedKey(trap) || fk == SelfKey(trap);
    forall fk, c, p, q | fk in fks && RefersTo(TrapDb(trap), fk, c, p) && RefersTo(TrapDb(trap), fk, c, q) ensures p == q {
      TrapRefers(trap, fk, c, p);
      TrapRefers(trap, fk, c, q);
    }
  }

  lemma TrapTargets(trap: Trap)
    ensures Targets(TrapDb(trap), TrapKinds(), 0, Elements(PLAN.order[..2])) == {(0, 0)}
    ensures Doomed(trap) <= Targets(TrapDb(trap), TrapKinds(), 0, Elements(PLAN.order))
  {
    assert PLAN.order[..2] == [2, 0];
    assert Elements([2, 0]) == {2, 0};
    assert PLAN.order[1] == 0 && PLAN.order[2] == 1;
    assert 0 in Elements(PLAN.order) && 1 in Elements(PLAN.order);
    assert (0, 0) in AllRows(TrapDb(trap)) && (1, 0) in AllRows(TrapDb(trap));
  }

  lemma TrapTruncatesNothing(trap: Trap)
    ensures Truncated(TrapDb(trap), OfKind(TrapDb(trap), TrapKinds(), Truncate)) == TrapDb(trap)
  {
    TrapKindsAre(trap);
    assert Truncated(TrapDb(trap), {}) == TrapDb(trap);
  }

  /** Both are databases for which the exact condition speaks, and it says that table 0 gets stuck. */
  lemma TrapIsForetold(trap: Trap)
    ensures PlainPlan(TrapSchema(trap), TrapDb(trap), PLAN) && !NeverStuck(TrapSchema(trap), TrapDb(trap), TrapKinds(), PLAN)
  {
    var sch, db, kinds := TrapSchema(trap), TrapDb(trap), TrapKinds();
    TrapIsPlain(trap);
    TrapPlanned(trap);
    PlannedHolds(sch, db, kinds, 1);
    TruncatedIsTame(sch, db, kinds, PLAN);
    TrapTruncatesNothing(trap);
    TrapTargets(trap);
    TrapReached(trap);
    TrapCascades(trap, Doomed(trap));
    SecondIsStranded(trap);
    KeysHoldExactly(sch, db, Elements(PLAN.order), Targets(db, kinds, 0, Elements(PLAN.order)), Doomed(trap));
    assert Stuck(sch, db, kinds, PLAN, 1);
  }

  /**
   * Every key holds and planning passes; the delete of users deletes nothing, and
   * the delete of table 0 fails. By a CASCADE key it reaches a row another row
   * still holds; by a SET NULL key it clears a column another row refers to.
   */
  lemma CrossedKeyFails(trap: Trap)
    ensures KeysHold(TrapSchema(trap), TrapDb(trap))
    ensures Planned(TrapSchema(trap), TrapDb(trap), TrapKinds(), 1) == Ok(PLAN)
    ensures GoneRows(TrapDb(trap), TrapKinds(), PLAN, 2) == {}
    ensures GoneRows(TrapDb(trap), TrapKinds(), PLAN, 0) == {0}
    ensures 0 in TrapDb(trap) && {0} <= TrapDb(trap)[0].Keys
    ensures DeleteRows(TrapSchema(trap), TrapDb(trap), 0, {0}) == None
  {
    TrapKeysHold(trap);
    TrapPlanned(trap);
    UsersFirst(trap);
    TrapDeleteFails(trap);
  }

  lemma TrapDeleteFails(trap: Trap)
    ensures 0 in TrapDb(trap) && {0} <= TrapDb(trap)[0].Keys
    ensures DeleteRows(TrapSchema(trap), TrapDb(trap), 0, {0}) == None
  {
    TrapReached(trap);
    assert RowRefs(0, {0}) == {(0, 0)};
    SecondIsStranded(trap);
  }
}
