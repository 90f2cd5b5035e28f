/**
 * The launch reset (`run`, scripts/launch-reset.js): its planning checks, and
 * its TRUNCATE and ordered DELETEs, in one transaction.
 */
module LaunchReset {
  import opened Common
  import opened DeleteOrder
  import opened ForeignKeys

  // -------------------------------------------------------------- planning

  datatype Kind = Keep | KeepCreator | Wipe | Truncate | Decide

  datatype Refusal =
    | BadClassification
    | Unclassified(tables: set<Table>)
    | Undecided(tables: set<Table>)
    | Creators(count: nat)
    | ExpectKeep
    | HardCycle(tables: set<Table>)
    | KeptRowsPointAtDeleted
    | TruncateReaches
    | StatementFailed
    | CheckFailed

  datatype Plan = Plan(creator: RowId, order: seq<Table>)

  type Kinds = map<Table, Kind>

  predicate Kept(kinds: Kinds, creator: RowId, c: RowRef) {
    c.0 in kinds &&
    match kinds[c.0]
    case Keep => true
    case Decide => true
    case KeepCreator => c.1 == creator
    case _ => false
  }

  predicate Deleted(kinds: Kinds, creator: RowId, c: RowRef) {
    c.0 in kinds &&
    match kinds[c.0]
    case Wipe => true
    case Truncate => true
    case KeepCreator => c.1 != creator
    case _ => false
  }

  function OfKind(db: Db, kinds: Kinds, kind: Kind): set<Table> {
    set t | t in db && t in kinds && kinds[t] == kind
  }

  /** keep-creator is for the users table, and the users table is keep-creator. */
  predicate ValidKinds(sch: Schema, kinds: Kinds) {
    && (forall t :: t in kinds && kinds[t] == KeepCreator ==> t == sch.users)
    && sch.users in kinds && kinds[sch.users] == KeepCreator
  }

  function CreatorRows(sch: Schema, db: Db): set<RowId> {
    if sch.users in db then set r | r in db[sch.users] && At(db[sch.users][r], "platform_role") == Value("creator") else {}
  }

  predicate PointsAtDeleted(sch: Schema, db: Db, kinds: Kinds, creator: RowId) {
    exists fk, c, p :: fk in sch.fks && c in AllRows(db) && p in AllRows(db)
      && Kept(kinds, creator, c) && Deleted(kinds, creator, p) && RefersTo(db, fk, c, p)
  }

  function DeleteNames(db: Db, kinds: Kinds): seq<Table> {
    Sorted(OfKind(db, kinds, Wipe)) + Sorted(OfKind(db, kinds, KeepCreator))
  }

  function OrderOf(sch: Schema, db: Db, kinds: Kinds): Result<seq<Table>, set<Table>> {
    var names := Elements(DeleteNames(db, kinds));
    OrderFrom(Edges(names, sch.fks), HardEdges(names, sch.fks), names)
  }

  /** What the checks find in a database and its classification. */
  datatype Findings = Findings(
    valid: bool, unclassified: set<Table>, undecided: set<Table>, creators: set<RowId>, keepsOne: bool,
    order: Result<seq<Table>, set<Table>>, pointing: bool, spills: bool)

  function Find(sch: Schema, db: Db, kinds: Kinds, expectKeep: nat): Findings {
    var creators := CreatorRows(sch, db);
    Findings(ValidKinds(sch, kinds), db.Keys - kinds.Keys, OfKind(db, kinds, Decide), creators, expectKeep == 1,
             OrderOf(sch, db, kinds), creators != {} && PointsAtDeleted(sch, db, kinds, Least(creators)),
             TruncateTables(sch, db, OfKind(db, kinds, Truncate)).None?)
  }

  /** The first check that fails refuses. */
  function Judge(f: Findings): Result<Plan, Refusal> {
    if !f.valid then Err(BadClassification)
    else if f.unclassified != {} then Err(Unclassified(f.unclassified))
    else if f.undecided != {} then Err(Undecided(f.undecided))
    else if |f.creators| != 1 then Err(Creators(|f.creators|))
    else if !f.keepsOne then Err(ExpectKeep)
    else if f.order.Err? then Err(HardCycle(f.order.error))
    else if f.pointing then Err(KeptRowsPointAtDeleted)
    else if f.spills then Err(TruncateReaches)
    else Ok(Plan(Least(f.creators), f.order.value))
  }

  /** Everything `--apply` checks before it changes a row, in the order it checks it. */
  function Planned(sch: Schema, db: Db, kinds: Kinds, expectKeep: nat): Result<Plan, Refusal> {
    Judge(Find(sch, db, kinds, expectKeep))
  }

  /** What the reset makes of a table: kept rows untouched, wiped tables empty, of the users the creator alone. */
  function ResetRows(kinds: Kinds, creator: RowId, t: Table, rows: map<RowId, Row>): map<RowId, Row>
    requires t in kinds
  {
    match kinds[t]
    case Keep => rows
    case Decide => rows
    case KeepCreator => map r | r in rows && r == creator :: rows[r]
    case Wipe => map[]
    case Truncate => map[]
  }

  predicate IsReset(db0: Db, db: Db, kinds: Kinds, creator: RowId) {
    && db.Keys == db0.Keys
    && forall t :: t in db0 && t in kinds ==> db[t] == ResetRows(kinds, creator, t, db0[t])
  }

  /** What a passed planning phase has established. */
  ghost predicate PlanHolds(sch: Schema, db: Db, kinds: Kinds, plan: Plan) {
    && db.Keys <= kinds.Keys && OfKind(db, kinds, Decide) == {}
    && (forall t :: t in OfKind(db, kinds, KeepCreator) ==> plan.creator in db[t])
    && Distinct(plan.order)
    && Elements(plan.order) == OfKind(db, kinds, Wipe) + OfKind(db, kinds, KeepCreator)
    && !PointsAtDeleted(sch, db, kinds, plan.creator)
    && TruncateTables(sch, db, OfKind(db, kinds, Truncate)).Some?
  }

  // ------------------------------------------- when the deletes cannot fail

  /** The order deletes the key's parent table before its child table. */
  predicate Crosses(order: seq<Table>, fk: Fk) {
    exists i, j :: 0 <= i < j < |order| && order[i] == fk.parent && order[j] == fk.child
  }

  /**
   * What the planning checks do not look at: every key the order crosses is SET
   * NULL, on columns no key refers to.
   */
  predicate SafeToRun(sch: Schema, order: seq<Table>) {
    && (forall fk :: fk in sch.fks ==> |fk.childCols| > 0)
    && (forall fk :: fk in sch.fks && Crosses(order, fk) ==> fk.onDelete == SetNull)
    && (forall fk, g, col :: fk in sch.fks && g in sch.fks && Crosses(order, fk) && g.parent == fk.child && col in fk.childCols ==>
          col !in g.parentCols)
  }

  predicate Clearable(sch: Schema, order: seq<Table>, t: Table, col: Column) {
    exists fk :: fk in sch.fks && fk.child == t && Crosses(order, fk) && col in fk.childCols
  }

  /** `row` is `row0`, some of the columns that may be cleared being null now. */
  predicate Weaker(sch: Schema, order: seq<Table>, t: Table, row0: Row, row: Row) {
    row.Keys == row0.Keys
    && forall col :: col in row ==> row[col] == row0[col] || (row[col] == Null && Clearable(sch, order, t, col))
  }

  predicate TableMidway(sch: Schema, plan: Plan, kinds: Kinds, t: Table, rows0: map<RowId, Row>, rows: map<RowId, Row>, done: bool)
    requires t in kinds
  {
    match kinds[t]
    case Keep => rows == rows0
    case Decide => rows == rows0
    case Truncate => rows == map[]
    case _ =>
      if done then rows == map r | r in rows0 && Kept(kinds, plan.creator, (t, r)) :: rows0[r]
      else rows.Keys == rows0.Keys
           && forall r :: r in rows ==>
                Weaker(sch, plan.order, t, rows0[r], rows[r]) && (Kept(kinds, plan.creator, (t, r)) ==> rows[r] == rows0[r])
  }

  /** After the TRUNCATE and the deletes of the tables in `done`. */
  ghost predicate Midway(sch: Schema, db0: Db, db: Db, kinds: Kinds, plan: Plan, done: set<Table>) {
    && db.Keys == db0.Keys && db.Keys <= kinds.Keys
    && KeysHold(sch, db)
    && forall t {:trigger TableMidway(sch, plan, kinds, t, db0[t], db[t], t in done)} :: t in db ==>
         TableMidway(sch, plan, kinds, t, db0[t], db[t], t in done)
  }

  lemma TupleOfWeaker(sch: Schema, order: seq<Table>, t: Table, row0: Row, row: Row, cols: seq<Column>)
    requires Weaker(sch, order, t, row0, row) && Null !in Tuple(row, cols)
    ensures Tuple(row0, cols) == Tuple(row, cols)
  {
    forall i | 0 <= i < |cols| ensures At(row0, cols[i]) == At(row, cols[i]) {
      assert Tuple(row, cols)[i] != Null;
    }
  }

  lemma MidwayRow(sch: Schema, db0: Db, db: Db, kinds: Kinds, plan: Plan, done: set<Table>, c: RowRef)
    requires Midway(sch, db0, db, kinds, plan, done) && c in AllRows(db)
    ensures c in AllRows(db0) && Weaker(sch, plan.order, c.0, db0[c.0][c.1], db[c.0][c.1])
    ensures Kept(kinds, plan.creator, c) ==> db[c.0][c.1] == db0[c.0][c.1]
    ensures kinds[c.0] == Keep || kinds[c.0] == Decide || c.0 in done ==> Kept(kinds, plan.creator, c)
    ensures kinds[c.0] != Truncate
  {
    assert TableMidway(sch, plan, kinds, c.0, db0[c.0], db[c.0], c.0 in done);
  }

  /** No reference appears that was not there at the start. */
  lemma RefersBack(sch: Schema, db0: Db, db: Db, kinds: Kinds, plan: Plan, done: set<Table>, fk: Fk, c: RowRef, p: RowRef)
    requires Midway(sch, db0, db, kinds, plan, done) && RefersTo(db, fk, c, p)
    ensures c in AllRows(db) && p in AllRows(db) && RefersTo(db0, fk, c, p)
  {
    MidwayRow(sch, db0, db, kinds, plan, done, c);
    MidwayRow(sch, db0, db, kinds, plan, done, p);
    TupleOfWeaker(sch, plan.order, c.0, db0[c.0][c.1], db[c.0][c.1], fk.childCols);
    TupleOfWeaker(sch, plan.order, p.0, db0[p.0][p.1], db[p.0][p.1], fk.parentCols);
  }

  /** The facts the delete of `order[i]` starts from. */
  ghost predicate AtStep(sch: Schema, db0: Db, db: Db, kinds: Kinds, plan: Plan, i: nat) {
    && i < |plan.order| && plan.order[i] in db
    && Midway(sch, db0, db, kinds, plan, Elements(plan.order[..i]))
    && SafeToRun(sch, plan.order)
    && Distinct(plan.order)
    && Elements(plan.order) == OfKind(db0, kinds, Wipe) + OfKind(db0, kinds, KeepCreator)
    && OfKind(db0, kinds, Decide) == {}
    && !PointsAtDeleted(sch, db0, kinds, plan.creator)
  }

  /** The rows `deletedWhere` selects. */
  function GoneRows(db: Db, kinds: Kinds, plan: Plan, t: Table): set<RowId>
    requires t in db
  {
    set r | r in db[t] && Deleted(kinds, plan.creator, (t, r))
  }

  function GoneRefs(db: Db, kinds: Kinds, plan: Plan, t: Table): set<RowRef>
    requires t in db
  {
    RowRefs(t, GoneRows(db, kinds, plan, t))
  }

  lemma PrefixElements(order: seq<Table>, i: nat)
    requires i <= |order|
    ensures forall k :: 0 <= k < i ==> order[k] in Elements(order[..i])
    ensures i < |order| && Distinct(order) ==> order[i] !in Elements(order[..i])
  {
    forall k | 0 <= k < i ensures order[k] in Elements(order[..i]) {
      assert order[..i][k] == order[k];
    }
  }

  /** A row that refers to one that goes, goes with it, or its key is crossed. */
  lemma OnlyCrossedKeysRefer(sch: Schema, db0: Db, db: Db, kinds: Kinds, plan: Plan, i: nat, fk: Fk, c: RowRef)
    requires AtStep(sch, db0, db, kinds, plan, i) && fk in sch.fks
    requires Hits(db, fk, c, GoneRefs(db, kinds, plan, plan.order[i]))
    ensures c in GoneRefs(db, kinds, plan, plan.order[i]) || (Crosses(plan.order, fk) && fk.onDelete == SetNull)
    ensures c in AllRows(db) && !Kept(kinds, plan.creator, c)
  {
    var t, done := plan.order[i], Elements(plan.order[..i]);
    var p :| p in GoneRefs(db, kinds, plan, t) && RefersTo(db, fk, c, p);
    RefersBack(sch, db0, db, kinds, plan, done, fk, c, p);
    MidwayRow(sch, db0, db, kinds, plan, done, c);
    MidwayRow(sch, db0, db, kinds, plan, done, p);
    assert !Kept(kinds, plan.creator, c);
    assert c.0 in Elements(plan.order) && c.0 !in done;
    if c.0 != t {
      PrefixElements(plan.order, i);
      var j :| 0 <= j < |plan.order| && plan.order[j] == c.0;
      assert Crosses(plan.order, fk);
    }
  }

  lemma NothingCascades(sch: Schema, db0: Db, db: Db, kinds: Kinds, plan: Plan, i: nat)
    requires AtStep(sch, db0, db, kinds, plan, i)
    ensures var gone := GoneRefs(db, kinds, plan, plan.order[i]);
      gone <= AllRows(db) && Reached(sch, db, gone) == gone
  {
    var gone := GoneRefs(db, kinds, plan, plan.order[i]);
    forall c | c in Cascaded(sch, db, gone) ensures c in gone {
      var fk :| fk in sch.fks && fk.onDelete == Cascade && Hits(db, fk, c, gone);
      OnlyCrossedKeysRefer(sch, db0, db, kinds, plan, i, fk, c);
    }
    assert gone + Cascaded(sch, db, gone) == gone;
  }

  lemma NothingCaught(sch: Schema, db0: Db, db: Db, kinds: Kinds, plan: Plan, i: nat)
    requires AtStep(sch, db0, db, kinds, plan, i)
    ensures !CaughtEarly(sch, db, GoneRefs(db, kinds, plan, plan.order[i]), GoneRefs(db, kinds, plan, plan.order[i]))
  {
    var gone := GoneRefs(db, kinds, plan, plan.order[i]);
    forall fk, c | fk in sch.fks && Hard(fk) && c !in gone ensures !Hits(db, fk, c, gone) {
      if Hits(db, fk, c, gone) { OnlyCrossedKeysRefer(sch, db0, db, kinds, plan, i, fk, c); }
    }
  }

  /** The columns a survivor loses belong to crossed keys; kept rows lose none. */
  lemma SurvivorIsWeaker(sch: Schema, db0: Db, db: Db, kinds: Kinds, plan: Plan, i: nat, c: RowRef)
    requires AtStep(sch, db0, db, kinds, plan, i) && c in AllRows(db) && c !in GoneRefs(db, kinds, plan, plan.order[i])
    ensures var row' := RowAfter(sch, db, c, GoneRefs(db, kinds, plan, plan.order[i]));
      && Weaker(sch, plan.order, c.0, db[c.0][c.1], row')
      && (Kept(kinds, plan.creator, c) ==> row' == db[c.0][c.1])
  {
    var gone := GoneRefs(db, kinds, plan, plan.order[i]);
    var row, row' := db[c.0][c.1], RowAfter(sch, db, c, gone);
    forall col | col in row
      ensures row'[col] == row[col] || (row'[col] == Null && Clearable(sch, plan.order, c.0, col) && !Kept(kinds, plan.creator, c))
    {
      forall fk | fk in sch.fks && col in fk.childCols && Hits(db, fk, c, gone)
        ensures fk.onDelete == SetNull && Clearable(sch, plan.order, c.0, col) && !Kept(kinds, plan.creator, c)
      {
        OnlyCrossedKeysRefer(sch, db0, db, kinds, plan, i, fk, c);
        assert fk.child == c.0;
      }
    }
  }

  lemma WeakerTrans(sch: Schema, order: seq<Table>, t: Table, a: Row, b: Row, c: Row)
    requires Weaker(sch, order, t, a, b) && Weaker(sch, order, t, b, c)
    ensures Weaker(sch, order, t, a, c)
  {
  }

  /** A survivor's referenced columns are never cleared. */
  lemma ReferencedColumnsKept(sch: Schema, order: seq<Table>, row0: Row, row: Row, g: Fk)
    requires SafeToRun(sch, order) && g in sch.fks && Weaker(sch, order, g.parent, row0, row)
    ensures Tuple(row, g.parentCols) == Tuple(row0, g.parentCols)
  {
    forall k | 0 <= k < |g.parentCols| ensures At(row, g.parentCols[k]) == At(row0, g.parentCols[k]) {
      var col := g.parentCols[k];
      assert !Clearable(sch, order, g.parent, col);
    }
  }

  lemma KeysHoldAfter(sch: Schema, db0: Db, db: Db, kinds: Kinds, plan: Plan, i: nat, fk: Fk, c: RowRef)
    requires AtStep(sch, db0, db, kinds, plan, i) && fk in sch.fks
    requires c in AllRows(Survivors(sch, db, GoneRefs(db, kinds, plan, plan.order[i])))
    ensures KeyHolds(Survivors(sch, db, GoneRefs(db, kinds, plan, plan.order[i])), fk, c)
  {
    var gone := GoneRefs(db, kinds, plan, plan.order[i]);
    var db' := Survivors(sch, db, gone);
    if c.0 == fk.child && Null !in Tuple(db'[c.0][c.1], fk.childCols) {
      assert c in AllRows(db) && c !in gone;
      SurvivorIsWeaker(sch, db0, db, kinds, plan, i, c);
      TupleOfWeaker(sch, plan.order, c.0, db[c.0][c.1], db'[c.0][c.1], fk.childCols);
      assert KeyHolds(db, fk, c);
      var p :| p in AllRows(db) && RefersTo(db, fk, c, p);
      if p in gone {
        assert Hits(db, fk, c, gone);
        OnlyCrossedKeysRefer(sch, db0, db, kinds, plan, i, fk, c);
        ClearedKeyIsNull(sch, db, c, gone, fk);
      }
      SurvivorIsWeaker(sch, db0, db, kinds, plan, i, p);
      ReferencedColumnsKept(sch, plan.order, db[p.0][p.1], db'[p.0][p.1], fk);
      assert p in AllRows(db') && RefersTo(db', fk, c, p);
    }
  }

  lemma RowMidwayAfter(sch: Schema, db0: Db, db: Db, kinds: Kinds, plan: Plan, i: nat, c: RowRef)
    requires AtStep(sch, db0, db, kinds, plan, i) && c in AllRows(db) && c !in GoneRefs(db, kinds, plan, plan.order[i])
    ensures var row' := RowAfter(sch, db, c, GoneRefs(db, kinds, plan, plan.order[i]));
      && c.0 in db0 && c.1 in db0[c.0] && Weaker(sch, plan.order, c.0, db0[c.0][c.1], row')
      && (Kept(kinds, plan.creator, c) ==> row' == db0[c.0][c.1])
  {
    var row' := RowAfter(sch, db, c, GoneRefs(db, kinds, plan, plan.order[i]));
    MidwayRow(sch, db0, db, kinds, plan, Elements(plan.order[..i]), c);
    SurvivorIsWeaker(sch, db0, db, kinds, plan, i, c);
    WeakerTrans(sch, plan.order, c.0, db0[c.0][c.1], db[c.0][c.1], row');
  }

  /** The table just deleted from keeps the rows to keep, as they were. */
  lemma ThisTableMidway(sch: Schema, db0: Db, db: Db, kinds: Kinds, plan: Plan, i: nat)
    requires AtStep(sch, db0, db, kinds, plan, i)
    ensures var t := plan.order[i];
      t in kinds && TableMidway(sch, plan, kinds, t, db0[t], Survivors(sch, db, GoneRefs(db, kinds, plan, t))[t], true)
  {
    var t := plan.order[i];
    var gone := GoneRefs(db, kinds, plan, t);
    var rows' := Survivors(sch, db, gone)[t];
    PrefixElements(plan.order, i);
    assert t in Elements(plan.order);
    assert TableMidway(sch, plan, kinds, t, db0[t], db[t], t in Elements(plan.order[..i]));
    forall r | r in db[t] ensures (t, r) in gone <==> !Kept(kinds, plan.creator, (t, r)) {
    }
    forall r | r in rows' ensures rows'[r] == db0[t][r] {
      assert (t, r) in AllRows(db);
      RowMidwayAfter(sch, db0, db, kinds, plan, i, (t, r));
    }
  }

  /** Any other table keeps its rows, some of their columns cleared. */
  lemma OtherTableMidway(sch: Schema, db0: Db, db: Db, kinds: Kinds, plan: Plan, i: nat, u: Table)
    requires AtStep(sch, db0, db, kinds, plan, i) && u in db && u != plan.order[i]
    ensures TableMidway(sch, plan, kinds, u, db0[u], Survivors(sch, db, GoneRefs(db, kinds, plan, plan.order[i]))[u], u in Elements(plan.order[..i]))
  {
    var gone := GoneRefs(db, kinds, plan, plan.order[i]);
    var rows' := Survivors(sch, db, gone)[u];
    assert TableMidway(sch, plan, kinds, u, db0[u], db[u], u in Elements(plan.order[..i]));
    assert rows'.Keys == db[u].Keys;
    forall r | r in rows'
      ensures r in db0[u] && Weaker(sch, plan.order, u, db0[u][r], rows'[r]) && (Kept(kinds, plan.creator, (u, r)) ==> rows'[r] == db0[u][r])
    {
      assert (u, r) in AllRows(db);
      RowMidwayAfter(sch, db0, db, kinds, plan, i, (u, r));
    }
  }

  lemma TableMidwayAfter(sch: Schema, db0: Db, db: Db, kinds: Kinds, plan: Plan, i: nat, u: Table)
    requires AtStep(sch, db0, db, kinds, plan, i) && u in db
    ensures var db' := Survivors(sch, db, GoneRefs(db, kinds, plan, plan.order[i]));
      TableMidway(sch, plan, kinds, u, db0[u], db'[u], u in Elements(plan.order[..i + 1]))
  {
    assert plan.order[..i + 1] == plan.order[..i] + [plan.order[i]];
    assert u in Elements(plan.order[..i + 1]) <==> u in Elements(plan.order[..i]) || u == plan.order[i];
    if u == plan.order[i] {
      ThisTableMidway(sch, db0, db, kinds, plan, i);
    } else {
      OtherTableMidway(sch, db0, db, kinds, plan, i, u);
    }
  }

  /** One DELETE of the plan: it does not fail, and leaves the database one table further. */
  lemma DeleteStep(sch: Schema, db0: Db, db: Db, kinds: Kinds, plan: Plan, i: nat)
    requires AtStep(sch, db0, db, kinds, plan, i)
    ensures var r := DeleteRows(sch, db, plan.order[i], GoneRows(db, kinds, plan, plan.order[i]));
      r.Some? && Midway(sch, db0, r.value, kinds, plan, Elements(plan.order[..i + 1]))
  {
    var t := plan.order[i];
    var gone := GoneRefs(db, kinds, plan, t);
    var db' := Survivors(sch, db, gone);
    NothingCascades(sch, db0, db, kinds, plan, i);
    NothingCaught(sch, db0, db, kinds, plan, i);
    forall fk, c | fk in sch.fks && c in AllRows(db') ensures KeyHolds(db', fk, c) {
      KeysHoldAfter(sch, db0, db, kinds, plan, i, fk, c);
    }
    forall u | u in db' ensures TableMidway(sch, plan, kinds, u, db0[u], db'[u], u in Elements(plan.order[..i + 1])) {
      TableMidwayAfter(sch, db0, db, kinds, plan, i, u);
    }
  }

  lemma TruncateKeepsKeys(sch: Schema, db: Db, list: set<Table>)
    requires KeysHold(sch, db) && TruncateTables(sch, db, list).Some?
    ensures KeysHold(sch, TruncateTables(sch, db, list).value)
  {
    var db' := TruncateTables(sch, db, list).value;
    forall fk, c | fk in sch.fks && c in AllRows(db') ensures KeyHolds(db', fk, c) {
      assert KeyHolds(db, fk, c);
      if c.0 == fk.child && Null !in Tuple(db[c.0][c.1], fk.childCols) {
        var p :| p in AllRows(db) && RefersTo(db, fk, c, p);
        assert p in AllRows(db') && RefersTo(db', fk, c, p);
      }
    }
  }

  /** After the TRUNCATE, before the first DELETE. */
  lemma MidwayStarts(sch: Schema, db0: Db, kinds: Kinds, plan: Plan)
    requires KeysHold(sch, db0) && db0.Keys <= kinds.Keys
    requires TruncateTables(sch, db0, OfKind(db0, kinds, Truncate)).Some?
    ensures Midway(sch, db0, TruncateTables(sch, db0, OfKind(db0, kinds, Truncate)).value, kinds, plan, {})
  {
    var db := TruncateTables(sch, db0, OfKind(db0, kinds, Truncate)).value;
    TruncateKeepsKeys(sch, db0, OfKind(db0, kinds, Truncate));
    forall t | t in db ensures TableMidway(sch, plan, kinds, t, db0[t], db[t], false) {
    }
  }

  lemma MidwayEnds(sch: Schema, db0: Db, db: Db, kinds: Kinds, plan: Plan)
    requires Midway(sch, db0, db, kinds, plan, OfKind(db0, kinds, Wipe) + OfKind(db0, kinds, KeepCreator))
    ensures IsReset(db0, db, kinds, plan.creator)
  {
    var done := OfKind(db0, kinds, Wipe) + OfKind(db0, kinds, KeepCreator);
    forall t | t in db0 && t in kinds
      ensures db[t] == ResetRows(kinds, plan.creator, t, db0[t])
    {
      assert TableMidway(sch, plan, kinds, t, db0[t], db[t], t in done);
    }
  }

  // ------------------------------------- exactly when the deletes succeed

  /** The rows of these tables that are to go. */
  function Targets(db: Db, kinds: Kinds, creator: RowId, tables: set<Table>): set<RowRef> {
    set c | c in AllRows(db) && c.0 in tables && Deleted(kinds, creator, c)
  }

  /** The rows gone, by a delete or a cascade, once the first `i` tables of the order are done. */
  function GoneBy(sch: Schema, db: Db, kinds: Kinds, plan: Plan, i: nat): set<RowRef>
    requires i <= |plan.order|
  {
    Reached(sch, db, Targets(db, kinds, plan.creator, Elements(plan.order[..i])))
  }

  /**
   * The delete of table `i` fails: a row still there holds one that goes by a hard
   * key, or refers to a column that is cleared, or an early check finds one about to go.
   */
  ghost predicate Stuck(sch: Schema, db: Db, kinds: Kinds, plan: Plan, i: nat)
    requires i < |plan.order|
  {
    var before, after := GoneBy(sch, db, kinds, plan, i), GoneBy(sch, db, kinds, plan, i + 1);
    || Obstructed(sch, db, after)
    || Caught(sch, db, before, Targets(db, kinds, plan.creator, {plan.order[i]}) - before, after)
  }

  /** Told from the database before the reset alone: no delete of the plan gets stuck. */
  ghost predicate NeverStuck(sch: Schema, db: Db, kinds: Kinds, plan: Plan) {
    forall i: nat :: i < |plan.order| ==> !Stuck(sch, Truncated(db, OfKind(db, kinds, Truncate)), kinds, plan, i)
  }

  /** Between deleted tables no key is SET DEFAULT and SET NULL keys have their columns to themselves; referenced columns are unique. */
  ghost predicate PlainPlan(sch: Schema, db: Db, plan: Plan) {
    KeysHold(sch, db) && PlainKeys(sch, Elements(plan.order)) && OwnColumns(sch, Elements(plan.order)) && OneParent(sch, db)
  }

  lemma TruncatedRefers(db: Db, list: set<Table>, fk: Fk, c: RowRef, p: RowRef)
    ensures RefersTo(Truncated(db, list), fk, c, p) <==> RefersTo(db, fk, c, p) && c.0 !in list && p.0 !in list
  {
  }

  /** After the TRUNCATE the rows to go refer, and are referred to, among themselves alone. */
  lemma TruncatedIsTame(sch: Schema, db0: Db, kinds: Kinds, plan: Plan)
    requires PlanHolds(sch, db0, kinds, plan) && PlainPlan(sch, db0, plan)
    ensures var db := Truncated(db0, OfKind(db0, kinds, Truncate));
      Tame(sch, db, Elements(plan.order), Targets(db, kinds, plan.creator, Elements(plan.order)))
  {
    var list, names := OfKind(db0, kinds, Truncate), Elements(plan.order);
    var db := Truncated(db0, list);
    var rows := Targets(db, kinds, plan.creator, names);
    TruncateKeepsKeys(sch, db0, list);
    forall fk, c, p, q | fk in sch.fks && RefersTo(db, fk, c, p) && RefersTo(db, fk, c, q) ensures p == q {
      TruncatedRefers(db0, list, fk, c, p);
      TruncatedRefers(db0, list, fk, c, q);
    }
    forall fk, c, p | fk in sch.fks && p in rows && RefersTo(db, fk, c, p) ensures c in rows {
      TruncatedRefers(db0, list, fk, c, p);
      DeletedRefersToDeleted(sch, db0, kinds, plan, fk, c, p);
    }
  }

  lemma DeletedRefersToDeleted(sch: Schema, db0: Db, kinds: Kinds, plan: Plan, fk: Fk, c: RowRef, p: RowRef)
    requires PlanHolds(sch, db0, kinds, plan) && fk in sch.fks && RefersTo(db0, fk, c, p) && Deleted(kinds, plan.creator, p)
    ensures c in AllRows(db0) && Deleted(kinds, plan.creator, c)
    ensures c.0 in Elements(plan.order) || c.0 in OfKind(db0, kinds, Truncate)
  {
    assert c.0 in kinds && c.0 !in OfKind(db0, kinds, Decide);
    assert !Kept(kinds, plan.creator, c);
  }

  lemma TargetsOfOneMore(db: Db, kinds: Kinds, plan: Plan, i: nat)
    requires i < |plan.order|
    ensures Targets(db, kinds, plan.creator, Elements(plan.order[..i + 1])) ==
      Targets(db, kinds, plan.creator, Elements(plan.order[..i])) + Targets(db, kinds, plan.creator, {plan.order[i]})
  {
    assert plan.order[..i + 1] == plan.order[..i] + [plan.order[i]];
    assert Elements(plan.order[..i + 1]) == Elements(plan.order[..i]) + {plan.order[i]};
  }

  /** Where the run of the deletes stands before table `i`. */
  ghost predicate Standing(sch: Schema, db: Db, now: Db, kinds: Kinds, plan: Plan, i: nat) {
    && i <= |plan.order| && now == Survivors(sch, db, GoneBy(sch, db, kinds, plan, i))
    && !Obstructed(sch, db, GoneBy(sch, db, kinds, plan, i))
  }

  lemma GoneStart(sch: Schema, db: Db, kinds: Kinds, plan: Plan)
    requires Tame(sch, db, Elements(plan.order), Targets(db, kinds, plan.creator, Elements(plan.order)))
    ensures GoneBy(sch, db, kinds, plan, 0) == {} && Standing(sch, db, db, kinds, plan, 0)
  {
    assert Targets(db, kinds, plan.creator, Elements(plan.order[..0])) == {};
    assert Cascaded(sch, db, {}) == {};
    assert GoneBy(sch, db, kinds, plan, 0) == {};
    SurvivorsOfNothing(sch, db);
  }

  lemma SurvivorsOfNothing(sch: Schema, db: Db)
    ensures Survivors(sch, db, {}) == db
  {
    forall c | c in AllRows(db) ensures RowAfter(sch, db, c, {}) == db[c.0][c.1] {
    }
    var same := Survivors(sch, db, {});
    forall t | t in db ensures same[t] == db[t] {
      assert forall r :: r in db[t] ==> (t, r) in AllRows(db);
    }
  }

  /** One DELETE of the plan fails exactly when it is stuck, and otherwise takes the run one table further. */
  lemma DeleteStands(sch: Schema, db: Db, now: Db, kinds: Kinds, plan: Plan, i: nat)
    requires Tame(sch, db, Elements(plan.order), Targets(db, kinds, plan.creator, Elements(plan.order)))
    requires OwnColumns(sch, Elements(plan.order))
    requires Standing(sch, db, now, kinds, plan, i) && i < |plan.order| && plan.order[i] in now
    ensures var r := DeleteRows(sch, now, plan.order[i], GoneRows(now, kinds, plan, plan.order[i]));
      && (r.None? <==> Stuck(sch, db, kinds, plan, i))
      && (r.Some? ==> Standing(sch, db, r.value, kinds, plan, i + 1))
  {
    var names, t, creator := Elements(plan.order), plan.order[i], plan.creator;
    var rows := Targets(db, kinds, creator, names);
    var gone, here := GoneBy(sch, db, kinds, plan, i), Targets(db, kinds, creator, {t});
    var where := GoneRows(now, kinds, plan, t);
    SurvivorRows(sch, db, gone);
    PrefixTargets(db, kinds, plan, i);
    ReachedIsClosed(sch, db, Targets(db, kinds, creator, Elements(plan.order[..i])));
    ReachedStaysIn(sch, db, names, rows, Targets(db, kinds, creator, Elements(plan.order[..i])));
    TargetRows(sch, db, now, kinds, plan, gone, t);
    DeleteAfter(sch, db, names, rows, gone, t, where);
    ReachedInSteps(sch, db, Targets(db, kinds, creator, Elements(plan.order[..i])), here);
    TargetsOfOneMore(db, kinds, plan, i);
  }

  lemma PrefixTargets(db: Db, kinds: Kinds, plan: Plan, i: nat)
    requires i < |plan.order|
    ensures Targets(db, kinds, plan.creator, Elements(plan.order[..i])) <= Targets(db, kinds, plan.creator, Elements(plan.order))
    ensures Targets(db, kinds, plan.creator, {plan.order[i]}) <= Targets(db, kinds, plan.creator, Elements(plan.order))
  {
    assert plan.order[i] in Elements(plan.order);
  }

  lemma TargetRows(sch: Schema, db: Db, now: Db, kinds: Kinds, plan: Plan, gone: set<RowRef>, t: Table)
    requires now == Survivors(sch, db, gone) && t in now
    ensures RowRefs(t, GoneRows(now, kinds, plan, t)) == Targets(db, kinds, plan.creator, {t}) - gone
  {
    SurvivorRows(sch, db, gone);
    forall c ensures c in RowRefs(t, GoneRows(now, kinds, plan, t)) <==> c in Targets(db, kinds, plan.creator, {t}) - gone {
      assert c in AllRows(now) <==> c in AllRows(db) && c !in gone;
      if c in Targets(db, kinds, plan.creator, {t}) - gone { assert c.1 in GoneRows(now, kinds, plan, t); }
    }
  }

  /** All deletes done, the database is the promised one. */
  lemma StandingEnds(sch: Schema, db0: Db, now: Db, kinds: Kinds, plan: Plan)
    requires PlanHolds(sch, db0, kinds, plan) && PlainPlan(sch, db0, plan)
    requires Standing(sch, Truncated(db0, OfKind(db0, kinds, Truncate)), now, kinds, plan, |plan.order|)
    ensures IsReset(db0, now, kinds, plan.creator)
  {
    var db, names := Truncated(db0, OfKind(db0, kinds, Truncate)), Elements(plan.order);
    var rows := Targets(db, kinds, plan.creator, names);
    TruncatedIsTame(sch, db0, kinds, plan);
    assert plan.order[..|plan.order|] == plan.order;
    ReachedIsClosed(sch, db, rows);
    ReachedStaysIn(sch, db, names, rows, rows);
    assert GoneBy(sch, db, kinds, plan, |plan.order|) == rows;
    forall t | t in db0 && t in kinds ensures now[t] == ResetRows(kinds, plan.creator, t, db0[t]) {
      ResetTable(sch, db0, kinds, plan, t);
    }
  }

  lemma ResetTable(sch: Schema, db0: Db, kinds: Kinds, plan: Plan, t: Table)
    requires PlanHolds(sch, db0, kinds, plan) && t in db0 && t in kinds
    requires var db := Truncated(db0, OfKind(db0, kinds, Truncate));
      Tame(sch, db, Elements(plan.order), Targets(db, kinds, plan.creator, Elements(plan.order)))
    ensures var db := Truncated(db0, OfKind(db0, kinds, Truncate));
      Survivors(sch, db, Targets(db, kinds, plan.creator, Elements(plan.order)))[t] == ResetRows(kinds, plan.creator, t, db0[t])
  {
    var db, names := Truncated(db0, OfKind(db0, kinds, Truncate)), Elements(plan.order);
    var rows := Targets(db, kinds, plan.creator, names);
    assert t !in OfKind(db0, kinds, Decide);
    assert t in names <==> kinds[t] == Wipe || kinds[t] == KeepCreator;
    assert t in OfKind(db0, kinds, Truncate) <==> kinds[t] == Truncate;
    forall r | r in db[t] ensures (t, r) !in rows ==> RowAfter(sch, db, (t, r), rows) == db[t][r] {
      assert (t, r) in AllRows(db);
      if (t, r) !in rows { OutsidersStay(sch, db, names, rows, rows, (t, r)); }
    }
    forall r | r in db[t] ensures (t, r) in rows <==> Deleted(kinds, plan.creator, (t, r)) {
      assert (t, r) in AllRows(db);
    }
  }

  /** With no hard key between deleted tables, and no SET NULL key on a referenced column, no table gets stuck, whatever cascades. */
  lemma NoHardKeyNeverStuck(sch: Schema, db: Db, kinds: Kinds, plan: Plan)
    requires PlanHolds(sch, db, kinds, plan) && PlainPlan(sch, db, plan)
    requires forall fk :: fk in sch.fks && Among(Elements(plan.order), fk) ==> !Hard(fk)
    requires forall k, g :: k in sch.fks && g in sch.fks && Among(Elements(plan.order), k) && k.onDelete == SetNull && g.parent == k.child ==>
      Disjoint(k.childCols, g.parentCols)
    ensures NeverStuck(sch, db, kinds, plan)
  {
    var start, names := Truncated(db, OfKind(db, kinds, Truncate)), Elements(plan.order);
    var rows := Targets(start, kinds, plan.creator, names);
    TruncatedIsTame(sch, db, kinds, plan);
    forall i: nat | i < |plan.order| ensures !Stuck(sch, start, kinds, plan, i) {
      PrefixTargets(start, kinds, plan, i);
      TargetsOfOneMore(start, kinds, plan, i);
      var gone := GoneBy(sch, start, kinds, plan, i + 1);
      ReachedStaysIn(sch, start, names, rows, Targets(start, kinds, plan.creator, Elements(plan.order[..i + 1])));
      forall fk, c, p | fk in sch.fks && p in gone && RefersTo(start, fk, c, p) ensures !Hard(fk) {
        assert c in rows;
      }
      forall fk, c, p ensures !StrandedBy(sch, start, gone, fk, c, p) {
        if fk in sch.fks && RefersTo(start, fk, c, p) { ReferencedStays(sch, start, names, rows, gone, fk, p); }
      }
    }
  }

  lemma ReferencedStays(sch: Schema, db: Db, names: set<Table>, rows: set<RowRef>, gone: set<RowRef>, fk: Fk, p: RowRef)
    requires Tame(sch, db, names, rows) && gone <= rows && p.0 == fk.parent
    requires forall k :: k in sch.fks && Among(names, k) && k.onDelete == SetNull && fk.parent == k.child ==> Disjoint(k.childCols, fk.parentCols)
    ensures !Loses(sch, db, p, gone, fk.parentCols)
  {
    forall k, col | k in sch.fks && k.onDelete == SetNull && Hits(db, k, p, gone) && col in fk.parentCols ensures col !in k.childCols {
      HitKeyIsPlain(sch, db, names, rows, gone, k, p);
    }
  }

  // ---------------------------------------------------------- final checks

  function KeptRows(db: Db, kinds: Kinds, creator: RowId, t: Table): map<RowId, Row>
    requires t in db
  {
    map r | r in db[t] && Kept(kinds, creator, (t, r)) :: db[t][r]
  }

  /** The counts and fingerprints compared before COMMIT; a fingerprint stands for the rows it is taken of. */
  predicate ChecksPass(db0: Db, db: Db, kinds: Kinds, creator: RowId)
    requires db.Keys == db0.Keys
  {
    && (forall t :: t in OfKind(db0, kinds, Truncate) + OfKind(db0, kinds, Wipe) ==> |db[t]| == 0)
    && (forall t :: t in OfKind(db0, kinds, Keep) + OfKind(db0, kinds, KeepCreator) ==>
          KeptRows(db, kinds, creator, t) == KeptRows(db0, kinds, creator, t))
    && (forall t :: t in OfKind(db0, kinds, KeepCreator) ==> |db[t]| == 1)
  }

  lemma OnlyElement(m: map<RowId, Row>, x: RowId)
    requires |m| == 1 && x in m
    ensures m.Keys == {x}
  {
    assert |m.Keys - {x}| == |m.Keys| - 1;
    assert m.Keys - {x} == {};
  }

  lemma ChecksGiveTable(db0: Db, db: Db, kinds: Kinds, creator: RowId, t: Table)
    requires db.Keys == db0.Keys <= kinds.Keys && t in db0 && kinds[t] != Decide
    requires kinds[t] == KeepCreator ==> creator in db0[t]
    requires ChecksPass(db0, db, kinds, creator)
    ensures db[t] == ResetRows(kinds, creator, t, db0[t])
  {
    assert t in OfKind(db0, kinds, kinds[t]);
    match kinds[t]
    case Keep =>
      assert KeptRows(db, kinds, creator, t) == db[t];
      assert KeptRows(db0, kinds, creator, t) == db0[t];
    case KeepCreator =>
      assert creator in KeptRows(db0, kinds, creator, t);
      assert creator in KeptRows(db, kinds, creator, t);
      OnlyElement(db[t], creator);
      assert db[t] == KeptRows(db, kinds, creator, t);
    case _ =>
  }

  /** The checks pass exactly on the database the reset promises. */
  lemma ChecksAreExact(db0: Db, db: Db, kinds: Kinds, creator: RowId)
    requires db.Keys == db0.Keys <= kinds.Keys && OfKind(db0, kinds, Decide) == {}
    requires forall t :: t in OfKind(db0, kinds, KeepCreator) ==> creator in db0[t]
    ensures ChecksPass(db0, db, kinds, creator) <==> IsReset(db0, db, kinds, creator)
  {
    if ChecksPass(db0, db, kinds, creator) {
      forall t | t in db0 ensures db[t] == ResetRows(kinds, creator, t, db0[t]) {
        assert t !in OfKind(db0, kinds, Decide);
        assert kinds[t] == KeepCreator ==> t in OfKind(db0, kinds, KeepCreator);
        ChecksGiveTable(db0, db, kinds, creator, t);
      }
    }
    if IsReset(db0, db, kinds, creator) { ResetPassesChecks(db0, db, kinds, creator); }
  }

  lemma ResetPassesChecks(db0: Db, db: Db, kinds: Kinds, creator: RowId)
    requires IsReset(db0, db, kinds, creator)
    requires forall t :: t in OfKind(db0, kinds, KeepCreator) ==> creator in db0[t]
    ensures ChecksPass(db0, db, kinds, creator)
  {
    forall t | t in OfKind(db0, kinds, KeepCreator) ensures |db[t]| == 1 {
      assert db[t].Keys == {creator};
      assert |db[t]| == |db[t].Keys|;
    }
  }

  // ------------------------------------------------------------ the script

  lemma OrderOfFacts(sch: Schema, db: Db, kinds: Kinds)
    requires OrderOf(sch, db, kinds).Ok?
    ensures var order := OrderOf(sch, db, kinds).value;
      Distinct(order) && Elements(order) == OfKind(db, kinds, Wipe) + OfKind(db, kinds, KeepCreator)
  {
    var wipe, users := OfKind(db, kinds, Wipe), OfKind(db, kinds, KeepCreator);
    var names := Elements(DeleteNames(db, kinds));
    SortedIsTheSet(wipe);
    SortedIsTheSet(users);
    forall t ensures t in names <==> t in wipe + users {
      assert t in DeleteNames(db, kinds) <==> t in Sorted(wipe) || t in Sorted(users);
    }
    HardEdgesAreEdges(names, sch.fks);
    OrderFromIsSound(Edges(names, sch.fks), HardEdges(names, sch.fks), names);
  }

  /** The checks one by one. */
  lemma PlannedParts(sch: Schema, db: Db, kinds: Kinds, expectKeep: nat)
    requires Planned(sch, db, kinds, expectKeep).Ok?
    ensures ValidKinds(sch, kinds) && db.Keys - kinds.Keys == {} && OfKind(db, kinds, Decide) == {}
    ensures |CreatorRows(sch, db)| == 1 && expectKeep == 1 && OrderOf(sch, db, kinds).Ok?
    ensures TruncateTables(sch, db, OfKind(db, kinds, Truncate)).Some?
    ensures var plan := Planned(sch, db, kinds, expectKeep).value;
      CreatorRows(sch, db) != {} && plan == Plan(Least(CreatorRows(sch, db)), OrderOf(sch, db, kinds).value)
      && !PointsAtDeleted(sch, db, kinds, plan.creator)
  {
    assert |CreatorRows(sch, db)| == 1;
    assert CreatorRows(sch, db) != {};
  }

  lemma PlannedHolds(sch: Schema, db: Db, kinds: Kinds, expectKeep: nat)
    requires Planned(sch, db, kinds, expectKeep).Ok?
    ensures PlanHolds(sch, db, kinds, Planned(sch, db, kinds, expectKeep).value)
  {
    PlannedParts(sch, db, kinds, expectKeep);
    OrderOfFacts(sch, db, kinds);
    var unclassified, plan := db.Keys - kinds.Keys, Planned(sch, db, kinds, expectKeep).value;
    forall t | t in db.Keys ensures t in kinds.Keys { assert t !in unclassified; }
    CreatorIsThere(sch, db, kinds, plan.creator);
  }

  lemma CreatorIsThere(sch: Schema, db: Db, kinds: Kinds, creator: RowId)
    requires ValidKinds(sch, kinds) && creator in CreatorRows(sch, db)
    ensures forall t :: t in OfKind(db, kinds, KeepCreator) ==> creator in db[t]
  {
  }

  /** A hard key's child table comes before its parent table. */
  ghost predicate InOrder(sch: Schema, plan: Plan) {
    HardRespected(KeyPairs(Elements(plan.order), sch.fks, true), plan.order)
  }

  // ------------------------------------- what the planning checks ask for

  /** The one account with the role of creator. */
  predicate IsCreator(sch: Schema, db: Db, creator: RowId) {
    sch.users in db && creator in db[sch.users]
    && forall id :: id in db[sch.users] ==> (At(db[sch.users][id], "platform_role") == Value("creator") <==> id == creator)
  }

  /** The row is there after the reset. */
  predicate Stays(kinds: Kinds, creator: RowId, c: RowRef) {
    c.0 in kinds && (kinds[c.0] == Keep || kinds[c.0] == Decide || (kinds[c.0] == KeepCreator && c.1 == creator))
  }

  ghost predicate LeavesNothingDangling(sch: Schema, db: Db, kinds: Kinds, creator: RowId) {
    forall fk, c, p :: fk in sch.fks && RefersTo(db, fk, c, p) && p.0 in kinds && Stays(kinds, creator, c) ==> Stays(kinds, creator, p)
  }

  /** keep-creator is said of the users table and of no other. */
  predicate UsersAlone(sch: Schema, kinds: Kinds) {
    sch.users in kinds && forall t :: t in kinds ==> (kinds[t] == KeepCreator <==> t == sch.users)
  }

  /** The tables the reset deletes from row by row. */
  function DeletedFrom(db: Db, kinds: Kinds): set<Table> {
    set t | t in db && t in kinds && kinds[t] in {Wipe, KeepCreator}
  }

  /** A table outside the truncated ones has a key to one of them. */
  predicate TruncateSpills(sch: Schema, db: Db, kinds: Kinds, fk: Fk) {
    fk.parent in db && fk.parent in kinds && kinds[fk.parent] == Truncate
    && !(fk.child in db && fk.child in kinds && kinds[fk.child] == Truncate)
  }

  ghost predicate Acceptable(sch: Schema, db: Db, kinds: Kinds, expectKeep: nat) {
    && UsersAlone(sch, kinds) && (forall t :: t in db ==> t in kinds && kinds[t] != Decide) && expectKeep == 1
    && (exists creator :: IsCreator(sch, db, creator) && LeavesNothingDangling(sch, db, kinds, creator))
    && !HasCycle(KeyPairs(DeletedFrom(db, kinds), sch.fks, true))
    && forall fk :: fk in sch.fks ==> !TruncateSpills(sch, db, kinds, fk)
  }

  /** What a refusal says of the database and its classification. */
  ghost predicate Reason(sch: Schema, db: Db, kinds: Kinds, expectKeep: nat, refusal: Refusal) {
    match refusal
    case BadClassification => !UsersAlone(sch, kinds)
    case Unclassified(tables) => tables != {} && forall t :: t in tables <==> t in db && t !in kinds
    case Undecided(tables) => tables != {} && forall t :: t in tables <==> t in db && t in kinds && kinds[t] == Decide
    case Creators(count) => count != 1 && forall id :: !IsCreator(sch, db, id)
    case ExpectKeep => expectKeep != 1
    case HardCycle(tables) => tables != {} && HasCycle(KeyPairs(DeletedFrom(db, kinds), sch.fks, true))
    case KeptRowsPointAtDeleted => exists creator :: IsCreator(sch, db, creator) && !LeavesNothingDangling(sch, db, kinds, creator)
    case TruncateReaches => exists fk :: fk in sch.fks && TruncateSpills(sch, db, kinds, fk)
    case _ => false
  }

  /** The checks in the terms of the code. */
  lemma CreatorRowsAre(sch: Schema, db: Db, creator: RowId)
    ensures CreatorRows(sch, db) == {creator} <==> IsCreator(sch, db, creator)
  {
    var rows := CreatorRows(sch, db);
    if IsCreator(sch, db, creator) { assert forall id :: id in rows <==> id == creator; }
    if rows == {creator} {
      assert creator in rows;
      forall id | id in db[sch.users] && id != creator ensures At(db[sch.users][id], "platform_role") != Value("creator") {
        assert id !in rows;
      }
    }
  }

  lemma DanglingIs(sch: Schema, db: Db, kinds: Kinds, creator: RowId)
    ensures PointsAtDeleted(sch, db, kinds, creator) <==> !LeavesNothingDangling(sch, db, kinds, creator)
  {
    forall c: RowRef | c.0 in kinds ensures Kept(kinds, creator, c) == Stays(kinds, creator, c) && Deleted(kinds, creator, c) == !Stays(kinds, creator, c) {
    }
    forall fk, c, p | fk in sch.fks && RefersTo(db, fk, c, p) ensures c in AllRows(db) && p in AllRows(db) {
    }
  }

  lemma DeletedFromIs(db: Db, kinds: Kinds)
    ensures Elements(DeleteNames(db, kinds)) == DeletedFrom(db, kinds)
  {
    SortedIsTheSet(OfKind(db, kinds, Wipe));
    SortedIsTheSet(OfKind(db, kinds, KeepCreator));
    forall t ensures t in Elements(DeleteNames(db, kinds)) <==> t in DeletedFrom(db, kinds) {
      assert t in DeleteNames(db, kinds) <==> t in Sorted(OfKind(db, kinds, Wipe)) || t in Sorted(OfKind(db, kinds, KeepCreator));
    }
  }

  lemma OneCreator(creators: set<RowId>)
    ensures |creators| == 1 <==> exists creator :: creators == {creator}
    ensures |creators| == 1 ==> creators == {Least(creators)}
  {
    if |creators| == 1 {
      var x := Least(creators);
      assert |creators - {x}| == 0;
      assert creators == {x};
    }
  }

  lemma OrderRefusesOnCycles(sch: Schema, db: Db, kinds: Kinds)
    ensures var r, hard := OrderOf(sch, db, kinds), KeyPairs(DeletedFrom(db, kinds), sch.fks, true);
      && (r.Err? <==> HasCycle(hard))
      && (r.Ok? ==> Elements(r.value) == DeletedFrom(db, kinds) && HardRespected(hard, r.value))
      && (r.Err? ==> r.error != {})
  {
    DeletedFromIs(db, kinds);
    OrderRefusesExactlyOnHardCycles(DeleteNames(db, kinds), sch.fks);
    HardEdgesAreEdges(DeletedFrom(db, kinds), sch.fks);
    OrderFromIsSound(Edges(DeletedFrom(db, kinds), sch.fks), HardEdges(DeletedFrom(db, kinds), sch.fks), DeletedFrom(db, kinds));
  }

  lemma TruncateSpillsIs(sch: Schema, db: Db, kinds: Kinds)
    ensures TruncateTables(sch, db, OfKind(db, kinds, Truncate)).None? <==> exists fk :: fk in sch.fks && TruncateSpills(sch, db, kinds, fk)
  {
    forall fk | fk in sch.fks
      ensures (fk.parent in OfKind(db, kinds, Truncate) && fk.child !in OfKind(db, kinds, Truncate)) == TruncateSpills(sch, db, kinds, fk)
    {
    }
  }

  lemma AcceptableIsPlanned(sch: Schema, db: Db, kinds: Kinds, expectKeep: nat)
    requires Acceptable(sch, db, kinds, expectKeep)
    ensures Planned(sch, db, kinds, expectKeep).Ok?
  {
    OrderRefusesOnCycles(sch, db, kinds);
    TruncateSpillsIs(sch, db, kinds);
    var creator :| IsCreator(sch, db, creator) && LeavesNothingDangling(sch, db, kinds, creator);
    CreatorRowsAre(sch, db, creator);
    OneCreator(CreatorRows(sch, db));
    DanglingIs(sch, db, kinds, creator);
    assert db.Keys - kinds.Keys == {};
  }

  lemma PlannedIsAcceptable(sch: Schema, db: Db, kinds: Kinds, expectKeep: nat)
    requires Planned(sch, db, kinds, expectKeep).Ok?
    ensures Acceptable(sch, db, kinds, expectKeep)
    ensures var plan := Planned(sch, db, kinds, expectKeep).value; IsCreator(sch, db, plan.creator) && InOrder(sch, plan)
  {
    PlannedParts(sch, db, kinds, expectKeep);
    OrderRefusesOnCycles(sch, db, kinds);
    TruncateSpillsIs(sch, db, kinds);
    var creator, unclassified := Planned(sch, db, kinds, expectKeep).value.creator, db.Keys - kinds.Keys;
    OneCreator(CreatorRows(sch, db));
    CreatorRowsAre(sch, db, creator);
    DanglingIs(sch, db, kinds, creator);
    forall t | t in db ensures t in kinds && kinds[t] != Decide { assert t !in unclassified && t !in OfKind(db, kinds, Decide); }
  }

  /** Planning passes exactly when all that is so, with the one creator; a refusal is for its reason. */
  lemma PlannedExactly(sch: Schema, db: Db, kinds: Kinds, expectKeep: nat)
    ensures Planned(sch, db, kinds, expectKeep).Ok? <==> Acceptable(sch, db, kinds, expectKeep)
    ensures var r := Planned(sch, db, kinds, expectKeep);
      && (r.Ok? ==> PlanHolds(sch, db, kinds, r.value) && InOrder(sch, r.value) && IsCreator(sch, db, r.value.creator))
      && (r.Err? ==> Reason(sch, db, kinds, expectKeep, r.error))
  {
    if Planned(sch, db, kinds, expectKeep).Ok? {
      PlannedHolds(sch, db, kinds, expectKeep);
      PlannedIsAcceptable(sch, db, kinds, expectKeep);
    } else {
      if Acceptable(sch, db, kinds, expectKeep) { AcceptableIsPlanned(sch, db, kinds, expectKeep); }
      JudgedBy(Find(sch, db, kinds, expectKeep));
      RefusedForReason(sch, db, kinds, expectKeep, Planned(sch, db, kinds, expectKeep).error);
    }
  }

  predicate RefusedBy(f: Findings, refusal: Refusal) {
    match refusal
    case BadClassification => !f.valid
    case Unclassified(tables) => tables == f.unclassified && tables != {}
    case Undecided(tables) => tables == f.undecided && tables != {}
    case Creators(count) => count == |f.creators| && count != 1
    case ExpectKeep => !f.keepsOne
    case HardCycle(tables) => f.order == Err(tables)
    case KeptRowsPointAtDeleted => |f.creators| == 1 && f.pointing
    case TruncateReaches => f.spills
    case _ => false
  }

  lemma JudgedBy(f: Findings)
    requires Judge(f).Err?
    ensures RefusedBy(f, Judge(f).error)
  {
  }

  lemma RefusedForReason(sch: Schema, db: Db, kinds: Kinds, expectKeep: nat, refusal: Refusal)
    requires RefusedBy(Find(sch, db, kinds, expectKeep), refusal)
    ensures Reason(sch, db, kinds, expectKeep, refusal)
  {
    match refusal
    case Creators(_) =>
      OneCreator(CreatorRows(sch, db));
      forall id: RowId ensures !IsCreator(sch, db, id) { CreatorRowsAre(sch, db, id); }
    case HardCycle(_) => OrderRefusesOnCycles(sch, db, kinds);
    case KeptRowsPointAtDeleted =>
      var creator := Least(CreatorRows(sch, db));
      OneCreator(CreatorRows(sch, db));
      CreatorRowsAre(sch, db, creator);
      DanglingIs(sch, db, kinds, creator);
    case TruncateReaches => TruncateSpillsIs(sch, db, kinds);
    case _ =>
  }

  /** Where `Execute` stands before table `i` of the order. */
  ghost predicate Progress(sch: Schema, before: Db, now: Db, kinds: Kinds, plan: Plan, i: nat, ok: bool) {
    var start := Truncated(before, OfKind(before, kinds, Truncate));
    && i <= |plan.order| && now.Keys == before.Keys && PlanHolds(sch, before, kinds, plan)
    && (KeysHold(sch, before) && SafeToRun(sch, plan.order) ==> ok && Midway(sch, before, now, kinds, plan, Elements(plan.order[..i])))
    && (PlainPlan(sch, before, plan) && ok ==> Standing(sch, start, now, kinds, plan, i) && NoneStuck(sch, start, kinds, plan, i))
    && (PlainPlan(sch, before, plan) && !ok ==> !NoneStuck(sch, start, kinds, plan, i))
  }

  ghost predicate NoneStuck(sch: Schema, db: Db, kinds: Kinds, plan: Plan, i: nat)
    requires i <= |plan.order|
  {
    forall k: nat :: k < i ==> !Stuck(sch, db, kinds, plan, k)
  }

  lemma ProgressStarts(sch: Schema, before: Db, kinds: Kinds, plan: Plan)
    requires PlanHolds(sch, before, kinds, plan)
    ensures Progress(sch, before, Truncated(before, OfKind(before, kinds, Truncate)), kinds, plan, 0, true)
  {
    if KeysHold(sch, before) && SafeToRun(sch, plan.order) {
      assert Elements(plan.order[..0]) == {};
      MidwayStarts(sch, before, kinds, plan);
    }
    if PlainPlan(sch, before, plan) {
      TruncatedIsTame(sch, before, kinds, plan);
      GoneStart(sch, Truncated(before, OfKind(before, kinds, Truncate)), kinds, plan);
    }
  }

  lemma ProgressStep(sch: Schema, before: Db, now: Db, kinds: Kinds, plan: Plan, i: nat)
    requires Progress(sch, before, now, kinds, plan, i, true) && i < |plan.order|
    ensures plan.order[i] in now
    ensures var r := DeleteRows(sch, now, plan.order[i], GoneRows(now, kinds, plan, plan.order[i]));
      Progress(sch, before, if r.Some? then r.value else now, kinds, plan, i + 1, r.Some?)
  {
    assert plan.order[i] in Elements(plan.order);
    if KeysHold(sch, before) && SafeToRun(sch, plan.order) { DeleteStep(sch, before, now, kinds, plan, i); }
    if PlainPlan(sch, before, plan) {
      TruncatedIsTame(sch, before, kinds, plan);
      DeleteStands(sch, Truncated(before, OfKind(before, kinds, Truncate)), now, kinds, plan, i);
    }
  }

  lemma ProgressEnds(sch: Schema, before: Db, now: Db, kinds: Kinds, plan: Plan, i: nat, ok: bool)
    requires Progress(sch, before, now, kinds, plan, i, ok) && (ok ==> i == |plan.order|)
    ensures KeysHold(sch, before) && SafeToRun(sch, plan.order) ==> ok && IsReset(before, now, kinds, plan.creator)
    ensures PlainPlan(sch, before, plan) ==>
      (ok <==> NeverStuck(sch, before, kinds, plan)) && (ok ==> IsReset(before, now, kinds, plan.creator))
  {
    if KeysHold(sch, before) && SafeToRun(sch, plan.order) {
      assert plan.order[..i] == plan.order;
      MidwayEnds(sch, before, now, kinds, plan);
    }
    if PlainPlan(sch, before, plan) && ok { StandingEnds(sch, before, now, kinds, plan); }
  }

  /** A key of this kind that the column belongs to refers to a row that goes. */
  predicate LostParent(sch: Schema, db: Db, c: RowRef, gone: set<RowRef>, col: Column, how: OnDelete) {
    exists fk, p :: fk in sch.fks && fk.onDelete == how && col in fk.childCols && p in gone && RefersTo(db, fk, c, p)
  }

  lemma LostParentClears(sch: Schema, db: Db, c: RowRef, gone: set<RowRef>, col: Column, how: OnDelete)
    ensures Clears(sch, db, c, gone, col, how) == LostParent(sch, db, c, gone, col, how)
  {
    if LostParent(sch, db, c, gone, col, how) {
      var fk, p :| fk in sch.fks && fk.onDelete == how && col in fk.childCols && p in gone && RefersTo(db, fk, c, p);
      assert Hits(db, fk, c, gone);
    }
  }

  /** What is left in a column of a row that stays. */
  function Left(sch: Schema, db: Db, gone: set<RowRef>, c: RowRef, col: Column): Val
    requires c.0 in db && c.1 in db[c.0] && col in db[c.0][c.1]
  {
    if LostParent(sch, db, c, gone, col, SetNull) then Null
    else if LostParent(sch, db, c, gone, col, SetDefault) then DefaultOf(sch, c.0, col)
    else db[c.0][c.1][col]
  }

  lemma SurvivorColumn(sch: Schema, db: Db, gone: set<RowRef>, c: RowRef, col: Column)
    requires c in AllRows(Survivors(sch, db, gone))
    ensures Survivors(sch, db, gone)[c.0][c.1].Keys == db[c.0][c.1].Keys
    ensures col in db[c.0][c.1] ==> Survivors(sch, db, gone)[c.0][c.1][col] == Left(sch, db, gone, c, col)
  {
    LostParentClears(sch, db, c, gone, col, SetNull);
    LostParentClears(sch, db, c, gone, col, SetDefault);
  }

  class Database {
    const sch: Schema
    var tables: Db

    constructor (sch: Schema, tables: Db)
      ensures this.sch == sch && this.tables == tables
    {
      this.sch, this.tables := sch, tables;
    }

    method TruncateAll(list: set<Table>) returns (ok: bool)
      modifies this
      ensures ok <==> TruncateTables(sch, old(tables), list).Some?
      ensures tables == if ok then TruncateTables(sch, old(tables), list).value else old(tables)
      ensures tables.Keys == old(tables).Keys
    {
      var r := TruncateTables(sch, tables, list);
      ok := r.Some?;
      if ok { tables := r.value; }
    }

    /**
     * DELETE FROM t: what a cascade reaches goes, all of it and nothing else; the
     * rows that stay lose the columns whose parent went; every key still holds. It
     * fails, and changes nothing, exactly when a hard key holds a row back, or a
     * row that stays refers to a column that is cleared.
     */
    method DeleteFrom(t: Table, where: set<RowId>) returns (ok: bool)
      requires t in tables && where <= tables[t].Keys
      modifies this
      ensures tables.Keys == old(tables).Keys && (!ok ==> tables == old(tables))
      ensures ok <==> DeleteRows(sch, old(tables), t, where).Some?
      ensures ok ==> tables == DeleteRows(sch, old(tables), t, where).value && KeysHold(sch, tables)
      ensures RowRefs(t, where) <= AllRows(old(tables))
      ensures ok ==> AllRows(tables) == AllRows(old(tables)) - Reached(sch, old(tables), RowRefs(t, where))
      ensures ok ==> forall c :: c in AllRows(tables) ==> tables[c.0][c.1].Keys == old(tables)[c.0][c.1].Keys
      ensures ok ==> forall c, col :: c in AllRows(tables) && col in old(tables)[c.0][c.1] ==>
        tables[c.0][c.1][col] == Left(sch, old(tables), Reached(sch, old(tables), RowRefs(t, where)), c, col)
      ensures forall names, rows :: Tame(sch, old(tables), names, rows) && RowRefs(t, where) <= rows ==>
        (!ok <==> (Obstructed(sch, old(tables), Reached(sch, old(tables), RowRefs(t, where)))
                   || CaughtEarly(sch, old(tables), RowRefs(t, where), Reached(sch, old(tables), RowRefs(t, where)))))
    {
      assert RowRefs(t, where) <= AllRows(tables);
      SurvivorRows(sch, tables, Reached(sch, tables, RowRefs(t, where)));
      forall names, rows | Tame(sch, tables, names, rows) && RowRefs(t, where) <= rows
        ensures var doomed := Reached(sch, tables, RowRefs(t, where));
          DeleteRows(sch, tables, t, where).None? <==> Obstructed(sch, tables, doomed) || CaughtEarly(sch, tables, RowRefs(t, where), doomed)
      {
        DeleteFailsExactly(sch, tables, names, rows, t, where);
      }
      var r := DeleteRows(sch, tables, t, where);
      ok := r.Some?;
      if ok {
        forall c, col | c in AllRows(r.value)
          ensures r.value[c.0][c.1].Keys == tables[c.0][c.1].Keys
          ensures col in tables[c.0][c.1] ==> r.value[c.0][c.1][col] == Left(sch, tables, Reached(sch, tables, RowRefs(t, where)), c, col)
        {
          SurvivorColumn(sch, tables, Reached(sch, tables, RowRefs(t, where)), c, col);
        }
        tables := r.value;
      }
    }

    /** The planning phase: it only reads. */
    method MakePlan(kinds: Kinds, expectKeep: nat) returns (r: Result<Plan, Refusal>)
      ensures r == Planned(sch, tables, kinds, expectKeep)
      ensures r.Ok? <==> Acceptable(sch, tables, kinds, expectKeep)
      ensures r.Ok? ==> PlanHolds(sch, tables, kinds, r.value) && InOrder(sch, r.value) && IsCreator(sch, tables, r.value.creator)
      ensures r.Err? ==> Reason(sch, tables, kinds, expectKeep, r.error)
    {
      PlannedExactly(sch, tables, kinds, expectKeep);
      if !ValidKinds(sch, kinds) { return Err(BadClassification); }
      var unclassified := tables.Keys - kinds.Keys;
      if unclassified != {} { return Err(Unclassified(unclassified)); }
      var undecided := OfKind(tables, kinds, Decide);
      if undecided != {} { return Err(Undecided(undecided)); }
      var creators := CreatorRows(sch, tables);
      if |creators| != 1 { return Err(Creators(|creators|)); }
      if expectKeep != 1 { return Err(ExpectKeep); }
      var creator := Least(creators);
      var ordered := Order(DeleteNames(tables, kinds), sch.fks);
      if ordered.Err? { return Err(HardCycle(ordered.error)); }
      if PointsAtDeleted(sch, tables, kinds, creator) { return Err(KeptRowsPointAtDeleted); }
      var truncate := OfKind(tables, kinds, Truncate);
      if exists fk :: fk in sch.fks && fk.parent in truncate && fk.child !in truncate { return Err(TruncateReaches); }
      return Ok(Plan(creator, ordered.value));
    }

    /**
     * The statements of the plan. They all succeed, and do what was promised, when
     * the plan is safe to run; and, with plain keys, exactly when no table's rows
     * get stuck.
     */
    method Execute(kinds: Kinds, plan: Plan) returns (ok: bool)
      requires PlanHolds(sch, tables, kinds, plan)
      modifies this
      ensures tables.Keys == old(tables).Keys
      ensures KeysHold(sch, old(tables)) && SafeToRun(sch, plan.order) ==> ok && IsReset(old(tables), tables, kinds, plan.creator)
      ensures PlainPlan(sch, old(tables), plan) ==>
        (ok <==> NeverStuck(sch, old(tables), kinds, plan)) && (ok ==> IsReset(old(tables), tables, kinds, plan.creator))
    {
      ghost var before := tables;
      var order := plan.order;
      ok := TruncateAll(OfKind(tables, kinds, Truncate));
      ProgressStarts(sch, before, kinds, plan);
      var i := 0;
      while ok && i < |order|
        invariant Progress(sch, before, tables, kinds, plan, i, ok)
      {
        var t := order[i];
        ProgressStep(sch, before, tables, kinds, plan, i);
        var where := set row | row in tables[t] && Deleted(kinds, plan.creator, (t, row));
        assert where == GoneRows(tables, kinds, plan, t);
        ok := DeleteFrom(t, where);
        i := i + 1;
      }
      ProgressEnds(sch, before, tables, kinds, plan, i, ok);
    }

    /**
     * `--apply`. Whatever goes wrong, the transaction is rolled back. A run that
     * commits leaves exactly the database promised. Once planning passes on a
     * database whose keys hold, a plan that is safe to run always commits, and one
     * with plain keys commits exactly when no table's rows get stuck.
     */
    method Reset(kinds: Kinds, expectKeep: nat) returns (r: Result<Plan, Refusal>)
      modifies this
      ensures r.Err? ==> tables == old(tables)
      ensures Planned(sch, old(tables), kinds, expectKeep).Err? ==> r == Planned(sch, old(tables), kinds, expectKeep)
      ensures r.Ok? ==> r == Planned(sch, old(tables), kinds, expectKeep) && IsReset(old(tables), tables, kinds, r.value.creator)
      ensures r.Ok? ==> Acceptable(sch, old(tables), kinds, expectKeep) && IsCreator(sch, old(tables), r.value.creator)
      ensures r.Err? && r.error != StatementFailed && r.error != CheckFailed ==>
        !Acceptable(sch, old(tables), kinds, expectKeep) && Reason(sch, old(tables), kinds, expectKeep, r.error)
      ensures var p := Planned(sch, old(tables), kinds, expectKeep);
        p.Ok? && KeysHold(sch, old(tables)) && SafeToRun(sch, p.value.order) ==> r == p
      ensures var p := Planned(sch, old(tables), kinds, expectKeep);
        p.Ok? && PlainPlan(sch, old(tables), p.value) ==>
          r == if NeverStuck(sch, old(tables), kinds, p.value) then p else Err(StatementFailed)
    {
      r := MakePlan(kinds, expectKeep);
      if r.Err? { return; }
      var before, plan := tables, r.value;
      PlannedHolds(sch, before, kinds, expectKeep);
      var ok := Execute(kinds, plan);
      ChecksAreExact(before, tables, kinds, plan.creator);
      if !ok {
        tables := before;
        return Err(StatementFailed);
      }
      if !ChecksPass(before, tables, kinds, plan.creator) {
        tables := before;
        return Err(CheckFailed);
      }
    }
  }

  /** With no cycle among the deleted tables the order crosses no key, and the plan is safe to run. */
  lemma NoCycleNothingCrossed(sch: Schema, db: Db, kinds: Kinds, expectKeep: nat)
    requires Planned(sch, db, kinds, expectKeep).Ok?
    requires !HasCycle(KeyPairs(DeletedFrom(db, kinds), sch.fks, false))
    requires forall fk :: fk in sch.fks ==> |fk.childCols| > 0
    ensures SafeToRun(sch, Planned(sch, db, kinds, expectKeep).value.order)
  {
    var names := DeleteNames(db, kinds);
    var order := Planned(sch, db, kinds, expectKeep).value.order;
    DeletedFromIs(db, kinds);
    EdgesAreKeyPairs(Elements(names), sch.fks);
    HardEdgesAreEdges(Elements(names), sch.fks);
    OrderFromIsSound(Edges(Elements(names), sch.fks), HardEdges(Elements(names), sch.fks), Elements(names));
    forall fk | fk in sch.fks ensures !Crosses(order, fk) {
      if Crosses(order, fk) {
        var i, j :| 0 <= i < j < |order| && order[i] == fk.parent && order[j] == fk.child;
        assert order[i] in Elements(order) && order[j] in Elements(order);
        assert (order[j], order[i]) in KeyPairs(Elements(names), sch.fks, false);
        CrossedKeysComeFromCycles(names, sch.fks, i, j);
      }
    }
  }
}
