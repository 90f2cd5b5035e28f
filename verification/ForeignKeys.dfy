/**
 * Tables, foreign keys, and what PostgreSQL's DELETE and TRUNCATE do to them:
 * cascades, cleared columns, and exactly when a DELETE fails. Several DELETEs one
 * after another remove and clear what a single one of all their rows would.
 */
module ForeignKeys {
  import opened Common
  import opened DeleteOrder

  type RowId = nat

  datatype Val = Null | Value(text: string)

  type Row = map<Column, Val>

  /** Each table's rows by primary key. */
  type Db = map<Table, map<RowId, Row>>

  type RowRef = (Table, RowId)

  /**
   * `early` is the database's choice. PostgreSQL checks the hard keys of the rows
   * that go, RESTRICT and NO ACTION alike, after the statement has removed its own
   * rows, but its order among cascades and checks follows the names of triggers:
   * the references in `early` are checked before a cascade removes the referring
   * row or clears its columns.
   */
  datatype Schema = Schema(
    fks: seq<Fk>, users: Table, defaults: map<(Table, Column), Val>,
    early: set<(Fk, RowRef, RowRef)>)

  // --------------------------------------------------------- foreign keys

  function At(row: Row, c: Column): Val { if c in row then row[c] else Null }

  function Tuple(row: Row, cols: seq<Column>): seq<Val> {
    seq(|cols|, i requires 0 <= i < |cols| => At(row, cols[i]))
  }

  /** MATCH SIMPLE: a key with a null column refers to nothing. */
  predicate Refers(fk: Fk, child: Row, parent: Row) {
    var key := Tuple(child, fk.childCols);
    Null !in key && key == Tuple(parent, fk.parentCols)
  }

  function AllRows(db: Db): set<RowRef> {
    set t, r | t in db && r in db[t] :: (t, r)
  }

  predicate RefersTo(db: Db, fk: Fk, c: RowRef, p: RowRef) {
    && c.0 == fk.child && p.0 == fk.parent
    && c.0 in db && c.1 in db[c.0] && p.0 in db && p.1 in db[p.0]
    && Refers(fk, db[c.0][c.1], db[p.0][p.1])
  }

  predicate Hits(db: Db, fk: Fk, c: RowRef, doomed: set<RowRef>) {
    exists p :: p in doomed && RefersTo(db, fk, c, p)
  }

  predicate KeyHolds(db: Db, fk: Fk, c: RowRef)
    requires c.0 in db && c.1 in db[c.0]
  {
    c.0 == fk.child ==> Null in Tuple(db[c.0][c.1], fk.childCols) || Hits(db, fk, c, AllRows(db))
  }

  predicate KeysHold(sch: Schema, db: Db) {
    forall fk, c {:trigger KeyHolds(db, fk, c)} :: fk in sch.fks && c in AllRows(db) ==> KeyHolds(db, fk, c)
  }

  // ------------------------------------------------------------ statements

  function Cascaded(sch: Schema, db: Db, doomed: set<RowRef>): set<RowRef> {
    set c | c in AllRows(db) && exists fk :: fk in sch.fks && fk.onDelete == Cascade && Hits(db, fk, c, doomed)
  }

  /** Everything ON DELETE CASCADE reaches from `doomed`. */
  function Reached(sch: Schema, db: Db, doomed: set<RowRef>): set<RowRef>
    requires doomed <= AllRows(db)
    decreases AllRows(db) - doomed
  {
    var more := doomed + Cascaded(sch, db, doomed);
    if more == doomed then doomed else Reached(sch, db, more)
  }

  predicate Clears(sch: Schema, db: Db, c: RowRef, doomed: set<RowRef>, col: Column, how: OnDelete) {
    exists fk :: fk in sch.fks && fk.onDelete == how && col in fk.childCols && Hits(db, fk, c, doomed)
  }

  function DefaultOf(sch: Schema, t: Table, col: Column): Val {
    if (t, col) in sch.defaults then sch.defaults[(t, col)] else Null
  }

  /** What SET NULL and SET DEFAULT make of a row that survives. */
  function RowAfter(sch: Schema, db: Db, c: RowRef, doomed: set<RowRef>): Row
    requires c.0 in db && c.1 in db[c.0]
  {
    map col | col in db[c.0][c.1] ::
      if Clears(sch, db, c, doomed, col, SetNull) then Null
      else if Clears(sch, db, c, doomed, col, SetDefault) then DefaultOf(sch, c.0, col)
      else db[c.0][c.1][col]
  }

  function Survivors(sch: Schema, db: Db, doomed: set<RowRef>): Db {
    map t | t in db :: map r | r in db[t] && (t, r) !in doomed :: RowAfter(sch, db, (t, r), doomed)
  }

  function RowRefs(t: Table, where: set<RowId>): set<RowRef> {
    set r | r in where :: (t, r)
  }

  /** A hard key checked early finds a row, none of the statement's own, that refers to one that goes. */
  predicate CaughtEarly(sch: Schema, db: Db, start: set<RowRef>, doomed: set<RowRef>) {
    exists e :: e in sch.early && e.0 in sch.fks && Hard(e.0) && e.1 !in start && e.2 in doomed && RefersTo(db, e.0, e.1, e.2)
  }

  /** DELETE FROM t WHERE id IN `where`. It fails when a hard key is checked early in vain, or a key is broken once all is done. */
  function DeleteRows(sch: Schema, db: Db, t: Table, where: set<RowId>): Option<Db>
    requires t in db && where <= db[t].Keys
  {
    var doomed := Reached(sch, db, RowRefs(t, where));
    var db' := Survivors(sch, db, doomed);
    if CaughtEarly(sch, db, RowRefs(t, where), doomed) || !KeysHold(sch, db') then None else Some(db')
  }

  function Truncated(db: Db, list: set<Table>): Db { map t | t in db :: if t in list then map[] else db[t] }

  /** TRUNCATE `list` RESTRICT: refused when a table outside the list has a key to one in it. */
  function TruncateTables(sch: Schema, db: Db, list: set<Table>): Option<Db> {
    if exists fk :: fk in sch.fks && fk.parent in list && fk.child !in list then None
    else Some(Truncated(db, list))
  }

  // ------------------------------------------------- what a cascade reaches

  predicate CascadeClosed(sch: Schema, db: Db, rows: set<RowRef>) { Cascaded(sch, db, rows) <= rows }

  lemma CascadedIn(sch: Schema, db: Db, rows: set<RowRef>, fk: Fk, c: RowRef, p: RowRef)
    requires fk in sch.fks && fk.onDelete == Cascade && p in rows && RefersTo(db, fk, c, p)
    ensures c in Cascaded(sch, db, rows)
  {
    assert Hits(db, fk, c, rows);
  }

  /** What a cascade reaches is closed under cascading, and the least such set around where it starts. */
  lemma {:induction false} ReachedIsClosed(sch: Schema, db: Db, start: set<RowRef>)
    requires start <= AllRows(db)
    ensures start <= Reached(sch, db, start) <= AllRows(db) && CascadeClosed(sch, db, Reached(sch, db, start))
    decreases AllRows(db) - start
  {
    var more := start + Cascaded(sch, db, start);
    if more != start { ReachedIsClosed(sch, db, more); }
  }

  lemma CascadedGrows(sch: Schema, db: Db, a: set<RowRef>, b: set<RowRef>)
    requires a <= b
    ensures Cascaded(sch, db, a) <= Cascaded(sch, db, b)
  {
    forall c | c in Cascaded(sch, db, a) ensures c in Cascaded(sch, db, b) {
      var fk :| fk in sch.fks && fk.onDelete == Cascade && Hits(db, fk, c, a);
      var p :| p in a && RefersTo(db, fk, c, p);
      CascadedIn(sch, db, b, fk, c, p);
    }
  }

  lemma {:induction false} ReachedIsLeast(sch: Schema, db: Db, start: set<RowRef>, rows: set<RowRef>)
    requires start <= rows && start <= AllRows(db) && CascadeClosed(sch, db, rows)
    ensures Reached(sch, db, start) <= rows
    decreases AllRows(db) - start
  {
    var more := start + Cascaded(sch, db, start);
    CascadedGrows(sch, db, start, rows);
    if more != start { ReachedIsLeast(sch, db, more, rows); }
  }

  // ---------------------------------------------------- plain foreign keys

  /** Between these tables no key is SET DEFAULT. */
  predicate PlainKeys(sch: Schema, names: set<Table>) {
    forall fk :: fk in sch.fks && Among(names, fk) ==> |fk.childCols| > 0 && fk.onDelete != SetDefault
  }

  predicate Among(names: set<Table>, fk: Fk) { fk.child in names && fk.parent in names }

  predicate Disjoint(a: seq<Column>, b: seq<Column>) { forall col :: col in a ==> col !in b }

  /** Between these tables a SET NULL key shares no column with another key of its table. */
  predicate OwnColumns(sch: Schema, names: set<Table>) {
    forall k, g :: k in sch.fks && g in sch.fks && g != k && g.child == k.child && Among(names, k) && Among(names, g) ==>
      k.onDelete == SetNull ==> Disjoint(k.childCols, g.childCols)
  }

  /** Referenced columns are unique, as PostgreSQL requires. */
  ghost predicate OneParent(sch: Schema, db: Db) {
    forall fk, c, p, q :: fk in sch.fks && RefersTo(db, fk, c, p) && RefersTo(db, fk, c, q) ==> p == q
  }

  /** Rows of `names` that only each other refer to. */
  ghost predicate SelfContained(sch: Schema, db: Db, names: set<Table>, rows: set<RowRef>) {
    && rows <= AllRows(db) && (forall r :: r in rows ==> r.0 in names)
    && forall fk, c, p :: fk in sch.fks && p in rows && RefersTo(db, fk, c, p) ==> c in rows
  }

  ghost predicate Tame(sch: Schema, db: Db, names: set<Table>, rows: set<RowRef>) {
    PlainKeys(sch, names) && OneParent(sch, db) && KeysHold(sch, db) && SelfContained(sch, db, names, rows)
  }

  // -------------------------------------- references among the survivors

  /** A row that is not among `rows` is left as it is. */
  lemma OutsidersStay(sch: Schema, db: Db, names: set<Table>, rows: set<RowRef>, gone: set<RowRef>, c: RowRef)
    requires SelfContained(sch, db, names, rows) && gone <= rows && c in AllRows(db) && c !in rows
    ensures RowAfter(sch, db, c, gone) == db[c.0][c.1]
  {
    forall fk | fk in sch.fks ensures !Hits(db, fk, c, gone) {
    }
  }

  lemma HitKeyIsPlain(sch: Schema, db: Db, names: set<Table>, rows: set<RowRef>, gone: set<RowRef>, fk: Fk, c: RowRef)
    requires Tame(sch, db, names, rows) && gone <= rows && fk in sch.fks && Hits(db, fk, c, gone)
    ensures c in rows && fk.child in names && fk.parent in names && |fk.childCols| > 0 && fk.onDelete != SetDefault
  {
  }

  /** A column a survivor keeps its value in, unless a SET NULL key of it loses its parent. */
  lemma ColumnAfter(sch: Schema, db: Db, names: set<Table>, rows: set<RowRef>, gone: set<RowRef>, c: RowRef, col: Column)
    requires Tame(sch, db, names, rows) && gone <= rows && c in AllRows(db)
    ensures At(RowAfter(sch, db, c, gone), col) == if Clears(sch, db, c, gone, col, SetNull) then Null else At(db[c.0][c.1], col)
  {
    forall fk | fk in sch.fks && Hits(db, fk, c, gone) ensures fk.onDelete != SetDefault {
      HitKeyIsPlain(sch, db, names, rows, gone, fk, c);
    }
  }

  /** One of these columns of the row is set to null. */
  predicate Loses(sch: Schema, db: Db, c: RowRef, gone: set<RowRef>, cols: seq<Column>) {
    exists col :: col in cols && Clears(sch, db, c, gone, col, SetNull)
  }

  lemma TupleAfter(sch: Schema, db: Db, names: set<Table>, rows: set<RowRef>, gone: set<RowRef>, c: RowRef, cols: seq<Column>)
    requires Tame(sch, db, names, rows) && gone <= rows && c in AllRows(db)
    ensures if Loses(sch, db, c, gone, cols) then Null in Tuple(RowAfter(sch, db, c, gone), cols)
            else Tuple(RowAfter(sch, db, c, gone), cols) == Tuple(db[c.0][c.1], cols)
  {
    var row := RowAfter(sch, db, c, gone);
    forall i | 0 <= i < |cols|
      ensures At(row, cols[i]) == if Clears(sch, db, c, gone, cols[i], SetNull) then Null else At(db[c.0][c.1], cols[i])
    {
      ColumnAfter(sch, db, names, rows, gone, c, cols[i]);
    }
    if Loses(sch, db, c, gone, cols) {
      var i :| 0 <= i < |cols| && Clears(sch, db, c, gone, cols[i], SetNull);
      assert Tuple(row, cols)[i] == Null;
    }
  }

  /** What refers among the survivors: what did, and has lost a column on neither side. */
  lemma RefersAfter(sch: Schema, db: Db, names: set<Table>, rows: set<RowRef>, gone: set<RowRef>, fk: Fk, c: RowRef, p: RowRef)
    requires Tame(sch, db, names, rows) && gone <= rows
    ensures RefersTo(Survivors(sch, db, gone), fk, c, p) <==>
      && RefersTo(db, fk, c, p) && c !in gone && p !in gone
      && !Loses(sch, db, c, gone, fk.childCols) && !Loses(sch, db, p, gone, fk.parentCols)
  {
    SurvivorRows(sch, db, gone);
    if c in AllRows(db) && p in AllRows(db) && c !in gone && p !in gone {
      TupleAfter(sch, db, names, rows, gone, c, fk.childCols);
      TupleAfter(sch, db, names, rows, gone, p, fk.parentCols);
    }
  }

  lemma SurvivorRows(sch: Schema, db: Db, gone: set<RowRef>)
    ensures AllRows(Survivors(sch, db, gone)) == AllRows(db) - gone
  {
  }

  // --------------------------------------------------- when a DELETE fails

  /** A row that stays holds one that goes by a hard key. */
  ghost predicate HeldBack(sch: Schema, db: Db, gone: set<RowRef>) {
    exists fk, c :: fk in sch.fks && Hard(fk) && c !in gone && Hits(db, fk, c, gone) && !Loses(sch, db, c, gone, fk.childCols)
  }

  predicate StrandedBy(sch: Schema, db: Db, gone: set<RowRef>, fk: Fk, c: RowRef, p: RowRef) {
    && fk in sch.fks && c !in gone && p !in gone && RefersTo(db, fk, c, p)
    && !Loses(sch, db, c, gone, fk.childCols) && Loses(sch, db, p, gone, fk.parentCols)
  }

  /** A row that stays refers to one that stays, by a column that one is to lose. */
  ghost predicate Stranded(sch: Schema, db: Db, gone: set<RowRef>) {
    exists fk, c, p :: StrandedBy(sch, db, gone, fk, c, p)
  }

  ghost predicate Obstructed(sch: Schema, db: Db, gone: set<RowRef>) {
    HeldBack(sch, db, gone) || Stranded(sch, db, gone)
  }

  /** The keys still hold among the survivors exactly when no row that stays is held by a hard key to one that goes, or stranded. */
  lemma KeysHoldExactly(sch: Schema, db: Db, names: set<Table>, rows: set<RowRef>, gone: set<RowRef>)
    requires Tame(sch, db, names, rows) && gone <= rows && CascadeClosed(sch, db, gone)
    ensures KeysHold(sch, Survivors(sch, db, gone)) <==> !Obstructed(sch, db, gone)
  {
    var after := Survivors(sch, db, gone);
    SurvivorRows(sch, db, gone);
    if HeldBack(sch, db, gone) {
      var fk, c :| fk in sch.fks && Hard(fk) && c !in gone && Hits(db, fk, c, gone) && !Loses(sch, db, c, gone, fk.childCols);
      var p :| p in gone && RefersTo(db, fk, c, p);
      ReferenceBreaks(sch, db, names, rows, gone, fk, c, p);
    } else if Stranded(sch, db, gone) {
      var fk, c, p :| StrandedBy(sch, db, gone, fk, c, p);
      ReferenceBreaks(sch, db, names, rows, gone, fk, c, p);
    } else {
      forall fk, c | fk in sch.fks && c in AllRows(after) ensures KeyHolds(after, fk, c) {
        KeyStillHolds(sch, db, names, rows, gone, fk, c);
      }
    }
  }

  /** A key that keeps its columns and loses its parent, or the parent's columns, is broken. */
  lemma ReferenceBreaks(sch: Schema, db: Db, names: set<Table>, rows: set<RowRef>, gone: set<RowRef>, fk: Fk, c: RowRef, p: RowRef)
    requires Tame(sch, db, names, rows) && gone <= rows && fk in sch.fks && c !in gone && RefersTo(db, fk, c, p)
    requires !Loses(sch, db, c, gone, fk.childCols) && (p in gone || Loses(sch, db, p, gone, fk.parentCols))
    ensures !KeysHold(sch, Survivors(sch, db, gone))
  {
    var after := Survivors(sch, db, gone);
    SurvivorRows(sch, db, gone);
    TupleAfter(sch, db, names, rows, gone, c, fk.childCols);
    forall q | q in AllRows(after) ensures !RefersTo(after, fk, c, q) {
      RefersAfter(sch, db, names, rows, gone, fk, c, q);
    }
    assert !KeyHolds(after, fk, c);
  }

  lemma KeyStillHolds(sch: Schema, db: Db, names: set<Table>, rows: set<RowRef>, gone: set<RowRef>, fk: Fk, c: RowRef)
    requires Tame(sch, db, names, rows) && gone <= rows && CascadeClosed(sch, db, gone) && !Obstructed(sch, db, gone)
    requires fk in sch.fks && c in AllRows(db) && c !in gone
    ensures KeyHolds(Survivors(sch, db, gone), fk, c)
  {
    var after := Survivors(sch, db, gone);
    SurvivorRows(sch, db, gone);
    TupleAfter(sch, db, names, rows, gone, c, fk.childCols);
    if c.0 == fk.child && Null !in Tuple(after[c.0][c.1], fk.childCols) {
      assert KeyHolds(db, fk, c);
      var p :| p in AllRows(db) && RefersTo(db, fk, c, p);
      if p in gone { ParentGone(sch, db, names, rows, gone, fk, c, p); }
      assert !StrandedBy(sch, db, gone, fk, c, p);
      RefersAfter(sch, db, names, rows, gone, fk, c, p);
    }
  }

  /** A key whose parent goes is hard and holds it, or takes its row along, or loses its columns. */
  lemma ParentGone(sch: Schema, db: Db, names: set<Table>, rows: set<RowRef>, gone: set<RowRef>, fk: Fk, c: RowRef, p: RowRef)
    requires Tame(sch, db, names, rows) && gone <= rows && CascadeClosed(sch, db, gone) && !HeldBack(sch, db, gone)
    requires fk in sch.fks && c !in gone && p in gone && RefersTo(db, fk, c, p)
    ensures Loses(sch, db, c, gone, fk.childCols)
  {
    assert Hits(db, fk, c, gone);
    HitKeyIsPlain(sch, db, names, rows, gone, fk, c);
    if fk.onDelete == Cascade { CascadedIn(sch, db, gone, fk, c, p); }
    if fk.onDelete == SetNull { assert Clears(sch, db, c, gone, fk.childCols[0], SetNull); }
  }

  /**
   * A DELETE among rows only each other refer to fails exactly when a row it does
   * not reach holds one it reaches by a hard key, when it clears a column such a
   * row refers to, or when a hard key checked early finds a row about to go.
   */
  lemma DeleteFailsExactly(sch: Schema, db: Db, names: set<Table>, rows: set<RowRef>, t: Table, where: set<RowId>)
    requires Tame(sch, db, names, rows) && t in db && where <= db[t].Keys && RowRefs(t, where) <= rows
    ensures var start := RowRefs(t, where); var doomed := Reached(sch, db, start);
      DeleteRows(sch, db, t, where).None? <==> Obstructed(sch, db, doomed) || CaughtEarly(sch, db, start, doomed)
  {
    var start := RowRefs(t, where);
    ReachedIsClosed(sch, db, start);
    ReachedStaysIn(sch, db, names, rows, start);
    KeysHoldExactly(sch, db, names, rows, Reached(sch, db, start));
  }

  /** Setting the columns of a key to null makes it refer to nothing. */
  lemma ClearedKeyIsNull(sch: Schema, db: Db, c: RowRef, doomed: set<RowRef>, fk: Fk)
    requires c.0 in db && c.1 in db[c.0] && fk in sch.fks && fk.onDelete == SetNull && |fk.childCols| > 0 && Hits(db, fk, c, doomed)
    ensures Null in Tuple(RowAfter(sch, db, c, doomed), fk.childCols)
  {
    assert Clears(sch, db, c, doomed, fk.childCols[0], SetNull);
    assert Tuple(RowAfter(sch, db, c, doomed), fk.childCols)[0] == Null;
  }

  // ----------------------------------------------- one DELETE after others

  /** A key with its columns to itself keeps them while its parent stays. */
  lemma KeepsItsKey(sch: Schema, db: Db, names: set<Table>, rows: set<RowRef>, gone: set<RowRef>, fk: Fk, c: RowRef, p: RowRef)
    requires Tame(sch, db, names, rows) && OwnColumns(sch, names) && gone <= rows
    requires fk in sch.fks && fk.parent in names && RefersTo(db, fk, c, p) && (p !in gone || Hard(fk))
    ensures !Loses(sch, db, c, gone, fk.childCols)
  {
    assert p !in gone ==> !Hits(db, fk, c, gone);
    forall k, col | k in sch.fks && k.onDelete == SetNull && Hits(db, k, c, gone) && col in fk.childCols ensures col !in k.childCols {
      HitKeyIsPlain(sch, db, names, rows, gone, k, c);
    }
  }

  /** Among the survivors the keys of `names` refer as they did, if none is stranded. */
  lemma RefersAsBefore(sch: Schema, db: Db, names: set<Table>, rows: set<RowRef>, gone: set<RowRef>, fk: Fk, c: RowRef, p: RowRef)
    requires Tame(sch, db, names, rows) && OwnColumns(sch, names) && gone <= rows && !Stranded(sch, db, gone)
    requires fk in sch.fks && fk.parent in names
    ensures RefersTo(Survivors(sch, db, gone), fk, c, p) <==> RefersTo(db, fk, c, p) && c !in gone && p !in gone
  {
    RefersAfter(sch, db, names, rows, gone, fk, c, p);
    if RefersTo(db, fk, c, p) && c !in gone && p !in gone {
      KeepsItsKey(sch, db, names, rows, gone, fk, c, p);
      assert !StrandedBy(sch, db, gone, fk, c, p);
    }
  }

  /** Cascading on from what has gone reaches, with it, what one cascade from all of it would. */
  lemma ReachedAfter(sch: Schema, db: Db, names: set<Table>, rows: set<RowRef>, gone: set<RowRef>, start: set<RowRef>)
    requires Tame(sch, db, names, rows) && OwnColumns(sch, names) && !Stranded(sch, db, gone) && gone <= rows && CascadeClosed(sch, db, gone)
    requires start <= rows && start !! gone
    ensures start <= AllRows(Survivors(sch, db, gone)) && gone + start <= AllRows(db)
    ensures Reached(sch, db, gone + start) == gone + Reached(sch, Survivors(sch, db, gone), start)
  {
    var after := Survivors(sch, db, gone);
    SurvivorRows(sch, db, gone);
    var all, more := Reached(sch, db, gone + start), Reached(sch, after, start);
    ReachedIsClosed(sch, db, gone + start);
    ReachedIsClosed(sch, after, start);
    ReachedStaysIn(sch, db, names, rows, gone + start);
    forall c | c in Cascaded(sch, after, all - gone) ensures c in all - gone {
      var fk :| fk in sch.fks && fk.onDelete == Cascade && Hits(after, fk, c, all - gone);
      var p :| p in all - gone && RefersTo(after, fk, c, p);
      RefersAsBefore(sch, db, names, rows, gone, fk, c, p);
      CascadedIn(sch, db, all, fk, c, p);
    }
    ReachedIsLeast(sch, after, start, all - gone);
    forall c | c in Cascaded(sch, db, gone + more) ensures c in gone + more {
      var fk :| fk in sch.fks && fk.onDelete == Cascade && Hits(db, fk, c, gone + more);
      var p :| p in gone + more && RefersTo(db, fk, c, p);
      if p in gone {
        CascadedIn(sch, db, gone, fk, c, p);
      } else if c !in gone {
        RefersAsBefore(sch, db, names, rows, gone, fk, c, p);
        CascadedIn(sch, after, more, fk, c, p);
      }
    }
    ReachedIsLeast(sch, db, gone + start, gone + more);
  }

  /** Only rows that refer to it are reached from a self-contained set. */
  lemma ReachedStaysIn(sch: Schema, db: Db, names: set<Table>, rows: set<RowRef>, start: set<RowRef>)
    requires SelfContained(sch, db, names, rows) && start <= rows
    ensures Reached(sch, db, start) <= rows
  {
    forall c | c in Cascaded(sch, db, rows) ensures c in rows {
      var fk :| fk in sch.fks && fk.onDelete == Cascade && Hits(db, fk, c, rows);
    }
    ReachedIsLeast(sch, db, start, rows);
  }

  lemma ClearsAfter(sch: Schema, db: Db, names: set<Table>, rows: set<RowRef>, gone: set<RowRef>, more: set<RowRef>, c: RowRef, col: Column)
    requires Tame(sch, db, names, rows) && OwnColumns(sch, names) && !Stranded(sch, db, gone) && gone <= rows && more <= rows && c in AllRows(db) && c !in gone
    ensures Clears(sch, db, c, gone + more, col, SetNull) <==>
      Clears(sch, db, c, gone, col, SetNull) || Clears(sch, Survivors(sch, db, gone), c, more - gone, col, SetNull)
  {
    var after := Survivors(sch, db, gone);
    if Clears(sch, db, c, gone + more, col, SetNull) {
      var fk :| fk in sch.fks && fk.onDelete == SetNull && col in fk.childCols && Hits(db, fk, c, gone + more);
      var p :| p in gone + more && RefersTo(db, fk, c, p);
      RefersAsBefore(sch, db, names, rows, gone, fk, c, p);
      assert Hits(db, fk, c, gone) || Hits(after, fk, c, more - gone);
    }
    if Clears(sch, db, c, gone, col, SetNull) {
      var fk :| fk in sch.fks && fk.onDelete == SetNull && col in fk.childCols && Hits(db, fk, c, gone);
      assert Hits(db, fk, c, gone + more);
    }
    if Clears(sch, after, c, more - gone, col, SetNull) {
      var fk :| fk in sch.fks && fk.onDelete == SetNull && col in fk.childCols && Hits(after, fk, c, more - gone);
      var p :| p in more - gone && RefersTo(after, fk, c, p);
      RefersAsBefore(sch, db, names, rows, gone, fk, c, p);
      assert Hits(db, fk, c, gone + more);
    }
  }

  lemma NoDefaults(sch: Schema, db: Db, names: set<Table>, rows: set<RowRef>, gone: set<RowRef>, more: set<RowRef>, c: RowRef, col: Column)
    requires Tame(sch, db, names, rows) && OwnColumns(sch, names) && !Stranded(sch, db, gone) && gone <= rows && more <= rows
    ensures !Clears(sch, db, c, gone + more, col, SetDefault) && !Clears(sch, db, c, gone, col, SetDefault)
    ensures !Clears(sch, Survivors(sch, db, gone), c, more, col, SetDefault)
  {
    var after := Survivors(sch, db, gone);
    forall fk | fk in sch.fks && Hits(db, fk, c, gone + more) ensures fk.onDelete != SetDefault {
      HitKeyIsPlain(sch, db, names, rows, gone + more, fk, c);
    }
    forall fk | fk in sch.fks && (Hits(db, fk, c, gone) || Hits(after, fk, c, more)) ensures fk.onDelete != SetDefault {
      if Hits(after, fk, c, more) {
        var p :| p in more && RefersTo(after, fk, c, p);
        RefersAsBefore(sch, db, names, rows, gone, fk, c, p);
        assert Hits(db, fk, c, gone + more);
      } else {
        HitKeyIsPlain(sch, db, names, rows, gone, fk, c);
      }
    }
  }

  lemma RowAfterTwice(sch: Schema, db: Db, names: set<Table>, rows: set<RowRef>, gone: set<RowRef>, more: set<RowRef>, c: RowRef)
    requires Tame(sch, db, names, rows) && OwnColumns(sch, names) && !Stranded(sch, db, gone) && gone <= rows && more <= rows && gone !! more && c in AllRows(db) && c !in gone + more
    ensures RowAfter(sch, Survivors(sch, db, gone), c, more) == RowAfter(sch, db, c, gone + more)
  {
    var after := Survivors(sch, db, gone);
    assert more - gone == more;
    forall col | col in db[c.0][c.1]
      ensures RowAfter(sch, after, c, more)[col] == RowAfter(sch, db, c, gone + more)[col]
    {
      ClearsAfter(sch, db, names, rows, gone, more, c, col);
      NoDefaults(sch, db, names, rows, gone, more, c, col);
    }
  }

  /** Removing rows in two steps leaves the database one step would. */
  lemma SurvivorsTwice(sch: Schema, db: Db, names: set<Table>, rows: set<RowRef>, gone: set<RowRef>, more: set<RowRef>)
    requires Tame(sch, db, names, rows) && OwnColumns(sch, names) && !Stranded(sch, db, gone) && gone <= rows && more <= rows && gone !! more
    ensures Survivors(sch, Survivors(sch, db, gone), more) == Survivors(sch, db, gone + more)
  {
    var after := Survivors(sch, db, gone);
    forall t, r | t in db && r in db[t] && (t, r) !in gone + more
      ensures RowAfter(sch, after, (t, r), more) == RowAfter(sch, db, (t, r), gone + more)
    {
      RowAfterTwice(sch, db, names, rows, gone, more, (t, r));
    }
    var a, b := Survivors(sch, after, more), Survivors(sch, db, gone + more);
    forall t | t in db ensures a[t] == b[t] {
    }
  }

  lemma SurvivorsAreTame(sch: Schema, db: Db, names: set<Table>, rows: set<RowRef>, gone: set<RowRef>)
    requires Tame(sch, db, names, rows) && gone <= rows && CascadeClosed(sch, db, gone) && !Obstructed(sch, db, gone)
    ensures Tame(sch, Survivors(sch, db, gone), names, rows - gone)
  {
    var after := Survivors(sch, db, gone);
    SurvivorRows(sch, db, gone);
    KeysHoldExactly(sch, db, names, rows, gone);
    forall fk, c, p, q | fk in sch.fks && RefersTo(after, fk, c, p) && RefersTo(after, fk, c, q) ensures p == q {
      RefersAfter(sch, db, names, rows, gone, fk, c, p);
      RefersAfter(sch, db, names, rows, gone, fk, c, q);
    }
    forall fk, c, p | fk in sch.fks && p in rows - gone && RefersTo(after, fk, c, p) ensures c in rows - gone {
      RefersAfter(sch, db, names, rows, gone, fk, c, p);
    }
  }

  lemma HeldBackAfter(sch: Schema, db: Db, names: set<Table>, rows: set<RowRef>, gone: set<RowRef>, more: set<RowRef>)
    requires Tame(sch, db, names, rows) && OwnColumns(sch, names) && !Obstructed(sch, db, gone)
    requires gone <= rows && more <= rows && gone !! more && Tame(sch, Survivors(sch, db, gone), names, rows - gone)
    ensures HeldBack(sch, Survivors(sch, db, gone), more) <==> HeldBack(sch, db, gone + more)
  {
    var after := Survivors(sch, db, gone);
    if HeldBack(sch, after, more) {
      var fk, c :| fk in sch.fks && Hard(fk) && c !in more && Hits(after, fk, c, more);
      var p :| p in more && RefersTo(after, fk, c, p);
      RefersAsBefore(sch, db, names, rows, gone, fk, c, p);
      KeepsItsKey(sch, db, names, rows, gone + more, fk, c, p);
      assert Hits(db, fk, c, gone + more);
    }
    if HeldBack(sch, db, gone + more) {
      var fk, c :| fk in sch.fks && Hard(fk) && c !in gone + more && Hits(db, fk, c, gone + more);
      var p :| p in gone + more && RefersTo(db, fk, c, p);
      KeepsItsKey(sch, db, names, rows, gone, fk, c, p);
      assert p in gone ==> Hits(db, fk, c, gone);
      RefersAsBefore(sch, db, names, rows, gone, fk, c, p);
      KeepsItsKey(sch, after, names, rows - gone, more, fk, c, p);
      assert Hits(after, fk, c, more);
    }
  }

  lemma LosesAfter(sch: Schema, db: Db, names: set<Table>, rows: set<RowRef>, gone: set<RowRef>, more: set<RowRef>, c: RowRef, cols: seq<Column>)
    requires Tame(sch, db, names, rows) && OwnColumns(sch, names) && !Stranded(sch, db, gone)
    requires gone <= rows && more <= rows && gone !! more && c in AllRows(db) && c !in gone
    ensures Loses(sch, db, c, gone + more, cols) <==> Loses(sch, db, c, gone, cols) || Loses(sch, Survivors(sch, db, gone), c, more, cols)
  {
    assert more - gone == more;
    forall col | col in cols
      ensures Clears(sch, db, c, gone + more, col, SetNull) <==>
        Clears(sch, db, c, gone, col, SetNull) || Clears(sch, Survivors(sch, db, gone), c, more, col, SetNull)
    {
      ClearsAfter(sch, db, names, rows, gone, more, c, col);
    }
  }

  lemma StrandedAfter(sch: Schema, db: Db, names: set<Table>, rows: set<RowRef>, gone: set<RowRef>, more: set<RowRef>)
    requires Tame(sch, db, names, rows) && OwnColumns(sch, names) && !Stranded(sch, db, gone)
    requires gone <= rows && more <= rows && gone !! more && Tame(sch, Survivors(sch, db, gone), names, rows - gone)
    ensures Stranded(sch, Survivors(sch, db, gone), more) <==> Stranded(sch, db, gone + more)
  {
    var after := Survivors(sch, db, gone);
    if Stranded(sch, after, more) {
      var fk, c, p :| StrandedBy(sch, after, more, fk, c, p);
      RefersAfter(sch, db, names, rows, gone, fk, c, p);
      LosesAfter(sch, db, names, rows, gone, more, p, fk.parentCols);
      LosesAfter(sch, db, names, rows, gone, more, c, fk.childCols);
      assert StrandedBy(sch, db, gone + more, fk, c, p);
    }
    if Stranded(sch, db, gone + more) {
      var fk, c, p :| StrandedBy(sch, db, gone + more, fk, c, p);
      LosesAfter(sch, db, names, rows, gone, more, p, fk.parentCols);
      LosesAfter(sch, db, names, rows, gone, more, c, fk.childCols);
      RefersAfter(sch, db, names, rows, gone, fk, c, p);
      assert !StrandedBy(sch, db, gone, fk, c, p);
      assert StrandedBy(sch, after, more, fk, c, p);
    }
  }

  /** With `gone` gone before, a statement that starts from `start` and reaches up to `all` is caught by an early check. */
  ghost predicate Caught(sch: Schema, db: Db, gone: set<RowRef>, start: set<RowRef>, all: set<RowRef>) {
    exists e :: e in sch.early && e.0 in sch.fks && Hard(e.0) && e.1 !in gone + start && e.2 in all - gone && RefersTo(db, e.0, e.1, e.2)
  }

  lemma CaughtAfter(sch: Schema, db: Db, names: set<Table>, rows: set<RowRef>, gone: set<RowRef>, start: set<RowRef>, more: set<RowRef>)
    requires Tame(sch, db, names, rows) && OwnColumns(sch, names) && !Stranded(sch, db, gone) && gone <= rows && more <= rows && gone !! more
    ensures CaughtEarly(sch, Survivors(sch, db, gone), start, more) <==> Caught(sch, db, gone, start, gone + more)
  {
    var after := Survivors(sch, db, gone);
    if CaughtEarly(sch, after, start, more) {
      var e :| e in sch.early && e.0 in sch.fks && Hard(e.0) && e.1 !in start && e.2 in more && RefersTo(after, e.0, e.1, e.2);
      RefersAfter(sch, db, names, rows, gone, e.0, e.1, e.2);
    }
    if Caught(sch, db, gone, start, gone + more) {
      var e :| e in sch.early && e.0 in sch.fks && Hard(e.0) && e.1 !in gone + start && e.2 in gone + more - gone && RefersTo(db, e.0, e.1, e.2);
      RefersAsBefore(sch, db, names, rows, gone, e.0, e.1, e.2);
    }
  }

  /**
   * A DELETE after others, told from the database before them all: whether it
   * fails, and that it leaves what a single DELETE of all the rows would.
   */
  lemma DeleteAfter(sch: Schema, db: Db, names: set<Table>, rows: set<RowRef>, gone: set<RowRef>, t: Table, where: set<RowId>)
    requires Tame(sch, db, names, rows) && OwnColumns(sch, names) && gone <= rows && CascadeClosed(sch, db, gone) && !Obstructed(sch, db, gone)
    requires t in db && where <= Survivors(sch, db, gone)[t].Keys && RowRefs(t, where) <= rows
    ensures gone + RowRefs(t, where) <= AllRows(db)
    ensures var all := Reached(sch, db, gone + RowRefs(t, where));
      && all <= rows && CascadeClosed(sch, db, all)
      && DeleteRows(sch, Survivors(sch, db, gone), t, where) ==
         if Obstructed(sch, db, all) || Caught(sch, db, gone, RowRefs(t, where), all) then None else Some(Survivors(sch, db, all))
  {
    var after, start := Survivors(sch, db, gone), RowRefs(t, where);
    SurvivorRows(sch, db, gone);
    assert start !! gone;
    SurvivorsAreTame(sch, db, names, rows, gone);
    ReachedAfter(sch, db, names, rows, gone, start);
    ReachedIsClosed(sch, db, gone + start);
    ReachedStaysIn(sch, db, names, rows, gone + start);
    var more := Reached(sch, after, start);
    ReachedStaysIn(sch, after, names, rows - gone, start);
    DeleteFailsExactly(sch, after, names, rows - gone, t, where);
    HeldBackAfter(sch, db, names, rows, gone, more);
    StrandedAfter(sch, db, names, rows, gone, more);
    CaughtAfter(sch, db, names, rows, gone, start, more);
    SurvivorsTwice(sch, db, names, rows, gone, more);
  }

  /** Cascading in steps reaches what cascading at once does. */
  lemma ReachedInSteps(sch: Schema, db: Db, a: set<RowRef>, b: set<RowRef>)
    requires a <= AllRows(db) && b <= AllRows(db)
    ensures Reached(sch, db, a) <= AllRows(db)
    ensures Reached(sch, db, Reached(sch, db, a) + (b - Reached(sch, db, a))) == Reached(sch, db, a + b)
  {
    ReachedIsClosed(sch, db, a);
    ReachedIsClosed(sch, db, a + b);
    var part, all := Reached(sch, db, a), Reached(sch, db, a + b);
    ReachedIsLeast(sch, db, a, all);
    ReachedIsClosed(sch, db, part + (b - part));
    ReachedIsLeast(sch, db, part + (b - part), all);
    ReachedIsLeast(sch, db, a + b, Reached(sch, db, part + (b - part)));
  }
}
