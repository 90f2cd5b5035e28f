/**
 * The order the launch reset deletes tables in (`deleteOrder`,
 * scripts/launch-reset.js). A table is named by the rank of its name in the
 * order JavaScript sorts names in, so sorting names is sorting numbers.
 */
module DeleteOrder {
  import opened Common

  type Table = nat
  type Column = string

  datatype OnDelete = NoAction | Restrict | Cascade | SetNull | SetDefault

  datatype Fk = Fk(child: Table, parent: Table, onDelete: OnDelete, childCols: seq<Column>, parentCols: seq<Column>)

  type Edge = (Table, Table)

  predicate Hard(fk: Fk) { fk.onDelete == NoAction || fk.onDelete == Restrict }

  /** The keys between two different listed tables, as (child, parent). */
  function Edges(names: set<Table>, fks: seq<Fk>): set<Edge> {
    set fk | fk in fks && fk.child in names && fk.parent in names && fk.child != fk.parent :: (fk.child, fk.parent)
  }

  function HardEdges(names: set<Table>, fks: seq<Fk>): set<Edge> {
    set fk | fk in fks && fk.child in names && fk.parent in names && fk.child != fk.parent && Hard(fk) :: (fk.child, fk.parent)
  }

  predicate PointedAt(edges: set<Edge>, remaining: set<Table>, t: Table) {
    exists e :: e in edges && e.1 == t && e.0 in remaining
  }

  function Free(edges: set<Edge>, remaining: set<Table>): set<Table> {
    set t | t in remaining && !PointedAt(edges, remaining, t)
  }

  // -------------------------------------------------------------- sorting

  predicate IsLeast(s: set<Table>, m: Table) { m in s && forall x :: x in s ==> m <= x }

  lemma LeastOfOneMore(s: set<Table>, y: Table, m: Table)
    requires y in s && IsLeast(s - {y}, m)
    ensures IsLeast(s, if m <= y then m else y)
  {
    forall x | x in s ensures (if m <= y then m else y) <= x {
      if x != y { assert x in s - {y}; }
    }
  }

  lemma {:induction false} LeastExists(s: set<Table>)
    requires s != {}
    ensures exists m :: IsLeast(s, m)
  {
    var y :| y in s;
    if s - {y} == {} {
      assert s == {y};
      assert IsLeast(s, y);
    } else {
      LeastExists(s - {y});
      var m :| IsLeast(s - {y}, m);
      LeastOfOneMore(s, y, m);
    }
  }

  function Least(s: set<Table>): (m: Table)
    requires s != {}
    ensures IsLeast(s, m)
  {
    LeastExists(s);
    var m :| m in s && forall x :: x in s ==> m <= x;
    m
  }

  function Sorted(s: set<Table>): seq<Table> {
    if s == {} then [] else [Least(s)] + Sorted(s - {Least(s)})
  }

  lemma {:induction false} SortedElements(s: set<Table>)
    ensures forall t :: t in Sorted(s) <==> t in s
    ensures |Sorted(s)| == |s|
  {
    if s != {} {
      var first, rest := Least(s), s - {Least(s)};
      SortedElements(rest);
      assert Sorted(s) == [first] + Sorted(rest);
      forall t ensures t in Sorted(s) <==> t in s {
        assert t in Sorted(s) <==> t == first || t in Sorted(rest);
      }
    }
  }

  lemma {:induction false} SortedAscends(s: set<Table>)
    ensures forall i, j :: 0 <= i < j < |Sorted(s)| ==> Sorted(s)[i] < Sorted(s)[j]
  {
    if s != {} {
      var first, rest := Least(s), Sorted(s - {Least(s)});
      SortedAscends(s - {first});
      SortedElements(s - {first});
      assert forall t :: t in rest ==> first < t;
      forall j | 0 <= j < |rest| ensures first < rest[j] { assert rest[j] in rest; }
    }
  }

  lemma SortedIsTheSet(s: set<Table>)
    ensures forall t :: t in Sorted(s) <==> t in s
    ensures |Sorted(s)| == |s|
    ensures forall i, j :: 0 <= i < j < |s| ==> Sorted(s)[i] < Sorted(s)[j]
  {
    SortedElements(s);
    SortedAscends(s);
  }

  // ------------------------------------------------------------ the order

  /** What goes next: every table nothing left points at, or else the first one no hard key left points at. */
  function Ready(edges: set<Edge>, hard: set<Edge>, remaining: set<Table>): seq<Table> {
    var free := Sorted(Free(edges, remaining));
    if free != [] then free
    else
      var broken := Sorted(Free(hard, remaining));
      if broken == [] then [] else broken[..1]
  }

  function Elements(s: seq<Table>): set<Table> { set t | t in s }

  lemma ReadyIsRemaining(edges: set<Edge>, hard: set<Edge>, remaining: set<Table>)
    ensures Elements(Ready(edges, hard, remaining)) <= remaining
    ensures Ready(edges, hard, remaining) != [] ==> remaining - Elements(Ready(edges, hard, remaining)) < remaining
  {
    SortedIsTheSet(Free(edges, remaining));
    SortedIsTheSet(Free(hard, remaining));
    var ready := Ready(edges, hard, remaining);
    if ready != [] {
      assert ready[0] in Elements(ready);
    }
  }

  /** The order of the tables that remain; an error names the tables left in a cycle of hard keys. */
  function OrderFrom(edges: set<Edge>, hard: set<Edge>, remaining: set<Table>): Result<seq<Table>, set<Table>>
    decreases remaining
  {
    if remaining == {} then Ok([])
    else
      var ready := Ready(edges, hard, remaining);
      if ready == [] then Err(remaining)
      else
        ReadyIsRemaining(edges, hard, remaining);
        Prepend(ready, OrderFrom(edges, hard, remaining - Elements(ready)))
  }

  function Prepend(order: seq<Table>, r: Result<seq<Table>, set<Table>>): Result<seq<Table>, set<Table>> {
    match r
    case Err(stuck) => Err(stuck)
    case Ok(rest) => Ok(order + rest)
  }

  lemma PrependJoins(a: seq<Table>, b: seq<Table>, r: Result<seq<Table>, set<Table>>)
    ensures Prepend([], r) == r
    ensures Prepend(a, Prepend(b, r)) == Prepend(a + b, r)
  {
    if r.Ok? {
      assert [] + r.value == r.value;
      assert a + (b + r.value) == a + b + r.value;
    }
  }

  method Order(names: seq<Table>, fks: seq<Fk>) returns (r: Result<seq<Table>, set<Table>>)
    ensures r == OrderFrom(Edges(Elements(names), fks), HardEdges(Elements(names), fks), Elements(names))
  {
    var all := set t | t in names;
    var edges := Edges(all, fks);
    var hard := HardEdges(all, fks);
    var remaining := all;
    var order: seq<Table> := [];
    PrependJoins([], [], OrderFrom(edges, hard, all));
    while remaining != {}
      invariant remaining <= all
      invariant OrderFrom(edges, hard, all) == Prepend(order, OrderFrom(edges, hard, remaining))
      decreases remaining
    {
      var ready := Sorted(set t | t in remaining && !PointedAt(edges, remaining, t));
      if ready == [] {
        ready := Sorted(set t | t in remaining && !PointedAt(hard, remaining, t));
        if |ready| > 1 { ready := ready[..1]; }
      }
      if ready == [] {
        return Err(remaining);
      }
      assert ready == Ready(edges, hard, remaining);
      ReadyIsRemaining(edges, hard, remaining);
      PrependJoins(order, ready, OrderFrom(edges, hard, remaining - Elements(ready)));
      order, remaining := TakeAll(order, remaining, ready);
    }
    assert order + [] == order;
    return Ok(order);
  }

  /** The inner loop: each ready table is appended and no longer remains. */
  method TakeAll(order: seq<Table>, remaining: set<Table>, ready: seq<Table>) returns (order': seq<Table>, remaining': set<Table>)
    ensures order' == order + ready && remaining' == remaining - Elements(ready)
  {
    order', remaining' := order, remaining;
    for i := 0 to |ready|
      invariant order' == order + ready[..i]
      invariant remaining' == remaining - Elements(ready[..i])
    {
      assert ready[..i + 1] == ready[..i] + [ready[i]];
      order' := order' + [ready[i]];
      remaining' := remaining' - {ready[i]};
    }
    assert ready[..|ready|] == ready;
  }

  // ------------------------------------------------------ walks and cycles

  ghost predicate Walk(edges: set<Edge>, w: seq<Table>) {
    |w| > 0 && forall i :: 0 <= i < |w| - 1 ==> (w[i], w[i + 1]) in edges
  }

  ghost predicate IsCycle(edges: set<Edge>, w: seq<Table>) {
    Walk(edges, w) && |w| >= 2 && w[0] == w[|w| - 1]
  }

  ghost predicate HasCycle(edges: set<Edge>) {
    exists w :: IsCycle(edges, w)
  }

  /** A walk along keys, child to parent, that goes once round a cycle first and then ends at `t`. */
  ghost predicate Lasso(edges: set<Edge>, w: seq<Table>, k: nat, t: Table) {
    Walk(edges, w) && 0 < k < |w| && w[0] == w[k] && w[|w| - 1] == t
  }

  ghost predicate FromCycle(edges: set<Edge>, t: Table) {
    exists w, k :: Lasso(edges, w, k, t)
  }

  ghost predicate EachPointedAt(edges: set<Edge>, s: set<Table>) {
    forall t :: t in s ==> PointedAt(edges, s, t)
  }

  lemma {:induction false} DistinctCount(w: seq<Table>)
    requires forall i, j :: 0 <= i < j < |w| ==> w[i] != w[j]
    ensures |Elements(w)| == |w|
  {
    if w != [] {
      var v := w[..|w| - 1];
      DistinctCount(v);
      assert Elements(w) == Elements(v) + {w[|w| - 1]};
    }
  }

  lemma {:induction false} SubsetCount(a: set<Table>, b: set<Table>)
    requires a <= b
    ensures |a| <= |b|
  {
    if a != {} {
      var x :| x in a;
      SubsetCount(a - {x}, b - {x});
    }
  }

  lemma Pigeonhole(w: seq<Table>, s: set<Table>) returns (i: nat, j: nat)
    requires Elements(w) <= s && |w| > |s|
    ensures i < j < |w| && w[i] == w[j]
  {
    if forall x, y :: 0 <= x < y < |w| ==> w[x] != w[y] {
      DistinctCount(w);
      SubsetCount(Elements(w), s);
    }
    i, j :| 0 <= i < j < |w| && w[i] == w[j];
  }

  /** Going backwards as far as one likes. */
  lemma {:induction false} BackwardWalk(edges: set<Edge>, s: set<Table>, t: Table, n: nat) returns (w: seq<Table>)
    requires EachPointedAt(edges, s) && t in s
    ensures Walk(edges, w) && |w| == n + 1 && Elements(w) <= s && w[|w| - 1] == t
  {
    if n == 0 {
      w := [t];
    } else {
      var v := BackwardWalk(edges, s, t, n - 1);
      assert v[0] in Elements(v);
      var e :| e in edges && e.1 == v[0] && e.0 in s;
      w := [e.0] + v;
      assert Elements(w) == {e.0} + Elements(v);
      forall i | 0 <= i < |w| - 1 ensures (w[i], w[i + 1]) in edges {
        if i > 0 { assert (v[i - 1], v[i]) in edges; } else { assert (w[0], w[1]) == e; }
      }
    }
  }

  /** Where everything left is pointed at by something left, each table is reached from a cycle. */
  lemma StuckMeansFromCycle(edges: set<Edge>, s: set<Table>, t: Table)
    requires EachPointedAt(edges, s) && t in s
    ensures FromCycle(edges, t)
  {
    var w := BackwardWalk(edges, s, t, |s|);
    var i, j := Pigeonhole(w, s);
    assert Lasso(edges, w[i..], j - i, t);
  }

  lemma FromCycleHasCycle(edges: set<Edge>, t: Table)
    requires FromCycle(edges, t)
    ensures HasCycle(edges)
  {
    var w, k :| Lasso(edges, w, k, t);
    assert IsCycle(edges, w[..k + 1]);
  }

  // -------------------------------------------------------------- theorems

  ghost predicate HardRespected(hard: set<Edge>, order: seq<Table>) {
    forall i, j :: 0 <= i < |order| && 0 <= j < |order| && (order[i], order[j]) in hard ==> i < j
  }

  ghost predicate CrossedFromCycle(edges: set<Edge>, order: seq<Table>) {
    forall i, j :: 0 <= i < j < |order| && (order[j], order[i]) in edges ==> FromCycle(edges, order[i])
  }

  ghost predicate Distinct(order: seq<Table>) {
    forall i, j :: 0 <= i < j < |order| ==> order[i] != order[j]
  }

  lemma ReadyFacts(edges: set<Edge>, hard: set<Edge>, remaining: set<Table>)
    requires hard <= edges
    ensures var ready := Ready(edges, hard, remaining);
      && Distinct(ready)
      && (forall t, c :: t in ready && c in remaining ==> (c, t) !in hard)
      && (forall t, c :: t in ready && c in remaining && (c, t) in edges ==> EachPointedAt(edges, remaining))
      && (ready == [] && remaining != {} ==> EachPointedAt(hard, remaining))
  {
    SortedIsTheSet(Free(edges, remaining));
    SortedIsTheSet(Free(hard, remaining));
    var ready := Ready(edges, hard, remaining);
    forall t, c | t in ready && c in remaining ensures (c, t) !in hard {
      assert (c, t) in hard ==> PointedAt(hard, remaining, t) && PointedAt(edges, remaining, t);
    }
    forall t, c | t in ready && c in remaining && (c, t) in edges ensures EachPointedAt(edges, remaining) {
      assert PointedAt(edges, remaining, t);
      assert Sorted(Free(edges, remaining)) == [];
      forall x | x in remaining ensures PointedAt(edges, remaining, x) {
        assert x !in Sorted(Free(edges, remaining));
      }
    }
    if ready == [] {
      forall x | x in remaining ensures PointedAt(hard, remaining, x) {
        assert x !in Sorted(Free(hard, remaining));
      }
    }
  }

  lemma {:induction false} OrderFromIsSound(edges: set<Edge>, hard: set<Edge>, remaining: set<Table>)
    requires hard <= edges
    ensures var r := OrderFrom(edges, hard, remaining);
      && (r.Ok? ==> Distinct(r.value) && Elements(r.value) == remaining
                    && HardRespected(hard, r.value) && CrossedFromCycle(edges, r.value))
      && (r.Err? ==> r.error != {} && r.error <= remaining && EachPointedAt(hard, r.error))
    decreases remaining
  {
    if remaining != {} {
      ReadyFacts(edges, hard, remaining);
      ReadyIsRemaining(edges, hard, remaining);
      var ready := Ready(edges, hard, remaining);
      if ready != [] {
        var left := remaining - Elements(ready);
        OrderFromIsSound(edges, hard, left);
        if OrderFrom(edges, hard, left).Ok? {
          var rest := OrderFrom(edges, hard, left).value;
          ReadyThenRest(edges, hard, remaining, ready, rest);
        }
      }
    }
  }

  lemma ReadyThenRest(edges: set<Edge>, hard: set<Edge>, remaining: set<Table>, ready: seq<Table>, rest: seq<Table>)
    requires hard <= edges && Distinct(ready) && Distinct(rest)
    requires Elements(ready) <= remaining && Elements(rest) == remaining - Elements(ready)
    requires forall t, c :: t in ready && c in remaining ==> (c, t) !in hard
    requires forall t, c :: t in ready && c in remaining && (c, t) in edges ==> EachPointedAt(edges, remaining)
    requires HardRespected(hard, rest) && CrossedFromCycle(edges, rest)
    ensures Distinct(ready + rest) && Elements(ready + rest) == remaining
    ensures HardRespected(hard, ready + rest) && CrossedFromCycle(edges, ready + rest)
  {
    var order := ready + rest;
    forall i | 0 <= i < |order| ensures order[i] in remaining && (i >= |ready| ==> order[i] in Elements(rest)) {
      if i < |ready| { assert order[i] in Elements(ready); } else { assert order[i] == rest[i - |ready|] && rest[i - |ready|] in Elements(rest); }
    }
    forall t | t in remaining ensures t in Elements(order) {
      if t in Elements(ready) { assert t in ready; } else { assert t in Elements(rest) && t in rest; }
      assert t in order;
    }
    forall i, j | 0 <= i < j < |order| ensures order[i] != order[j] {
      if i < |ready| <= j {
        assert order[i] in Elements(ready) && order[j] in Elements(rest);
      }
    }
    forall i, j | 0 <= i < |order| && 0 <= j < |ready| ensures (order[i], order[j]) !in hard {
      assert ready[j] in ready && order[i] in remaining;
    }
    forall i, j | 0 <= i < |order| && 0 <= j < |order| && (order[i], order[j]) in hard ensures i < j {
      if i >= |ready| {
        assert (rest[i - |ready|], rest[j - |ready|]) in hard;
      }
    }
    forall i, j | 0 <= i < j < |order| && (order[j], order[i]) in edges ensures FromCycle(edges, order[i]) {
      if i < |ready| {
        assert order[i] in ready && order[j] in remaining;
        StuckMeansFromCycle(edges, remaining, order[i]);
      } else {
        assert (rest[j - |ready|], rest[i - |ready|]) in edges;
      }
    }
  }

  /** Along a walk of hard keys the position in the order only grows. */
  lemma {:induction false} WalkFollowsOrder(hard: set<Edge>, order: seq<Table>, w: seq<Table>) returns (i: nat, j: nat)
    requires Walk(hard, w) && |w| >= 2 && HardRespected(hard, order)
    requires forall e :: e in hard ==> e.0 in order && e.1 in order
    ensures i < j < |order| && order[i] == w[0] && order[j] == w[|w| - 1]
  {
    if |w| == 2 {
      assert (w[0], w[1]) in hard;
      i :| 0 <= i < |order| && order[i] == w[0];
      j :| 0 <= j < |order| && order[j] == w[1];
    } else {
      var v := w[..|w| - 1];
      var k: nat;
      i, k := WalkFollowsOrder(hard, order, v);
      assert (w[|w| - 2], w[|w| - 1]) in hard;
      j :| 0 <= j < |order| && order[j] == w[|w| - 1];
      assert (order[k], order[j]) in hard;
    }
  }

  lemma HardEdgesAreEdges(names: set<Table>, fks: seq<Fk>)
    ensures HardEdges(names, fks) <= Edges(names, fks)
    ensures forall e :: e in Edges(names, fks) ==> e.0 in names && e.1 in names
  {
  }

  /** The pairs, child and parent, of different listed tables with a key between them, of any kind or a hard one. */
  function KeyPairs(names: set<Table>, fks: seq<Fk>, hardOnly: bool): set<Edge> {
    set c, p | c in names && p in names && c != p && KeyFrom(fks, c, p, hardOnly) :: (c, p)
  }

  predicate KeyFrom(fks: seq<Fk>, child: Table, parent: Table, hardOnly: bool) {
    exists i :: 0 <= i < |fks| && fks[i].child == child && fks[i].parent == parent && (hardOnly ==> fks[i].onDelete in {NoAction, Restrict})
  }

  lemma EdgesAreKeyPairs(names: set<Table>, fks: seq<Fk>)
    ensures Edges(names, fks) == KeyPairs(names, fks, false) && HardEdges(names, fks) == KeyPairs(names, fks, true)
  {
    forall c, p ensures (c, p) in Edges(names, fks) <==> (c, p) in KeyPairs(names, fks, false) {
      if (c, p) in KeyPairs(names, fks, false) { var i :| 0 <= i < |fks| && fks[i].child == c && fks[i].parent == p; }
    }
    forall c, p ensures (c, p) in HardEdges(names, fks) <==> (c, p) in KeyPairs(names, fks, true) {
      if (c, p) in KeyPairs(names, fks, true) {
        var i :| 0 <= i < |fks| && fks[i].child == c && fks[i].parent == p && fks[i].onDelete in {NoAction, Restrict};
        assert Hard(fks[i]);
      }
    }
  }

  /**
   * The order refuses exactly when hard keys between different listed tables
   * contain a cycle. Otherwise it returns each listed table once, every hard
   * key's child before its parent.
   */
  lemma OrderRefusesExactlyOnHardCycles(names: seq<Table>, fks: seq<Fk>)
    ensures var all := Elements(names);
      var r := OrderFrom(Edges(all, fks), HardEdges(all, fks), all);
      && (r.Err? <==> HasCycle(KeyPairs(all, fks, true)))
      && (r.Ok? ==> Distinct(r.value) && Elements(r.value) == all && HardRespected(KeyPairs(all, fks, true), r.value))
  {
    EdgesAreKeyPairs(Elements(names), fks);
    RefusesOnCycles(names, fks);
  }

  lemma RefusesOnCycles(names: seq<Table>, fks: seq<Fk>)
    ensures var all := Elements(names);
      var r := OrderFrom(Edges(all, fks), HardEdges(all, fks), all);
      && (r.Err? <==> HasCycle(HardEdges(all, fks)))
      && (r.Ok? ==> Distinct(r.value) && Elements(r.value) == all && HardRespected(HardEdges(all, fks), r.value))
  {
    var all := Elements(names);
    var edges, hard := Edges(all, fks), HardEdges(all, fks);
    HardEdgesAreEdges(all, fks);
    OrderFromIsSound(edges, hard, all);
    var r := OrderFrom(edges, hard, all);
    if r.Err? {
      var t :| t in r.error;
      StuckMeansFromCycle(hard, r.error, t);
      FromCycleHasCycle(hard, t);
    } else if HasCycle(hard) {
      var w :| IsCycle(hard, w);
      forall e | e in hard ensures e.0 in r.value && e.1 in r.value {
        assert e.0 in Elements(r.value) && e.1 in Elements(r.value);
      }
      var i, j := WalkFollowsOrder(hard, r.value, w);
    }
  }

  /** A table of `rest` has a key of these to `t`. */
  ghost predicate StillPointedAt(edges: set<Edge>, rest: seq<Table>, t: Table) {
    exists j :: 0 <= j < |rest| && (rest[j], t) in edges
  }

  /**
   * The first `n` of these tables are the next round: in the order of their names
   * all those nothing left points at; or, when something left points at every
   * table, the first by name of those that no hard key left points at.
   */
  ghost predicate IsRound(edges: set<Edge>, hard: set<Edge>, rest: seq<Table>, n: nat)
    requires n <= |rest|
  {
    && (forall i, j :: 0 <= i < j < n ==> rest[i] < rest[j])
    && ((forall i :: 0 <= i < |rest| ==> (StillPointedAt(edges, rest, rest[i]) <==> i >= n))
        || (&& n == 1 && (forall i :: 0 <= i < |rest| ==> StillPointedAt(edges, rest, rest[i]))
            && (forall i :: 0 <= i < |rest| && rest[i] < rest[0] ==> StillPointedAt(hard, rest, rest[i]))
            && !StillPointedAt(hard, rest, rest[0])))
  }

  /** The order is made of such rounds, one after another. */
  ghost predicate InRounds(edges: set<Edge>, hard: set<Edge>, order: seq<Table>)
    decreases |order|, 1
  {
    order == [] || exists n: nat :: RoundFirst(edges, hard, order, n)
  }

  ghost predicate RoundFirst(edges: set<Edge>, hard: set<Edge>, order: seq<Table>, n: nat)
    decreases |order|, 0
  {
    0 < n <= |order| && IsRound(edges, hard, order, n) && InRounds(edges, hard, order[n..])
  }

  lemma PointedAtIs(edges: set<Edge>, rest: seq<Table>, t: Table)
    ensures PointedAt(edges, Elements(rest), t) <==> StillPointedAt(edges, rest, t)
  {
    if PointedAt(edges, Elements(rest), t) {
      var e :| e in edges && e.1 == t && e.0 in Elements(rest);
      var j :| 0 <= j < |rest| && rest[j] == e.0;
      assert (rest[j], t) in edges;
    }
    if StillPointedAt(edges, rest, t) {
      var j :| 0 <= j < |rest| && (rest[j], t) in edges;
      assert rest[j] in Elements(rest) && (rest[j], t).1 == t;
    }
  }

  lemma FreeIsRound(edges: set<Edge>, hard: set<Edge>, ready: seq<Table>, tail: seq<Table>)
    requires ready == Sorted(Free(edges, Elements(ready + tail))) && Distinct(ready + tail)
    ensures IsRound(edges, hard, ready + tail, |ready|)
  {
    var rest := ready + tail;
    SortedIsTheSet(Free(edges, Elements(rest)));
    forall i | 0 <= i < |rest| ensures StillPointedAt(edges, rest, rest[i]) <==> i >= |ready| {
      PointedAtIs(edges, rest, rest[i]);
      assert rest[i] in Elements(rest);
      if i < |ready| {
        assert rest[i] in ready;
      } else {
        forall k | 0 <= k < |ready| ensures rest[i] != ready[k] { assert rest[k] != rest[i]; }
        assert rest[i] !in Sorted(Free(edges, Elements(rest)));
      }
    }
  }

  lemma BrokenIsRound(edges: set<Edge>, hard: set<Edge>, rest: seq<Table>)
    requires rest != [] && Free(edges, Elements(rest)) == {} && IsLeast(Free(hard, Elements(rest)), rest[0])
    ensures IsRound(edges, hard, rest, 1)
  {
    forall i | 0 <= i < |rest| ensures StillPointedAt(edges, rest, rest[i]) {
      PointedAtIs(edges, rest, rest[i]);
      assert rest[i] in Elements(rest) && rest[i] !in Free(edges, Elements(rest));
    }
    PointedAtIs(hard, rest, rest[0]);
    forall i | 0 <= i < |rest| && rest[i] < rest[0] ensures StillPointedAt(hard, rest, rest[i]) {
      PointedAtIs(hard, rest, rest[i]);
      assert rest[i] in Elements(rest) && rest[i] !in Free(hard, Elements(rest));
    }
  }

  lemma ReadyIsRound(edges: set<Edge>, hard: set<Edge>, remaining: set<Table>, tail: seq<Table>)
    requires var ready := Ready(edges, hard, remaining);
      ready != [] && Elements(ready + tail) == remaining && Distinct(ready + tail)
    ensures var ready := Ready(edges, hard, remaining); IsRound(edges, hard, ready + tail, |ready|)
  {
    var ready := Ready(edges, hard, remaining);
    SortedIsTheSet(Free(edges, remaining));
    SortedIsTheSet(Free(hard, remaining));
    if Sorted(Free(edges, remaining)) != [] {
      FreeIsRound(edges, hard, ready, tail);
    } else {
      BrokenIsRound(edges, hard, ready + tail);
    }
  }

  lemma {:induction false} OrderIsInRounds(edges: set<Edge>, hard: set<Edge>, remaining: set<Table>)
    requires hard <= edges && OrderFrom(edges, hard, remaining).Ok?
    ensures InRounds(edges, hard, OrderFrom(edges, hard, remaining).value)
    decreases remaining
  {
    if remaining != {} {
      var order, ready := OrderFrom(edges, hard, remaining).value, Ready(edges, hard, remaining);
      OrderFromIsSound(edges, hard, remaining);
      ReadyIsRemaining(edges, hard, remaining);
      OrderIsInRounds(edges, hard, remaining - Elements(ready));
      var tail := OrderFrom(edges, hard, remaining - Elements(ready)).value;
      assert order == ready + tail && order[|ready|..] == tail;
      ReadyIsRound(edges, hard, remaining, tail);
      assert RoundFirst(edges, hard, order, |ready|);
    }
  }

  /**
   * The order goes in rounds, so it crosses a key only where every table left is
   * pointed at by another one left, and then at the first table by name that soft
   * keys alone hold back.
   */
  lemma OrderGoesInRounds(names: seq<Table>, fks: seq<Fk>)
    requires OrderFrom(Edges(Elements(names), fks), HardEdges(Elements(names), fks), Elements(names)).Ok?
    ensures InRounds(KeyPairs(Elements(names), fks, false), KeyPairs(Elements(names), fks, true),
                     OrderFrom(Edges(Elements(names), fks), HardEdges(Elements(names), fks), Elements(names)).value)
  {
    EdgesAreKeyPairs(Elements(names), fks);
    HardEdgesAreEdges(Elements(names), fks);
    OrderIsInRounds(Edges(Elements(names), fks), HardEdges(Elements(names), fks), Elements(names));
  }

  lemma BothOrNeither(a: seq<Table>, b: seq<Table>)
    requires Elements(a) == Elements(b)
    ensures a == [] <==> b == []
  {
    if a != [] { assert a[0] in Elements(a); }
    if b != [] { assert b[0] in Elements(b); }
  }

  lemma {:induction false} AscendingIsOne(a: seq<Table>, b: seq<Table>)
    requires Ascends(a) && Ascends(b) && Elements(a) == Elements(b)
    ensures a == b
  {
    BothOrNeither(a, b);
    if a != [] {
      FirstIsLeast(a);
      FirstIsLeast(b);
      assert a == [a[0]] + a[1..] && b == [b[0]] + b[1..];
      AscendingIsOne(a[1..], b[1..]);
    }
  }

  ghost predicate Ascends(s: seq<Table>) { forall i, j :: 0 <= i < j < |s| ==> s[i] < s[j] }

  lemma FirstIsLeast(s: seq<Table>)
    requires Ascends(s) && s != []
    ensures IsLeast(Elements(s), s[0]) && Elements(s[1..]) == Elements(s) - {s[0]}
  {
    forall t ensures t in Elements(s[1..]) <==> t in Elements(s) && t != s[0] {
      if t in Elements(s[1..]) {
        var i :| 0 <= i < |s[1..]| && s[1..][i] == t;
        assert s[i + 1] == t;
      }
      if t in Elements(s) && t != s[0] {
        var i :| 0 <= i < |s| && s[i] == t;
        assert s[1..][i - 1] == t;
      }
    }
  }

  lemma FreeIs(edges: set<Edge>, rest: seq<Table>, i: nat)
    requires i < |rest|
    ensures StillPointedAt(edges, rest, rest[i]) <==> rest[i] !in Free(edges, Elements(rest))
  {
    PointedAtIs(edges, rest, rest[i]);
    assert rest[i] in Elements(rest);
  }

  /** The tables of a round are told by the tables left. */
  lemma FreeRoundIs(edges: set<Edge>, hard: set<Edge>, rest: seq<Table>, n: nat)
    requires 0 < n <= |rest| && IsRound(edges, hard, rest, n) && Free(edges, Elements(rest)) != {}
    ensures Elements(rest[..n]) == Free(edges, Elements(rest)) && Ascends(rest[..n])
  {
    var free := Free(edges, Elements(rest));
    forall i | 0 <= i < |rest| ensures StillPointedAt(edges, rest, rest[i]) <==> rest[i] !in free { FreeIs(edges, rest, i); }
    var t :| t in free;
    var k :| 0 <= k < |rest| && rest[k] == t;
    assert !StillPointedAt(edges, rest, rest[k]);
    forall x ensures x in Elements(rest[..n]) <==> x in free {
      if x in free {
        var i :| 0 <= i < |rest| && rest[i] == x;
        assert rest[..n][i] == x;
      }
    }
  }

  lemma BrokenRoundIs(edges: set<Edge>, hard: set<Edge>, rest: seq<Table>, n: nat)
    requires 0 < n <= |rest| && IsRound(edges, hard, rest, n) && Free(edges, Elements(rest)) == {}
    ensures n == 1 && IsLeast(Free(hard, Elements(rest)), rest[0])
  {
    FreeIs(edges, rest, 0);
    FreeIs(hard, rest, 0);
    forall x | x in Free(hard, Elements(rest)) ensures rest[0] <= x {
      var i :| 0 <= i < |rest| && rest[i] == x;
      FreeIs(hard, rest, i);
    }
  }

  lemma RoundsAgree(edges: set<Edge>, hard: set<Edge>, a: seq<Table>, b: seq<Table>, n: nat, m: nat)
    requires Elements(a) == Elements(b) && 0 < n <= |a| && 0 < m <= |b|
    requires IsRound(edges, hard, a, n) && IsRound(edges, hard, b, m)
    ensures n == m && a[..n] == b[..m]
  {
    if Free(edges, Elements(a)) != {} {
      FreeRoundIs(edges, hard, a, n);
      FreeRoundIs(edges, hard, b, m);
      AscendingIsOne(a[..n], b[..m]);
    } else {
      BrokenRoundIs(edges, hard, a, n);
      BrokenRoundIs(edges, hard, b, m);
      assert a[..1] == [a[0]] && b[..1] == [b[0]];
    }
  }

  lemma RestOfElements(s: seq<Table>, n: nat)
    requires Distinct(s) && n <= |s|
    ensures Distinct(s[n..]) && Elements(s[n..]) == Elements(s) - Elements(s[..n])
  {
    forall t ensures t in Elements(s[n..]) <==> t in Elements(s) && t !in Elements(s[..n]) {
      if t in Elements(s) {
        var i :| 0 <= i < |s| && s[i] == t;
        if i < n { assert s[..n][i] == t; } else { assert s[n..][i - n] == t; }
      }
    }
  }

  lemma FirstRoundsAgree(edges: set<Edge>, hard: set<Edge>, a: seq<Table>, b: seq<Table>, n: nat, m: nat)
    requires Distinct(a) && Distinct(b) && Elements(a) == Elements(b)
    requires RoundFirst(edges, hard, a, n) && RoundFirst(edges, hard, b, m)
    ensures n == m <= |a| && n <= |b| && a[..n] == b[..n]
    ensures Distinct(a[n..]) && Distinct(b[n..]) && Elements(a[n..]) == Elements(b[n..])
  {
    RoundsAgree(edges, hard, a, b, n, m);
    RestOfElements(a, n);
    RestOfElements(b, m);
  }

  lemma SameParts(a: seq<Table>, b: seq<Table>, n: nat)
    requires n <= |a| && n <= |b| && a[..n] == b[..n] && a[n..] == b[n..]
    ensures a == b
  {
    assert a == a[..n] + a[n..] && b == b[..n] + b[n..];
  }

  /** There is one way to put tables in such rounds. */
  lemma {:induction false} RoundsGiveOneOrder(edges: set<Edge>, hard: set<Edge>, a: seq<Table>, b: seq<Table>)
    // compared with true so that the verifier keeps them whole
    requires (Distinct(a) == true) && (Distinct(b) == true) && Elements(a) == Elements(b)
    requires (InRounds(edges, hard, a) == true) && (InRounds(edges, hard, b) == true)
    ensures a == b
    decreases |a|
  {
    BothOrNeither(a, b);
    if a != [] {
      var n: nat :| RoundFirst(edges, hard, a, n);
      var m: nat :| RoundFirst(edges, hard, b, m);
      FirstRoundsAgree(edges, hard, a, b, n, m);
      RoundsGiveOneOrder(edges, hard, a[n..], b[n..]);
      SameParts(a, b, n);
    }
  }

  /** A key the order crosses is soft and its parent is reached from a cycle; with no cycle none is crossed. */
  lemma CrossedKeysComeFromCycles(names: seq<Table>, fks: seq<Fk>, i: nat, j: nat)
    requires OrderFrom(Edges(Elements(names), fks), HardEdges(Elements(names), fks), Elements(names)).Ok?
    requires var order := OrderFrom(Edges(Elements(names), fks), HardEdges(Elements(names), fks), Elements(names)).value;
      i < j < |order| && (order[j], order[i]) in KeyPairs(Elements(names), fks, false)
    ensures var order := OrderFrom(Edges(Elements(names), fks), HardEdges(Elements(names), fks), Elements(names)).value;
      && FromCycle(KeyPairs(Elements(names), fks, false), order[i])
      && (forall fk :: fk in fks && fk.child == order[j] && fk.parent == order[i] ==> fk.onDelete in {Cascade, SetNull, SetDefault})
    ensures HasCycle(KeyPairs(Elements(names), fks, false))
  {
    var all := Elements(names);
    var edges, hard := Edges(all, fks), HardEdges(all, fks);
    EdgesAreKeyPairs(all, fks);
    HardEdgesAreEdges(all, fks);
    OrderFromIsSound(edges, hard, all);
    var order := OrderFrom(edges, hard, all).value;
    FromCycleHasCycle(edges, order[i]);
    var parent, child := order[i], order[j];
    assert parent in Elements(order) && child in Elements(order);
    assert (child, parent) !in hard;
    forall fk | fk in fks && fk.child == child && fk.parent == parent ensures fk.onDelete in {Cascade, SetNull, SetDefault} {
      assert Hard(fk) ==> (child, parent) in hard;
    }
  }
}
