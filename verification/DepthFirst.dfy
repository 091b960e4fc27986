/**
 * The depth-first walk that both hierarchies perform.
 *
 * The parent relation may contain orphans, self-parents and cycles. The walk has a visited
 * set, an output list, and a recursion over the sorted children of each entity; two passes of
 * it, the first over the roots, reach everything.
 *
 * Proved here, for any such relation: every entity gets one row; every row below the outermost
 * level hangs from the nearest earlier shallower row; depth is the distance to a root wherever
 * a root is reached; and an outermost row is a root or never reaches one.
 */
module DepthFirst {
  import opened Wrappers
  import opened Lists
  import opened EntityOrder

  datatype Row = Row(depth: nat, entity: Entity)

  // `roots` are the entities without a usable parent; every other entity is a child of its parent.
  datatype Forest = Forest(byId: map<string, Entity>, children: map<string, seq<Entity>>, roots: set<string>)

  datatype Walk = Walk(visited: set<string>, rows: seq<Row>)

  const EMPTY: Walk := Walk({}, [])

  type Relation = (Entity, Entity) -> bool

  const ANY: Relation := (a: Entity, b: Entity) => true

  predicate Known(f: Forest, e: Entity) {
    e.id in f.byId && f.byId[e.id] == e
  }

  predicate AllKnown(f: Forest, list: seq<Entity>) {
    forall e :: e in list ==> Known(f, e)
  }

  function ChildrenOf(f: Forest, id: string): seq<Entity> {
    if id in f.children then f.children[id] else []
  }

  ghost predicate Closed(f: Forest) {
    forall id :: AllKnown(f, ChildrenOf(f, id))
  }

  lemma Smaller(all: set<string>, visited: set<string>, id: string)
    requires id in all && id !in visited
    ensures |all - (visited + {id})| < |all - visited|
  {
    assert all - (visited + {id}) == (all - visited) - {id};
  }

  lemma Fewer(all: set<string>, visited: set<string>, more: set<string>)
    requires visited <= more
    ensures |all - more| <= |all - visited|
  {
    assert all - visited == (all - more) + ((all * more) - visited);
  }

  function Enter(e: Entity, depth: nat, w: Walk): Walk {
    Walk(w.visited + {e.id}, w.rows + [Row(depth, e)])
  }

  // `visit`: nothing for a visited entity, otherwise a row for it and a visit to each child.
  ghost function Visit(f: Forest, e: Entity, depth: nat, w: Walk): (r: Walk)
    requires Closed(f) && Known(f, e)
    ensures w.visited + {e.id} <= r.visited
    decreases |f.byId.Keys - w.visited|, 0, 0
  {
    if e.id in w.visited then w
    else
      Smaller(f.byId.Keys, w.visited, e.id);
      VisitAll(f, ChildrenOf(f, e.id), depth + 1, Enter(e, depth, w))
  }

  ghost function VisitAll(f: Forest, list: seq<Entity>, depth: nat, w: Walk): (r: Walk)
    requires Closed(f) && AllKnown(f, list)
    ensures w.visited <= r.visited
    decreases |f.byId.Keys - w.visited|, |list|, 1
  {
    if list == [] then w
    else
      var first := Visit(f, list[0], depth, w);
      Fewer(f.byId.Keys, w.visited, first.visited);
      VisitAll(f, list[1..], depth, first)
  }

  // A first pass, then a second one that picks up whatever the first did not reach.
  ghost function TwoPasses(f: Forest, base: nat, first: seq<Entity>, rest: seq<Entity>): Walk
    requires Closed(f) && AllKnown(f, first) && AllKnown(f, rest)
  {
    VisitAll(f, rest, base, VisitAll(f, first, base, EMPTY))
  }

  // ---------------------------------------------------------------- every entity once

  function RowIds(rows: seq<Row>): set<string> {
    set r | r in rows :: r.entity.id
  }

  ghost predicate Tidy(f: Forest, w: Walk) {
    && w.visited == RowIds(w.rows)
    && (forall r :: r in w.rows ==> Known(f, r.entity))
    && (forall i, j :: 0 <= i < j < |w.rows| ==> w.rows[i].entity.id != w.rows[j].entity.id)
  }

  lemma EnterTidy(f: Forest, e: Entity, depth: nat, w: Walk)
    requires Tidy(f, w) && Known(f, e) && e.id !in w.visited
    ensures Tidy(f, Enter(e, depth, w))
  {
    var r := Enter(e, depth, w);
    forall i, j | 0 <= i < j < |r.rows| ensures r.rows[i].entity.id != r.rows[j].entity.id {
      if j == |w.rows| { assert w.rows[i].entity.id in RowIds(w.rows); }
    }
    assert RowIds(r.rows) == RowIds(w.rows) + {e.id} by {
      assert r.rows[|w.rows|] == Row(depth, e);
      forall x | x in w.rows ensures x in r.rows { }
    }
  }

  lemma {:induction false} VisitTidy(f: Forest, e: Entity, depth: nat, w: Walk)
    requires Closed(f) && Known(f, e) && Tidy(f, w)
    ensures Tidy(f, Visit(f, e, depth, w)) && w.rows <= Visit(f, e, depth, w).rows
    decreases |f.byId.Keys - w.visited|, 0, 0
  {
    if e.id !in w.visited {
      EnterTidy(f, e, depth, w);
      Smaller(f.byId.Keys, w.visited, e.id);
      VisitAllTidy(f, ChildrenOf(f, e.id), depth + 1, Enter(e, depth, w));
    }
  }

  lemma {:induction false} VisitAllTidy(f: Forest, list: seq<Entity>, depth: nat, w: Walk)
    requires Closed(f) && AllKnown(f, list) && Tidy(f, w)
    ensures Tidy(f, VisitAll(f, list, depth, w)) && w.rows <= VisitAll(f, list, depth, w).rows
    decreases |f.byId.Keys - w.visited|, |list|, 1
  {
    if list != [] {
      VisitTidy(f, list[0], depth, w);
      var first := Visit(f, list[0], depth, w);
      Fewer(f.byId.Keys, w.visited, first.visited);
      VisitAllTidy(f, list[1..], depth, first);
    }
  }

  lemma {:induction false} VisitAllReaches(f: Forest, list: seq<Entity>, depth: nat, w: Walk)
    requires Closed(f) && AllKnown(f, list)
    ensures forall e :: e in list ==> e.id in VisitAll(f, list, depth, w).visited
    decreases |list|
  {
    if list != [] {
      VisitAllReaches(f, list[1..], depth, Visit(f, list[0], depth, w));
    }
  }

  // ---------------------------------------------------------------- depth-first shape

  // The nearest earlier row that is shallower than `depth`.
  function Shallower(rows: seq<Row>, depth: nat): Option<Row> {
    if rows == [] then None
    else if rows[|rows| - 1].depth < depth then Some(rows[|rows| - 1])
    else Shallower(rows[..|rows| - 1], depth)
  }

  // `parent` is the row that a row of entity `e` at `depth` must hang from.
  predicate HangsFrom(parent: Option<Row>, e: Entity, depth: nat) {
    parent.Some? && parent.value.depth + 1 == depth && e.parentId == Some(parent.value.entity.id)
  }

  // Every row below `base` hangs from the nearest earlier shallower row, which is its parent.
  predicate Nested(base: nat, rows: seq<Row>) {
    rows == [] ||
    var init, last := rows[..|rows| - 1], rows[|rows| - 1];
    && Nested(base, init)
    && base <= last.depth
    && (base < last.depth ==> HangsFrom(Shallower(init, last.depth), last.entity, last.depth))
  }

  ghost predicate ChildrenLinked(f: Forest) {
    forall id, c :: c in ChildrenOf(f, id) ==> c.parentId == Some(id)
  }

  // The rows so far end in the subtree under the parent of `list`, so children may follow at `depth`.
  predicate Ready(base: nat, rows: seq<Row>, depth: nat, list: seq<Entity>) {
    base < depth ==> forall e :: e in list ==> HangsFrom(Shallower(rows, depth), e, depth)
  }

  lemma AppendRow(base: nat, rows: seq<Row>, e: Entity, depth: nat)
    requires Nested(base, rows) && base <= depth
    requires base < depth ==> HangsFrom(Shallower(rows, depth), e, depth)
    ensures Nested(base, rows + [Row(depth, e)])
    ensures Shallower(rows + [Row(depth, e)], depth) == Shallower(rows, depth)
    ensures Shallower(rows + [Row(depth, e)], depth + 1) == Some(Row(depth, e))
  {
    assert (rows + [Row(depth, e)])[..|rows|] == rows;
  }

  lemma {:induction false} VisitNested(f: Forest, base: nat, e: Entity, depth: nat, w: Walk)
    requires Closed(f) && ChildrenLinked(f) && Known(f, e) && base <= depth
    requires Nested(base, w.rows) && Ready(base, w.rows, depth, [e])
    ensures var r := Visit(f, e, depth, w).rows;
      Nested(base, r) && forall d: nat :: d <= depth ==> Shallower(r, d) == Shallower(w.rows, d)
    decreases |f.byId.Keys - w.visited|, 0, 0
  {
    if e.id !in w.visited {
      assert e in [e];
      AppendRow(base, w.rows, e, depth);
      Smaller(f.byId.Keys, w.visited, e.id);
      var entered := Enter(e, depth, w);
      forall d: nat | d <= depth ensures Shallower(entered.rows, d) == Shallower(w.rows, d) {
        assert entered.rows[..|w.rows|] == w.rows;
      }
      VisitAllNested(f, base, ChildrenOf(f, e.id), depth + 1, entered);
    }
  }

  lemma {:induction false} VisitAllNested(f: Forest, base: nat, list: seq<Entity>, depth: nat, w: Walk)
    requires Closed(f) && ChildrenLinked(f) && AllKnown(f, list) && base <= depth
    requires Nested(base, w.rows) && Ready(base, w.rows, depth, list)
    ensures var r := VisitAll(f, list, depth, w).rows;
      Nested(base, r) && forall d: nat :: d <= depth ==> Shallower(r, d) == Shallower(w.rows, d)
    decreases |f.byId.Keys - w.visited|, |list|, 1
  {
    if list != [] {
      VisitNested(f, base, list[0], depth, w);
      var first := Visit(f, list[0], depth, w);
      Fewer(f.byId.Keys, w.visited, first.visited);
      VisitAllNested(f, base, list[1..], depth, first);
    }
  }

  // ---------------------------------------------------------------- depth is distance to a root

  // The chain of parents from `id` arrives at a root after exactly `n` steps.
  ghost predicate Reaches(f: Forest, id: string, n: nat)
    decreases n
  {
    id in f.byId &&
    if n == 0 then id in f.roots
    else id !in f.roots && f.byId[id].parentId.Some? && Reaches(f, f.byId[id].parentId.value, n - 1)
  }

  ghost predicate NeverReaches(f: Forest, id: string) {
    forall n: nat :: !Reaches(f, id, n)
  }

  lemma {:induction false} ReachesOnce(f: Forest, id: string, n: nat, m: nat)
    requires Reaches(f, id, n) && Reaches(f, id, m)
    ensures n == m
    decreases n
  {
    if n > 0 && m > 0 { ReachesOnce(f, f.byId[id].parentId.value, n - 1, m - 1); }
  }

  ghost predicate Indexed(f: Forest) {
    forall id :: id in f.byId ==> f.byId[id].id == id
  }

  // Roots are nobody's children.
  ghost predicate RootsApart(f: Forest) {
    forall id, e :: e in ChildrenOf(f, id) ==> e.id !in f.roots
  }

  // Every entity that is not a root is listed under its parent.
  ghost predicate Listed(f: Forest) {
    forall id :: id in f.byId && id !in f.roots ==> IsListed(f, f.byId[id])
  }

  predicate IsListed(f: Forest, e: Entity) {
    e.parentId.Some? && e in ChildrenOf(f, e.parentId.value)
  }

  ghost predicate Linked(f: Forest) {
    Indexed(f) && Closed(f) && ChildrenLinked(f) && RootsApart(f) && Listed(f)
  }

  ghost predicate Ranked(f: Forest, base: nat, rows: seq<Row>) {
    forall r :: r in rows ==> base <= r.depth && Reaches(f, r.entity.id, r.depth - base)
  }

  lemma ChildReaches(f: Forest, id: string, n: nat, c: Entity)
    requires Linked(f) && Reaches(f, id, n) && c in ChildrenOf(f, id)
    ensures Reaches(f, c.id, n + 1)
  {
    assert AllKnown(f, ChildrenOf(f, id));
  }

  // One step down from a ranked entity is one more step to the root.
  ghost predicate ChildrenRank(f: Forest) {
    forall id, n: nat, c :: Reaches(f, id, n) && c in ChildrenOf(f, id) ==> Reaches(f, c.id, n + 1)
  }

  lemma LinkedChildrenRank(f: Forest)
    requires Linked(f)
    ensures ChildrenRank(f)
  {
    forall id, n: nat, c | Reaches(f, id, n) && c in ChildrenOf(f, id) ensures Reaches(f, c.id, n + 1) {
      ChildReaches(f, id, n, c);
    }
  }

  lemma EnterRanked(f: Forest, base: nat, e: Entity, depth: nat, w: Walk)
    requires Ranked(f, base, w.rows) && base <= depth && Reaches(f, e.id, depth - base)
    ensures Ranked(f, base, Enter(e, depth, w).rows)
  {}

  lemma {:induction false} VisitRanked(f: Forest, base: nat, e: Entity, depth: nat, w: Walk)
    requires Closed(f) && ChildrenRank(f) && Known(f, e) && Ranked(f, base, w.rows)
    requires base <= depth && Reaches(f, e.id, depth - base)
    ensures Ranked(f, base, Visit(f, e, depth, w).rows)
    decreases |f.byId.Keys - w.visited|, 0, 0
  {
    if e.id !in w.visited {
      Smaller(f.byId.Keys, w.visited, e.id);
      EnterRanked(f, base, e, depth, w);
      assert depth + 1 - base == (depth - base) + 1;
      VisitAllRanked(f, base, ChildrenOf(f, e.id), depth + 1, Enter(e, depth, w));
    }
  }

  lemma {:induction false} VisitAllRanked(f: Forest, base: nat, list: seq<Entity>, depth: nat, w: Walk)
    requires Closed(f) && ChildrenRank(f) && AllKnown(f, list) && Ranked(f, base, w.rows)
    requires base <= depth && forall e :: e in list ==> Reaches(f, e.id, depth - base)
    ensures Ranked(f, base, VisitAll(f, list, depth, w).rows)
    decreases |f.byId.Keys - w.visited|, |list|, 1
  {
    if list != [] {
      VisitRanked(f, base, list[0], depth, w);
      var first := Visit(f, list[0], depth, w);
      Fewer(f.byId.Keys, w.visited, first.visited);
      VisitAllRanked(f, base, list[1..], depth, first);
    }
  }

  // `more` contains the children of everything it has beyond `visited`.
  ghost predicate ClosedBeyond(f: Forest, visited: set<string>, more: set<string>) {
    forall id, c :: id in more && id !in visited && c in ChildrenOf(f, id) ==> c.id in more
  }

  lemma {:induction false} VisitClosedBeyond(f: Forest, e: Entity, depth: nat, w: Walk)
    requires Closed(f) && Known(f, e)
    ensures ClosedBeyond(f, w.visited, Visit(f, e, depth, w).visited)
    decreases |f.byId.Keys - w.visited|, 0, 0
  {
    if e.id !in w.visited {
      Smaller(f.byId.Keys, w.visited, e.id);
      VisitAllReaches(f, ChildrenOf(f, e.id), depth + 1, Enter(e, depth, w));
      VisitAllClosedBeyond(f, ChildrenOf(f, e.id), depth + 1, Enter(e, depth, w));
    }
  }

  lemma {:induction false} VisitAllClosedBeyond(f: Forest, list: seq<Entity>, depth: nat, w: Walk)
    requires Closed(f) && AllKnown(f, list)
    ensures ClosedBeyond(f, w.visited, VisitAll(f, list, depth, w).visited)
    decreases |f.byId.Keys - w.visited|, |list|, 1
  {
    if list != [] {
      VisitClosedBeyond(f, list[0], depth, w);
      var first := Visit(f, list[0], depth, w);
      Fewer(f.byId.Keys, w.visited, first.visited);
      VisitAllClosedBeyond(f, list[1..], depth, first);
    }
  }

  // A first pass over the roots visits everything whose parent chain arrives at a root.
  lemma {:induction false} FirstPassVisits(f: Forest, visited: set<string>, id: string, n: nat)
    requires Indexed(f) && Listed(f) && ClosedBeyond(f, {}, visited) && f.roots <= visited
    requires Reaches(f, id, n)
    ensures id in visited
    decreases n
  {
    if n > 0 {
      FirstPassVisits(f, visited, f.byId[id].parentId.value, n - 1);
      assert IsListed(f, f.byId[id]);
    }
  }

  // ---------------------------------------------------------------- both passes

  // The first pass starts at the roots; together the passes are offered every entity.
  ghost predicate Covering(f: Forest, first: seq<Entity>, rest: seq<Entity>) {
    && AllKnown(f, first) && AllKnown(f, rest)
    && (forall id :: id in f.roots ==> id in f.byId && f.byId[id] in first)
    && (forall id :: id in f.byId ==> f.byId[id] in rest || f.byId[id] in first)
  }

  lemma PassesVisitAllOnce(f: Forest, base: nat, first: seq<Entity>, rest: seq<Entity>)
    requires Indexed(f) && Closed(f) && Covering(f, first, rest)
    ensures var w := TwoPasses(f, base, first, rest);
      && Tidy(f, w)
      && w.visited == f.byId.Keys
      && VisitAll(f, first, base, EMPTY).rows <= w.rows
  {
    var w1 := VisitAll(f, first, base, EMPTY);
    var w2 := VisitAll(f, rest, base, w1);
    assert Tidy(f, EMPTY);
    VisitAllTidy(f, first, base, EMPTY);
    VisitAllTidy(f, rest, base, w1);
    VisitAllReaches(f, first, base, EMPTY);
    VisitAllReaches(f, rest, base, w1);
    forall id ensures id in w2.visited <==> id in f.byId {
      if id in f.byId { assert f.byId[id] in rest || f.byId[id] in first; }
    }
  }

  lemma PassesAreNested(f: Forest, base: nat, first: seq<Entity>, rest: seq<Entity>)
    requires Closed(f) && ChildrenLinked(f) && AllKnown(f, first) && AllKnown(f, rest)
    ensures Nested(base, TwoPasses(f, base, first, rest).rows)
  {
    VisitAllNested(f, base, first, base, EMPTY);
    VisitAllNested(f, base, rest, base, VisitAll(f, first, base, EMPTY));
  }

  function EntitiesOf(rows: seq<Row>): seq<Entity> {
    seq(|rows|, i requires 0 <= i < |rows| => rows[i].entity)
  }

  // `byId` indexes exactly these entities.
  ghost predicate Indexes(f: Forest, entities: seq<Entity>) {
    && (forall e :: e in entities ==> Known(f, e))
    && (forall id :: id in f.byId ==> f.byId[id] in entities)
  }

  // No entity is hidden and none is shown twice.
  lemma WalkIsPermutation(f: Forest, w: Walk, entities: seq<Entity>)
    requires Tidy(f, w) && w.visited == f.byId.Keys && Indexes(f, entities) && UniqueIds(entities)
    ensures multiset(EntitiesOf(w.rows)) == multiset(entities)
  {
    var listed := EntitiesOf(w.rows);
    forall e ensures e in listed <==> e in entities {
      if e in listed {
        var i :| 0 <= i < |listed| && listed[i] == e;
        assert w.rows[i] in w.rows;
      }
      if e in entities {
        assert e.id in RowIds(w.rows);
        var r :| r in w.rows && r.entity.id == e.id;
        var i :| 0 <= i < |w.rows| && w.rows[i] == r;
        assert listed[i] == e;
      }
    }
    DistinctPermutation(listed, entities);
  }

  lemma SameRow(f: Forest, w: Walk, a: Row, b: Row)
    requires Tidy(f, w) && a in w.rows && b in w.rows && a.entity.id == b.entity.id
    ensures a == b
  {
    var i :| 0 <= i < |w.rows| && w.rows[i] == a;
    var j :| 0 <= j < |w.rows| && w.rows[j] == b;
    assert !(i < j) && !(j < i);
  }

  lemma FirstPassRanks(f: Forest, base: nat, first: seq<Entity>)
    requires Linked(f) && AllKnown(f, first)
    requires forall e :: e in first ==> e.id in f.roots
    ensures var w := VisitAll(f, first, base, EMPTY);
      Tidy(f, w) && Ranked(f, base, w.rows)
  {
    LinkedChildrenRank(f);
    VisitAllRanked(f, base, first, base, EMPTY);
    assert Tidy(f, EMPTY);
    VisitAllTidy(f, first, base, EMPTY);
  }

  lemma FirstPassFindsRow(f: Forest, base: nat, first: seq<Entity>, id: string, n: nat) returns (r: Row)
    requires Linked(f) && AllKnown(f, first) && Reaches(f, id, n)
    requires forall e :: e in first ==> e.id in f.roots
    requires forall id :: id in f.roots ==> id in f.byId && f.byId[id] in first
    ensures r in VisitAll(f, first, base, EMPTY).rows && r.entity.id == id && r.depth == base + n
  {
    var w := VisitAll(f, first, base, EMPTY);
    VisitAllReaches(f, first, base, EMPTY);
    VisitAllClosedBeyond(f, first, base, EMPTY);
    assert f.roots <= w.visited by {
      forall id | id in f.roots ensures id in w.visited { assert f.byId[id] in first; }
    }
    FirstPassVisits(f, w.visited, id, n);
    FirstPassRanks(f, base, first);
    assert id in RowIds(w.rows);
    r :| r in w.rows && r.entity.id == id;
    ReachesOnce(f, id, r.depth - base, n);
  }

  // Depth counts the parents up to the root, wherever the parent chain arrives at one.
  lemma PassesRankRows(f: Forest, base: nat, first: seq<Entity>, rest: seq<Entity>, r: Row, n: nat)
    requires Linked(f) && Covering(f, first, rest)
    requires forall e :: e in first ==> e.id in f.roots
    requires r in TwoPasses(f, base, first, rest).rows && Reaches(f, r.entity.id, n)
    ensures r.depth == base + n
  {
    var r1 := FirstPassFindsRow(f, base, first, r.entity.id, n);
    PassesVisitAllOnce(f, base, first, rest);
    SameRow(f, TwoPasses(f, base, first, rest), r, r1);
  }

  // An outermost row is a root, or its parent chain runs into a cycle and never arrives at one.
  lemma OutermostRows(f: Forest, base: nat, first: seq<Entity>, rest: seq<Entity>, r: Row)
    requires Linked(f) && Covering(f, first, rest)
    requires forall e :: e in first ==> e.id in f.roots
    requires r in TwoPasses(f, base, first, rest).rows && r.depth == base
    ensures r.entity.id in f.roots || NeverReaches(f, r.entity.id)
  {
    if !NeverReaches(f, r.entity.id) {
      var n :| Reaches(f, r.entity.id, n);
      PassesRankRows(f, base, first, rest, r, n);
    }
  }

  // ---------------------------------------------------------------- the first pass visits what reaches a root

  ghost predicate ChildrenReach(f: Forest) {
    forall id, c :: c in ChildrenOf(f, id) && !NeverReaches(f, id) ==> !NeverReaches(f, c.id)
  }

  // A child is a root, or one step further from the root its parent reaches.
  lemma LinkedChildrenReach(f: Forest)
    requires Indexed(f) && Closed(f) && ChildrenLinked(f)
    ensures ChildrenReach(f)
  {
    forall id, c | c in ChildrenOf(f, id) && !NeverReaches(f, id) ensures !NeverReaches(f, c.id) {
      assert Known(f, c);
      var n: nat :| Reaches(f, id, n);
      assert Reaches(f, c.id, if c.id in f.roots then 0 else n + 1);
    }
  }

  ghost predicate AllReach(f: Forest, visited: set<string>) {
    forall id :: id in visited ==> !NeverReaches(f, id)
  }

  lemma {:induction false} VisitReaches(f: Forest, e: Entity, depth: nat, w: Walk)
    requires Closed(f) && ChildrenReach(f) && Known(f, e) && AllReach(f, w.visited) && !NeverReaches(f, e.id)
    ensures AllReach(f, Visit(f, e, depth, w).visited)
    decreases |f.byId.Keys - w.visited|, 0, 0
  {
    if e.id !in w.visited {
      Smaller(f.byId.Keys, w.visited, e.id);
      VisitAllReach(f, ChildrenOf(f, e.id), depth + 1, Enter(e, depth, w));
    }
  }

  lemma {:induction false} VisitAllReach(f: Forest, list: seq<Entity>, depth: nat, w: Walk)
    requires Closed(f) && ChildrenReach(f) && AllKnown(f, list) && AllReach(f, w.visited)
    requires forall e :: e in list ==> !NeverReaches(f, e.id)
    ensures AllReach(f, VisitAll(f, list, depth, w).visited)
    decreases |f.byId.Keys - w.visited|, |list|, 1
  {
    if list != [] {
      VisitReaches(f, list[0], depth, w);
      var first := Visit(f, list[0], depth, w);
      Fewer(f.byId.Keys, w.visited, first.visited);
      VisitAllReach(f, list[1..], depth, first);
    }
  }

  ghost predicate RootsAre(f: Forest, first: seq<Entity>) {
    && (forall e :: e in first ==> e.id in f.roots)
    && (forall id :: id in f.roots ==> id in f.byId && f.byId[id] in first)
  }

  // A pass over exactly the roots visits exactly what reaches a root.
  lemma RootPassVisits(f: Forest, base: nat, first: seq<Entity>, id: string)
    requires Indexed(f) && Closed(f) && ChildrenLinked(f) && Listed(f) && AllKnown(f, first) && RootsAre(f, first)
    ensures id in VisitAll(f, first, base, EMPTY).visited <==> !NeverReaches(f, id)
  {
    var w := VisitAll(f, first, base, EMPTY);
    LinkedChildrenReach(f);
    forall e | e in first ensures !NeverReaches(f, e.id) { assert Reaches(f, e.id, 0); }
    VisitAllReach(f, first, base, EMPTY);
    VisitAllReaches(f, first, base, EMPTY);
    VisitAllClosedBeyond(f, first, base, EMPTY);
    assert f.roots <= w.visited by {
      forall r | r in f.roots ensures r in w.visited { assert f.byId[r] in first; }
    }
    if n: nat :| Reaches(f, id, n) {
      FirstPassVisits(f, w.visited, id, n);
    }
  }

  // ---------------------------------------------------------------- a pass that finds next to nothing left

  lemma {:induction false} NothingLeft(f: Forest, list: seq<Entity>, depth: nat, w: Walk)
    requires Closed(f) && AllKnown(f, list) && forall e :: e in list ==> e.id in w.visited
    ensures VisitAll(f, list, depth, w) == w
    decreases |list|
  {
    if list != [] {
      NothingLeft(f, list[1..], depth, w);
    }
  }

  // With one entity left, it gets one row, wherever it stands in the list.
  lemma {:induction false} OneLeft(f: Forest, list: seq<Entity>, depth: nat, w: Walk, e: Entity)
    requires Closed(f) && AllKnown(f, list) && e in list && e.id !in w.visited
    requires forall d :: Known(f, d) && d != e ==> d.id in w.visited
    ensures VisitAll(f, list, depth, w) == Enter(e, depth, w)
    decreases |list|
  {
    if list[0] == e {
      var entered := Enter(e, depth, w);
      assert AllKnown(f, ChildrenOf(f, e.id));
      NothingLeft(f, ChildrenOf(f, e.id), depth + 1, entered);
      assert Visit(f, e, depth, w) == entered;
      NothingLeft(f, list[1..], depth, entered);
    } else {
      assert Visit(f, list[0], depth, w) == w;
      OneLeft(f, list[1..], depth, w, e);
    }
  }

  // The first entity of a list that is not visited yet gets the next row.
  lemma FirstLeft(f: Forest, list: seq<Entity>, depth: nat, w: Walk)
    requires Closed(f) && AllKnown(f, list) && list != [] && Tidy(f, w) && list[0].id !in w.visited
    ensures var rows := VisitAll(f, list, depth, w).rows;
      |w.rows| < |rows| && rows[|w.rows|] == Row(depth, list[0])
  {
    var e := list[0];
    var entered := Enter(e, depth, w);
    EnterTidy(f, e, depth, w);
    VisitAllTidy(f, ChildrenOf(f, e.id), depth + 1, entered);
    VisitAllTidy(f, list[1..], depth, Visit(f, e, depth, w));
    assert entered.rows <= Visit(f, e, depth, w).rows <= VisitAll(f, list, depth, w).rows;
    assert entered.rows[|w.rows|] == Row(depth, e);
  }

  // ---------------------------------------------------------------- the chain of parents, without the forest

  predicate HangsFromOne(parent: Relation, entities: seq<Entity>, p: Entity, e: Entity) {
    p in entities && parent(p, e)
  }

  ghost predicate IsTop(parent: Relation, entities: seq<Entity>, e: Entity) {
    forall p :: !HangsFromOne(parent, entities, p, e)
  }

  // From an entity to its parent and on, up to one without a parent.
  ghost predicate Chain(parent: Relation, entities: seq<Entity>, chain: seq<Entity>) {
    && chain != [] && IsTop(parent, entities, chain[|chain| - 1])
    && forall k :: 0 <= k < |chain| - 1 ==> HangsFromOne(parent, entities, chain[k + 1], chain[k])
  }

  ghost predicate ClimbsAlong(parent: Relation, entities: seq<Entity>, e: Entity, n: nat, chain: seq<Entity>) {
    Chain(parent, entities, chain) && |chain| == n + 1 && chain[0] == e
  }

  // A chain of n parents leads from e to an entity without one.
  ghost predicate Climbs(parent: Relation, entities: seq<Entity>, e: Entity, n: nat) {
    exists chain :: ClimbsAlong(parent, entities, e, n, chain)
  }

  // The forest has the entities, and as its roots those that have no parent in this relation.
  ghost predicate Describes(f: Forest, parent: Relation, entities: seq<Entity>) {
    && Indexes(f, entities) && Indexed(f)
    && (forall p, e :: p in entities && e in entities && parent(p, e) ==> e.parentId == Some(p.id))
    && (forall e {:trigger RootIsTop(f, parent, entities, e)} :: e in entities ==> RootIsTop(f, parent, entities, e))
  }

  ghost predicate RootIsTop(f: Forest, parent: Relation, entities: seq<Entity>, e: Entity) {
    e.id in f.roots <==> IsTop(parent, entities, e)
  }

  lemma OneStepUp(f: Forest, parent: Relation, entities: seq<Entity>, p: Entity, e: Entity, n: nat)
    requires Describes(f, parent, entities) && e in entities && HangsFromOne(parent, entities, p, e)
    ensures Reaches(f, e.id, n + 1) <==> Reaches(f, p.id, n)
  {
    assert Known(f, e) && Known(f, p) && e.parentId == Some(p.id);
    assert RootIsTop(f, parent, entities, e);
  }

  lemma TopReaches(f: Forest, parent: Relation, entities: seq<Entity>, e: Entity, n: nat)
    requires Describes(f, parent, entities) && e in entities && IsTop(parent, entities, e)
    ensures Reaches(f, e.id, n) <==> n == 0
  {
    assert Known(f, e) && RootIsTop(f, parent, entities, e);
  }

  lemma {:induction false} ChainReaches(f: Forest, parent: Relation, entities: seq<Entity>, chain: seq<Entity>)
    requires Describes(f, parent, entities) && Chain(parent, entities, chain) && chain[0] in entities
    ensures Reaches(f, chain[0].id, |chain| - 1)
    decreases |chain|
  {
    if |chain| == 1 {
      TopReaches(f, parent, entities, chain[0], 0);
    } else {
      assert HangsFromOne(parent, entities, chain[1], chain[0]);
      ChainReaches(f, parent, entities, chain[1..]);
      OneStepUp(f, parent, entities, chain[1], chain[0], |chain| - 2);
    }
  }

  lemma ChainOnTop(parent: Relation, entities: seq<Entity>, e: Entity)
    requires IsTop(parent, entities, e)
    ensures ClimbsAlong(parent, entities, e, 0, [e])
  {}

  lemma LongerChain(parent: Relation, entities: seq<Entity>, p: Entity, e: Entity, n: nat, chain: seq<Entity>)
    requires HangsFromOne(parent, entities, p, e) && ClimbsAlong(parent, entities, p, n, chain)
    ensures ClimbsAlong(parent, entities, e, n + 1, [e] + chain)
  {
    var longer := [e] + chain;
    forall k | 0 <= k < |longer| - 1 ensures HangsFromOne(parent, entities, longer[k + 1], longer[k]) {
      if k > 0 { assert HangsFromOne(parent, entities, chain[k], chain[k - 1]); }
    }
  }

  lemma ReachingStep(f: Forest, parent: Relation, entities: seq<Entity>, e: Entity, n: nat) returns (p: Entity)
    requires Describes(f, parent, entities) && e in entities && Reaches(f, e.id, n + 1)
    ensures HangsFromOne(parent, entities, p, e) && Reaches(f, p.id, n)
  {
    assert Known(f, e) && RootIsTop(f, parent, entities, e);
    p :| HangsFromOne(parent, entities, p, e);
    OneStepUp(f, parent, entities, p, e, n);
  }

  lemma {:induction false} ReachingChain(f: Forest, parent: Relation, entities: seq<Entity>, e: Entity, n: nat)
    returns (chain: seq<Entity>)
    requires Describes(f, parent, entities) && e in entities && Reaches(f, e.id, n)
    ensures ClimbsAlong(parent, entities, e, n, chain)
    decreases n
  {
    if n == 0 {
      assert Known(f, e) && RootIsTop(f, parent, entities, e);
      ChainOnTop(parent, entities, e);
      chain := [e];
    } else {
      var p := ReachingStep(f, parent, entities, e, n - 1);
      var rest := ReachingChain(f, parent, entities, p, n - 1);
      LongerChain(parent, entities, p, e, n - 1, rest);
      chain := [e] + rest;
    }
  }

  lemma ClimbsExactly(f: Forest, parent: Relation, entities: seq<Entity>, e: Entity, n: nat)
    requires Describes(f, parent, entities) && e in entities
    ensures Climbs(parent, entities, e, n) <==> Reaches(f, e.id, n)
  {
    if chain :| ClimbsAlong(parent, entities, e, n, chain) {
      ChainReaches(f, parent, entities, chain);
    }
    if Reaches(f, e.id, n) {
      var chain := ReachingChain(f, parent, entities, e, n);
    }
  }

  lemma ClimbsForgetsOrder(parent: Relation, xs: seq<Entity>, ys: seq<Entity>, e: Entity, n: nat)
    requires forall x :: x in xs <==> x in ys
    ensures Climbs(parent, xs, e, n) <==> Climbs(parent, ys, e, n)
  {
    forall p, x ensures HangsFromOne(parent, xs, p, x) <==> HangsFromOne(parent, ys, p, x) {}
    forall chain ensures ClimbsAlong(parent, xs, e, n, chain) <==> ClimbsAlong(parent, ys, e, n, chain) {}
  }

  // ---------------------------------------------------------------- siblings in order

  ghost predicate Ascending(le: Relation, list: seq<Entity>) {
    forall i, j :: 0 <= i < j < |list| ==> le(list[i], list[j])
  }

  ghost predicate ChildrenAscend(f: Forest, le: Relation) {
    forall id :: Ascending(le, ChildrenOf(f, id))
  }

  predicate SiblingPair(base: nat, le: Relation, r: Row, q: Row) {
    base < r.depth && base < q.depth && r.entity.parentId == q.entity.parentId ==> le(r.entity, q.entity)
  }

  // Of two rows below the outermost level that hang from one parent, the earlier is the lesser.
  ghost predicate SiblingsAscend(base: nat, le: Relation, rows: seq<Row>) {
    forall i, j :: 0 <= i < j < |rows| ==> SiblingPair(base, le, rows[i], rows[j])
  }

  predicate ParentIn(ids: set<string>, e: Entity) {
    e.parentId.Some? && e.parentId.value in ids
  }

  ghost predicate ParentsVisited(base: nat, w: Walk) {
    forall r :: r in w.rows && base < r.depth ==> ParentIn(w.visited, r.entity)
  }

  // The siblings that already have rows may stand in front of what is still to come of this list.
  ghost predicate Follows(base: nat, le: Relation, w: Walk, list: seq<Entity>, depth: nat) {
    base < depth ==>
      forall e :: e in list ==> ParentIn(w.visited, e) && (e.id !in w.visited ==> FollowsRows(base, le, w.rows, e))
  }

  ghost predicate FollowsRows(base: nat, le: Relation, rows: seq<Row>, e: Entity) {
    forall r :: r in rows && base < r.depth && r.entity.parentId == e.parentId ==> le(r.entity, e)
  }

  // A row that a visit to this list adds: of the list, or below it under a parent that was not visited before.
  predicate AddedRow(visited: set<string>, list: seq<Entity>, depth: nat, r: Row) {
    (r.depth == depth && r.entity in list) || (depth < r.depth && r.entity.parentId.Some? && r.entity.parentId.value !in visited)
  }

  ghost predicate Adds(w: Walk, list: seq<Entity>, depth: nat, r: Walk) {
    w.rows <= r.rows && forall k :: |w.rows| <= k < |r.rows| ==> AddedRow(w.visited, list, depth, r.rows[k])
  }

  ghost predicate InOrder(base: nat, le: Relation, w: Walk) {
    SiblingsAscend(base, le, w.rows) && ParentsVisited(base, w)
  }

  lemma EnterInOrder(base: nat, le: Relation, e: Entity, depth: nat, w: Walk)
    requires InOrder(base, le, w) && Follows(base, le, w, [e], depth) && e.id !in w.visited
    ensures InOrder(base, le, Enter(e, depth, w))
  {
    assert e in [e];
    var rows := Enter(e, depth, w).rows;
    forall i, j | 0 <= i < j < |rows| ensures SiblingPair(base, le, rows[i], rows[j]) {
      assert j < |w.rows| ==> SiblingPair(base, le, w.rows[i], w.rows[j]);
      assert w.rows[i] in w.rows;
    }
  }

  lemma ChildrenFollow(f: Forest, base: nat, le: Relation, e: Entity, depth: nat, w: Walk)
    requires ChildrenLinked(f) && InOrder(base, le, w) && Follows(base, le, w, [e], depth) && e.id !in w.visited
    ensures Follows(base, le, Enter(e, depth, w), ChildrenOf(f, e.id), depth + 1)
  {
    assert e in [e];
    var entered := Enter(e, depth, w);
    forall r | r in entered.rows && base < r.depth ensures r.entity.parentId != Some(e.id) {
      assert r in w.rows || r == Row(depth, e);
    }
  }

  lemma {:induction false} VisitInOrder(f: Forest, base: nat, le: Relation, e: Entity, depth: nat, w: Walk)
    requires Closed(f) && ChildrenLinked(f) && ChildrenAscend(f, le) && Known(f, e) && base <= depth
    requires InOrder(base, le, w) && Follows(base, le, w, [e], depth)
    ensures InOrder(base, le, Visit(f, e, depth, w)) && Adds(w, [e], depth, Visit(f, e, depth, w))
    decreases |f.byId.Keys - w.visited|, 0, 0
  {
    if e.id !in w.visited {
      var entered := Enter(e, depth, w);
      Smaller(f.byId.Keys, w.visited, e.id);
      EnterInOrder(base, le, e, depth, w);
      ChildrenFollow(f, base, le, e, depth, w);
      assert Ascending(le, ChildrenOf(f, e.id));
      VisitAllInOrder(f, base, le, ChildrenOf(f, e.id), depth + 1, entered);
      ChildrenAreAdded(f, e, depth, w, Visit(f, e, depth, w));
    }
  }

  lemma ChildrenAreAdded(f: Forest, e: Entity, depth: nat, w: Walk, r: Walk)
    requires ChildrenLinked(f) && e.id !in w.visited && Adds(Enter(e, depth, w), ChildrenOf(f, e.id), depth + 1, r)
    ensures Adds(w, [e], depth, r)
  {
    var entered := Enter(e, depth, w);
    assert e in [e];
    forall k | |w.rows| <= k < |r.rows| ensures AddedRow(w.visited, [e], depth, r.rows[k]) {
      if k == |w.rows| {
        assert r.rows[k] == entered.rows[k] == Row(depth, e);
      } else {
        assert AddedRow(entered.visited, ChildrenOf(f, e.id), depth + 1, r.rows[k]);
      }
    }
  }

  lemma RestFollows(f: Forest, base: nat, le: Relation, list: seq<Entity>, depth: nat, w: Walk, first: Walk)
    requires list != [] && Ascending(le, list) && Follows(base, le, w, list, depth)
    requires Adds(w, [list[0]], depth, first) && w.visited <= first.visited
    ensures Follows(base, le, first, list[1..], depth)
  {
    if base < depth {
      forall e | e in list[1..] && e.id !in first.visited ensures FollowsRows(base, le, first.rows, e) {
        assert e in list && FollowsRows(base, le, w.rows, e);
        forall r | r in first.rows && base < r.depth && r.entity.parentId == e.parentId ensures le(r.entity, e) {
          var k :| 0 <= k < |first.rows| && first.rows[k] == r;
          if k < |w.rows| { assert w.rows[k] in w.rows; } else { assert AddedRow(w.visited, [list[0]], depth, first.rows[k]); }
        }
      }
    }
  }

  lemma AddsMore(list: seq<Entity>, depth: nat, w: Walk, first: Walk, r: Walk)
    requires list != [] && Adds(w, [list[0]], depth, first) && Adds(first, list[1..], depth, r) && w.visited <= first.visited
    ensures Adds(w, list, depth, r)
  {
    forall k | |w.rows| <= k < |r.rows| ensures AddedRow(w.visited, list, depth, r.rows[k]) {
      if k < |first.rows| {
        assert r.rows[k] == first.rows[k] && AddedRow(w.visited, [list[0]], depth, first.rows[k]);
      } else {
        assert AddedRow(first.visited, list[1..], depth, r.rows[k]);
      }
    }
  }

  lemma {:induction false} VisitAllInOrder(f: Forest, base: nat, le: Relation, list: seq<Entity>, depth: nat, w: Walk)
    requires Closed(f) && ChildrenLinked(f) && ChildrenAscend(f, le) && AllKnown(f, list) && base <= depth
    requires base < depth ==> Ascending(le, list)
    requires InOrder(base, le, w) && Follows(base, le, w, list, depth)
    ensures InOrder(base, le, VisitAll(f, list, depth, w)) && Adds(w, list, depth, VisitAll(f, list, depth, w))
    decreases |f.byId.Keys - w.visited|, |list|, 1
  {
    if list != [] {
      var first := Visit(f, list[0], depth, w);
      VisitInOrder(f, base, le, list[0], depth, w);
      Fewer(f.byId.Keys, w.visited, first.visited);
      if base < depth { RestFollows(f, base, le, list, depth, w, first); }
      VisitAllInOrder(f, base, le, list[1..], depth, first);
      AddsMore(list, depth, w, first, VisitAll(f, list[1..], depth, first));
    }
  }

  // Of the rows from n on, the outermost ones ascend.
  ghost predicate OutermostAscend(base: nat, le: Relation, rows: seq<Row>, n: nat) {
    forall i, j :: n <= i < j < |rows| && rows[i].depth == base && rows[j].depth == base ==> le(rows[i].entity, rows[j].entity)
  }

  lemma OneOutermost(f: Forest, base: nat, e: Entity, w: Walk, first: Walk, i: nat, j: nat)
    requires Tidy(f, first) && Adds(w, [e], base, first) && |w.rows| <= i < j < |first.rows|
    ensures first.rows[i].depth != base || first.rows[j].depth != base
  {
    assert AddedRow(w.visited, [e], base, first.rows[i]);
    assert AddedRow(w.visited, [e], base, first.rows[j]);
    assert first.rows[i].entity.id != first.rows[j].entity.id;
  }

  lemma {:induction false} ListAscends(f: Forest, base: nat, le: Relation, list: seq<Entity>, w: Walk)
    requires Closed(f) && ChildrenLinked(f) && AllKnown(f, list) && Ascending(le, list)
    requires Tidy(f, w) && InOrder(base, ANY, w)
    ensures OutermostAscend(base, le, VisitAll(f, list, base, w).rows, |w.rows|)
    decreases |list|
  {
    if list != [] {
      var first, r := Visit(f, list[0], base, w), VisitAll(f, list, base, w);
      assert ChildrenAscend(f, ANY);
      VisitInOrder(f, base, ANY, list[0], base, w);
      VisitTidy(f, list[0], base, w);
      VisitAllInOrder(f, base, ANY, list[1..], base, first);
      ListAscends(f, base, le, list[1..], first);
      forall i, j | |w.rows| <= i < j < |r.rows| && r.rows[i].depth == base && r.rows[j].depth == base
        ensures le(r.rows[i].entity, r.rows[j].entity)
      {
        if i < |first.rows| {
          assert AddedRow(w.visited, [list[0]], base, first.rows[i]);
          if j < |first.rows| { OneOutermost(f, base, list[0], w, first, i, j); }
          assert AddedRow(first.visited, list[1..], base, r.rows[j]);
        }
      }
    }
  }

  // Both passes: siblings ascend, and the outermost rows are those of the lists.
  lemma PassesAscend(f: Forest, base: nat, first: seq<Entity>, rest: seq<Entity>, le: Relation)
    requires Closed(f) && ChildrenLinked(f) && ChildrenAscend(f, le) && AllKnown(f, first) && AllKnown(f, rest)
    ensures var w1, w2 := VisitAll(f, first, base, EMPTY), TwoPasses(f, base, first, rest);
      SiblingsAscend(base, le, w2.rows) && Adds(EMPTY, first, base, w1) && Adds(w1, rest, base, w2)
  {
    var w1 := VisitAll(f, first, base, EMPTY);
    VisitAllInOrder(f, base, le, first, base, EMPTY);
    VisitAllInOrder(f, base, le, rest, base, w1);
  }

  // The outermost rows of each pass follow its list.
  lemma OutermostFollowLists(f: Forest, base: nat, first: seq<Entity>, rest: seq<Entity>, le: Relation)
    requires Closed(f) && ChildrenLinked(f) && AllKnown(f, first) && AllKnown(f, rest)
    ensures var w1, w2 := VisitAll(f, first, base, EMPTY), TwoPasses(f, base, first, rest);
      && (Ascending(le, first) ==> OutermostAscend(base, le, w1.rows, 0))
      && (Ascending(le, rest) ==> OutermostAscend(base, le, w2.rows, |w1.rows|))
  {
    var w1 := VisitAll(f, first, base, EMPTY);
    assert Tidy(f, EMPTY) && ChildrenAscend(f, ANY);
    VisitAllTidy(f, first, base, EMPTY);
    VisitAllInOrder(f, base, ANY, first, base, EMPTY);
    if Ascending(le, first) { ListAscends(f, base, le, first, EMPTY); }
    if Ascending(le, rest) { ListAscends(f, base, le, rest, w1); }
  }

  // A row whose entity the first pass visited is a row of the first pass.
  lemma RowIsInFirst(f: Forest, w1: Walk, w2: Walk, i: nat)
    requires Tidy(f, w1) && Tidy(f, w2) && w1.rows <= w2.rows && i < |w2.rows| && w2.rows[i].entity.id in w1.visited
    ensures i < |w1.rows|
  {
    var r :| r in w1.rows && r.entity.id == w2.rows[i].entity.id;
    var k :| 0 <= k < |w1.rows| && w1.rows[k] == r;
    assert w2.rows[k] == r;
    assert !(k < i) && !(i < k);
  }
}
