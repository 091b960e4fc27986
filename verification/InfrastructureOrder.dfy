module InfrastructureOrder {
  import opened Wrappers
  import opened Lists
  import opened Sorting
  import opened EntityOrder
  import opened DepthFirst

  // The Infrastructure tree: a flat list with any parent relation at all becomes a depth-first
  // forest.

  // The specification of `orderCanonicalInfrastructureEntities` is a function of the list; the
  // methods below it build the child lists and walk them with mutable state, as the source does.

  function Ids(entities: seq<Entity>): set<string> {
    set e | e in entities :: e.id
  }

  // `new Map(entities.map(...))`: a later entity replaces an earlier one with the same id.
  function ById(entities: seq<Entity>): (m: map<string, Entity>)
    ensures m.Keys == Ids(entities)
    ensures forall id :: id in m ==> m[id] in entities && m[id].id == id
  {
    if entities == [] then map[]
    else
      var init, last := entities[..|entities| - 1], entities[|entities| - 1];
      assert entities == init + [last];
      ById(init)[last.id := last]
  }

  predicate HasParent(ids: set<string>, e: Entity) {
    e.parentId.Some? && e.parentId.value != "" && e.parentId.value != e.id && e.parentId.value in ids
  }

  function IsRoot(ids: set<string>): Entity -> bool {
    (e: Entity) => !HasParent(ids, e)
  }

  function IsChildOf(ids: set<string>, id: string): Entity -> bool {
    (e: Entity) => HasParent(ids, e) && e.parentId.value == id
  }

  function SortedChildren(lc: Collation, entities: seq<Entity>, id: string): seq<Entity> {
    Sort(ByRole(lc), Filter(IsChildOf(Ids(entities), id), entities))
  }

  function SortedRoots(lc: Collation, entities: seq<Entity>): seq<Entity> {
    Sort(ByRole(lc), Filter(IsRoot(Ids(entities)), entities))
  }

  function ChildMap(lc: Collation, entities: seq<Entity>): map<string, seq<Entity>> {
    map id | id in Ids(entities) && Filter(IsChildOf(Ids(entities), id), entities) != []
      :: SortedChildren(lc, entities, id)
  }

  lemma ChildMapAt(lc: Collation, entities: seq<Entity>, id: string)
    ensures id in ChildMap(lc, entities) <==> Filter(IsChildOf(Ids(entities), id), entities) != []
    ensures id in ChildMap(lc, entities) ==> ChildMap(lc, entities)[id] == SortedChildren(lc, entities, id)
  {
    var list := Filter(IsChildOf(Ids(entities), id), entities);
    FilterElements(IsChildOf(Ids(entities), id), entities);
    if list != [] { assert list[0] in list; }
  }

  lemma MapsAgree<K, V>(a: map<K, V>, b: map<K, V>)
    requires a.Keys == b.Keys && forall k :: k in a ==> a[k] == b[k]
    ensures a == b
  {}

  ghost function InfrastructureForest(lc: Collation, entities: seq<Entity>): Forest {
    Forest(
      ById(entities),
      ChildMap(lc, entities),
      Ids(Filter(IsRoot(Ids(entities)), entities)))
  }

  lemma ByIdOfElement(entities: seq<Entity>, e: Entity)
    requires UniqueIds(entities) && e in entities
    ensures e.id in ById(entities) && ById(entities)[e.id] == e
  {
    var other := ById(entities)[e.id];
    var i :| 0 <= i < |entities| && entities[i] == e;
    var j :| 0 <= j < |entities| && entities[j] == other;
    assert !(i < j) && !(j < i);
  }

  lemma ChildrenOfForest(lc: Collation, entities: seq<Entity>, id: string)
    ensures ChildrenOf(InfrastructureForest(lc, entities), id) == SortedChildren(lc, entities, id)
    ensures forall c :: c in SortedChildren(lc, entities, id) <==>
      c in entities && HasParent(Ids(entities), c) && c.parentId.value == id
  {
    var list := Filter(IsChildOf(Ids(entities), id), entities);
    ChildMapAt(lc, entities, id);
    SortedElements(ByRole(lc), list);
    FilterElements(IsChildOf(Ids(entities), id), entities);
  }

  lemma ForestIndexes(lc: Collation, entities: seq<Entity>)
    requires UniqueIds(entities)
    ensures Indexes(InfrastructureForest(lc, entities), entities)
    ensures Indexed(InfrastructureForest(lc, entities))
  {
    forall e | e in entities ensures Known(InfrastructureForest(lc, entities), e) { ByIdOfElement(entities, e); }
  }

  lemma RootsOfForest(lc: Collation, entities: seq<Entity>, e: Entity)
    requires UniqueIds(entities) && e in entities
    ensures e.id in InfrastructureForest(lc, entities).roots <==> !HasParent(Ids(entities), e)
  {
    var rootList := Filter(IsRoot(Ids(entities)), entities);
    FilterElements(IsRoot(Ids(entities)), entities);
    if e.id in Ids(rootList) {
      var r :| r in rootList && r.id == e.id;
      ByIdOfElement(entities, r);
      ByIdOfElement(entities, e);
    }
  }

  lemma ForestChildren(lc: Collation, entities: seq<Entity>, id: string, c: Entity)
    requires UniqueIds(entities) && c in ChildrenOf(InfrastructureForest(lc, entities), id)
    ensures Known(InfrastructureForest(lc, entities), c)
    ensures c.parentId == Some(id) && c.id !in InfrastructureForest(lc, entities).roots
  {
    ChildrenOfForest(lc, entities, id);
    ByIdOfElement(entities, c);
    RootsOfForest(lc, entities, c);
  }

  lemma ForestListsEntity(lc: Collation, entities: seq<Entity>, id: string)
    requires UniqueIds(entities) && id in ById(entities) && id !in InfrastructureForest(lc, entities).roots
    ensures IsListed(InfrastructureForest(lc, entities), ById(entities)[id])
  {
    var e := ById(entities)[id];
    RootsOfForest(lc, entities, e);
    ChildrenOfForest(lc, entities, e.parentId.value);
  }

  lemma ForestIsClosed(lc: Collation, entities: seq<Entity>)
    requires UniqueIds(entities)
    ensures Closed(InfrastructureForest(lc, entities))
  {
    var f := InfrastructureForest(lc, entities);
    forall id ensures AllKnown(f, ChildrenOf(f, id)) {
      forall c | c in ChildrenOf(f, id) ensures Known(f, c) { ForestChildren(lc, entities, id, c); }
    }
  }

  lemma ForestLinksChildren(lc: Collation, entities: seq<Entity>)
    requires UniqueIds(entities)
    ensures ChildrenLinked(InfrastructureForest(lc, entities))
  {
    var f := InfrastructureForest(lc, entities);
    forall id, c | c in ChildrenOf(f, id) ensures c.parentId == Some(id) { ForestChildren(lc, entities, id, c); }
  }

  lemma ForestRootsApart(lc: Collation, entities: seq<Entity>)
    requires UniqueIds(entities)
    ensures RootsApart(InfrastructureForest(lc, entities))
  {
    var f := InfrastructureForest(lc, entities);
    forall id, c | c in ChildrenOf(f, id) ensures c.id !in f.roots { ForestChildren(lc, entities, id, c); }
  }

  lemma ForestListsAll(lc: Collation, entities: seq<Entity>)
    requires UniqueIds(entities)
    ensures Listed(InfrastructureForest(lc, entities))
  {
    var f := InfrastructureForest(lc, entities);
    forall id | id in f.byId && id !in f.roots ensures IsListed(f, f.byId[id]) {
      ForestListsEntity(lc, entities, id);
    }
  }

  lemma ForestIsLinked(lc: Collation, entities: seq<Entity>)
    requires UniqueIds(entities)
    ensures Linked(InfrastructureForest(lc, entities))
  {
    ForestIndexes(lc, entities);
    ForestIsClosed(lc, entities);
    ForestLinksChildren(lc, entities);
    ForestRootsApart(lc, entities);
    ForestListsAll(lc, entities);
  }

  lemma ForestIsCovered(lc: Collation, entities: seq<Entity>)
    requires UniqueIds(entities)
    ensures Covering(InfrastructureForest(lc, entities), SortedRoots(lc, entities), Sort(ByRole(lc), entities))
    ensures forall e :: e in SortedRoots(lc, entities) ==> e.id in InfrastructureForest(lc, entities).roots
  {
    var f := InfrastructureForest(lc, entities);
    var rootList := Filter(IsRoot(Ids(entities)), entities);
    FilterElements(IsRoot(Ids(entities)), entities);
    ForestIndexes(lc, entities);
    SortedElements(ByRole(lc), entities);
    SortedElements(ByRole(lc), rootList);
    forall id | id in f.roots ensures id in f.byId && f.byId[id] in SortedRoots(lc, entities) {
      var r :| r in rootList && r.id == id;
      assert Known(f, r);
    }
  }

  // The specification of the ordering.
  ghost function OrderedWalk(lc: Collation, entities: seq<Entity>): Walk
    requires UniqueIds(entities)
  {
    ForestIsLinked(lc, entities);
    ForestIsCovered(lc, entities);
    TwoPasses(InfrastructureForest(lc, entities), 0, SortedRoots(lc, entities), Sort(ByRole(lc), entities))
  }

  // ---------------------------------------------------------------- what the ordering guarantees

  lemma OrderingVisitsAllOnce(lc: Collation, entities: seq<Entity>)
    requires UniqueIds(entities)
    ensures Tidy(InfrastructureForest(lc, entities), OrderedWalk(lc, entities))
    ensures OrderedWalk(lc, entities).visited == InfrastructureForest(lc, entities).byId.Keys
  {
    ForestIsLinked(lc, entities);
    ForestIsCovered(lc, entities);
    PassesVisitAllOnce(InfrastructureForest(lc, entities), 0, SortedRoots(lc, entities), Sort(ByRole(lc), entities));
  }

  // No record is hidden and none is shown twice, whatever the parent ids say.
  lemma OrderingIsPermutation(lc: Collation, entities: seq<Entity>)
    requires UniqueIds(entities)
    ensures multiset(EntitiesOf(OrderedWalk(lc, entities).rows)) == multiset(entities)
  {
    OrderingVisitsAllOnce(lc, entities);
    ForestIndexes(lc, entities);
    WalkIsPermutation(InfrastructureForest(lc, entities), OrderedWalk(lc, entities), entities);
  }

  // Every row below the top level comes after its parent, one level deeper, with only rows at
  // least as deep in between.
  lemma OrderingIsDepthFirst(lc: Collation, entities: seq<Entity>)
    requires UniqueIds(entities)
    ensures Nested(0, OrderedWalk(lc, entities).rows)
  {
    ForestIsLinked(lc, entities);
    ForestIsCovered(lc, entities);
    PassesAreNested(InfrastructureForest(lc, entities), 0, SortedRoots(lc, entities), Sort(ByRole(lc), entities));
  }

  // What counts as a parent here: not the empty id, and not the entity itself.
  const PARENT: Relation := (p: Entity, e: Entity) => e.parentId == Some(p.id) && p.id != "" && p.id != e.id

  // The parent chain of the entity leaves the list after exactly `n` present ancestors.
  ghost predicate HasAncestors(entities: seq<Entity>, e: Entity, n: nat) {
    Climbs(PARENT, entities, e, n)
  }

  lemma HasParentExactly(entities: seq<Entity>, e: Entity)
    ensures HasParent(Ids(entities), e) <==> !IsTop(PARENT, entities, e)
  {
    if HasParent(Ids(entities), e) {
      var p :| p in entities && p.id == e.parentId.value;
      assert HangsFromOne(PARENT, entities, p, e);
    }
    if p :| HangsFromOne(PARENT, entities, p, e) {
      assert p.id in Ids(entities);
    }
  }

  lemma ForestDescribes(lc: Collation, entities: seq<Entity>)
    requires UniqueIds(entities)
    ensures Describes(InfrastructureForest(lc, entities), PARENT, entities)
  {
    ForestIndexes(lc, entities);
    forall e | e in entities ensures RootIsTop(InfrastructureForest(lc, entities), PARENT, entities, e) {
      RootsOfForest(lc, entities, e);
      HasParentExactly(entities, e);
    }
  }

  lemma RowsAreEntities(lc: Collation, entities: seq<Entity>, r: Row)
    requires UniqueIds(entities) && r in OrderedWalk(lc, entities).rows
    ensures r.entity in entities
  {
    OrderingVisitsAllOnce(lc, entities);
    ForestIndexes(lc, entities);
    assert Known(InfrastructureForest(lc, entities), r.entity);
  }

  // Depth is the number of present ancestors whenever the parent chain ends.
  lemma DepthCountsAncestors(lc: Collation, entities: seq<Entity>, r: Row, n: nat)
    requires UniqueIds(entities) && r in OrderedWalk(lc, entities).rows
    requires HasAncestors(entities, r.entity, n)
    ensures r.depth == n
  {
    RowsAreEntities(lc, entities, r);
    ForestDescribes(lc, entities);
    ClimbsExactly(InfrastructureForest(lc, entities), PARENT, entities, r.entity, n);
    ForestIsLinked(lc, entities);
    ForestIsCovered(lc, entities);
    PassesRankRows(InfrastructureForest(lc, entities), 0, SortedRoots(lc, entities), Sort(ByRole(lc), entities), r, n);
  }

  // Only roots, and entities whose parent chain runs into a cycle, stand at the top level.
  lemma TopLevelRows(lc: Collation, entities: seq<Entity>, r: Row)
    requires UniqueIds(entities) && r in OrderedWalk(lc, entities).rows && r.depth == 0
    ensures IsTop(PARENT, entities, r.entity) || forall n: nat :: !HasAncestors(entities, r.entity, n)
  {
    var f := InfrastructureForest(lc, entities);
    RowsAreEntities(lc, entities, r);
    ForestDescribes(lc, entities);
    HasParentExactly(entities, r.entity);
    forall n: nat ensures HasAncestors(entities, r.entity, n) <==> Reaches(f, r.entity.id, n) {
      ClimbsExactly(f, PARENT, entities, r.entity, n);
    }
    OrderingVisitsAllOnce(lc, entities);
    RootsOfForest(lc, entities, r.entity);
    ForestIsLinked(lc, entities);
    ForestIsCovered(lc, entities);
    OutermostRows(f, 0, SortedRoots(lc, entities), Sort(ByRole(lc), entities), r);
  }

  // ---------------------------------------------------------------- in which order

  ghost function NotAfter(lc: Collation): Relation {
    (a: Entity, b: Entity) => ByRole(lc)(a, b) <= 0
  }

  lemma SortedAscends(lc: Collation, list: seq<Entity>)
    requires IsCollation(lc)
    ensures Ascending(NotAfter(lc), Sort(ByRole(lc), list))
  {
    ByRoleIsOrder(lc);
    SortSorts(ByRole(lc), list);
  }

  lemma ForestAscends(lc: Collation, entities: seq<Entity>)
    requires IsCollation(lc)
    ensures ChildrenAscend(InfrastructureForest(lc, entities), NotAfter(lc))
  {
    forall id ensures Ascending(NotAfter(lc), ChildrenOf(InfrastructureForest(lc, entities), id)) {
      ChildrenOfForest(lc, entities, id);
      SortedAscends(lc, Filter(IsChildOf(Ids(entities), id), entities));
    }
  }

  // The pass over the roots.
  ghost function FirstPass(lc: Collation, entities: seq<Entity>): Walk
    requires UniqueIds(entities)
  {
    ForestIsLinked(lc, entities);
    ForestIsCovered(lc, entities);
    VisitAll(InfrastructureForest(lc, entities), SortedRoots(lc, entities), 0, EMPTY)
  }

  lemma FirstPassIsFirst(lc: Collation, entities: seq<Entity>)
    requires UniqueIds(entities)
    ensures var f, w1, w2 := InfrastructureForest(lc, entities), FirstPass(lc, entities), OrderedWalk(lc, entities);
      Tidy(f, w1) && Tidy(f, w2) && w1.rows <= w2.rows && f.roots <= w1.visited
  {
    var f := InfrastructureForest(lc, entities);
    ForestIsLinked(lc, entities);
    ForestIsCovered(lc, entities);
    assert Tidy(f, EMPTY);
    VisitAllTidy(f, SortedRoots(lc, entities), 0, EMPTY);
    VisitAllReaches(f, SortedRoots(lc, entities), 0, EMPTY);
    PassesVisitAllOnce(f, 0, SortedRoots(lc, entities), Sort(ByRole(lc), entities));
    forall id | id in f.roots ensures id in FirstPass(lc, entities).visited {
      assert f.byId[id] in SortedRoots(lc, entities);
    }
  }

  lemma OrderedWalkAscends(lc: Collation, entities: seq<Entity>)
    requires IsCollation(lc) && UniqueIds(entities)
    ensures var le, w1, w2 := NotAfter(lc), FirstPass(lc, entities), OrderedWalk(lc, entities);
      && SiblingsAscend(0, le, w2.rows)
      && Adds(EMPTY, SortedRoots(lc, entities), 0, w1)
      && OutermostAscend(0, le, w1.rows, 0) && OutermostAscend(0, le, w2.rows, |w1.rows|)
  {
    ForestIsLinked(lc, entities);
    ForestIsCovered(lc, entities);
    ForestAscends(lc, entities);
    SortedAscends(lc, Filter(IsRoot(Ids(entities)), entities));
    SortedAscends(lc, entities);
    PassesAscend(InfrastructureForest(lc, entities), 0, SortedRoots(lc, entities), Sort(ByRole(lc), entities), NotAfter(lc));
    OutermostFollowLists(InfrastructureForest(lc, entities), 0, SortedRoots(lc, entities), Sort(ByRole(lc), entities), NotAfter(lc));
  }

  lemma RowIsTop(lc: Collation, entities: seq<Entity>, r: Row)
    requires UniqueIds(entities) && r in OrderedWalk(lc, entities).rows
    ensures IsTop(PARENT, entities, r.entity) <==> r.entity.id in InfrastructureForest(lc, entities).roots
  {
    RowsAreEntities(lc, entities, r);
    RootsOfForest(lc, entities, r.entity);
    HasParentExactly(entities, r.entity);
  }

  // A row at the top level is that of a root exactly when the first pass put it there.
  lemma RootRows(lc: Collation, entities: seq<Entity>, i: nat)
    requires IsCollation(lc) && UniqueIds(entities) && i < |OrderedWalk(lc, entities).rows|
    requires OrderedWalk(lc, entities).rows[i].depth == 0
    ensures IsTop(PARENT, entities, OrderedWalk(lc, entities).rows[i].entity) <==> i < |FirstPass(lc, entities).rows|
  {
    var f, w1, w2 := InfrastructureForest(lc, entities), FirstPass(lc, entities), OrderedWalk(lc, entities);
    RowIsTop(lc, entities, w2.rows[i]);
    FirstPassIsFirst(lc, entities);
    OrderedWalkAscends(lc, entities);
    ForestIsCovered(lc, entities);
    if i < |w1.rows| {
      assert AddedRow({}, SortedRoots(lc, entities), 0, w1.rows[i]);
    } else if w2.rows[i].entity.id in f.roots {
      RowIsInFirst(f, w1, w2, i);
    }
  }

  lemma TopRowsAscend(lc: Collation, entities: seq<Entity>, i: nat, j: nat)
    requires IsCollation(lc) && UniqueIds(entities) && i < j < |OrderedWalk(lc, entities).rows|
    requires OrderedWalk(lc, entities).rows[i].depth == OrderedWalk(lc, entities).rows[j].depth == 0
    ensures var n, a, b := |FirstPass(lc, entities).rows|, OrderedWalk(lc, entities).rows[i], OrderedWalk(lc, entities).rows[j];
      j < n || n <= i ==> NotAfter(lc)(a.entity, b.entity)
  {
    var w1, w2 := FirstPass(lc, entities), OrderedWalk(lc, entities);
    OrderedWalkAscends(lc, entities);
    FirstPassIsFirst(lc, entities);
    if j < |w1.rows| {
      assert w1.rows[i] == w2.rows[i] && w1.rows[j] == w2.rows[j];
    }
  }

  // The order of the rows: roots come first, and roots, what is left over, and the children of one parent stand
  // each by role from the top of the hierarchy down, then by code, by name and by id.
  lemma RowsInOrder(lc: Collation, entities: seq<Entity>, i: nat, j: nat)
    requires IsCollation(lc) && UniqueIds(entities) && i < j < |OrderedWalk(lc, entities).rows|
    ensures var a, b := OrderedWalk(lc, entities).rows[i], OrderedWalk(lc, entities).rows[j];
      && (0 < a.depth && 0 < b.depth && a.entity.parentId == b.entity.parentId ==> RoleOrdered(lc, a.entity, b.entity))
      && (IsTop(PARENT, entities, a.entity) && IsTop(PARENT, entities, b.entity) ==> RoleOrdered(lc, a.entity, b.entity))
      && (a.depth == 0 && IsTop(PARENT, entities, b.entity) ==> IsTop(PARENT, entities, a.entity))
      && (a.depth == b.depth == 0 && !IsTop(PARENT, entities, a.entity) ==> RoleOrdered(lc, a.entity, b.entity))
  {
    var rows := OrderedWalk(lc, entities).rows;
    var a, b := rows[i], rows[j];
    ByRoleOrders(lc, a.entity, b.entity);
    if IsTop(PARENT, entities, a.entity) { TopRow(lc, entities, a); }
    if IsTop(PARENT, entities, b.entity) { TopRow(lc, entities, b); }
    if a.depth == 0 && b.depth == 0 {
      RootRows(lc, entities, i);
      RootRows(lc, entities, j);
      TopRowsAscend(lc, entities, i, j);
    } else if 0 < a.depth && 0 < b.depth {
      OrderedWalkAscends(lc, entities);
      assert SiblingPair(0, NotAfter(lc), a, b);
    }
  }

  // A root stands at the top level.
  lemma TopRow(lc: Collation, entities: seq<Entity>, r: Row)
    requires UniqueIds(entities) && r in OrderedWalk(lc, entities).rows && IsTop(PARENT, entities, r.entity)
    ensures r.depth == 0
  {
    ChainOnTop(PARENT, entities, r.entity);
    assert HasAncestors(entities, r.entity, 0);
    DepthCountsAncestors(lc, entities, r, 0);
  }

  ghost function Ancestors(f: Forest, id: string, n: nat): set<string>
    requires Reaches(f, id, n)
    decreases n
  {
    if n == 0 then {} else {f.byId[id].parentId.value} + Ancestors(f, f.byId[id].parentId.value, n - 1)
  }

  // Each ancestor is itself a number of steps away from the root, and a smaller one.
  lemma {:induction false} AncestorsAreCloser(f: Forest, id: string, n: nat, a: string)
    requires Reaches(f, id, n) && a in Ancestors(f, id, n)
    ensures exists m: nat :: m < n && Reaches(f, a, m)
    decreases n
  {
    var p := f.byId[id].parentId.value;
    if a == p {
      assert Reaches(f, a, n - 1);
    } else {
      AncestorsAreCloser(f, p, n - 1, a);
      var m: nat :| m < n - 1 && Reaches(f, a, m);
      assert m < n;
    }
  }

  // The `n` of `HasAncestors` counts different entities.
  lemma {:induction false} AncestorsAreDistinct(f: Forest, id: string, n: nat)
    requires Reaches(f, id, n)
    ensures |Ancestors(f, id, n)| == n
    decreases n
  {
    if n > 0 {
      var p := f.byId[id].parentId.value;
      AncestorsAreDistinct(f, p, n - 1);
      if p in Ancestors(f, p, n - 1) {
        AncestorsAreCloser(f, p, n - 1, p);
        var m: nat :| m < n - 1 && Reaches(f, p, m);
        ReachesOnce(f, p, m, n - 1);
      }
    }
  }

  lemma SameIds(xs: seq<Entity>, ys: seq<Entity>)
    requires multiset(xs) == multiset(ys)
    ensures Ids(xs) == Ids(ys)
  {
    SameElements(xs, ys);
  }

  lemma SortedFilterForgetsOrder(lc: Collation, p: Entity -> bool, xs: seq<Entity>, ys: seq<Entity>)
    requires IsCollation(lc) && UniqueIds(xs) && multiset(xs) == multiset(ys)
    ensures Sort(ByRole(lc), Filter(p, xs)) == Sort(ByRole(lc), Filter(p, ys))
  {
    ByRoleIsOrder(lc);
    UniqueIdsHaveNoTies(ByRole(lc), xs);
    FilterElements(p, xs);
    FilterForgetsOrder(p, xs, ys);
    SortForgetsOrder(ByRole(lc), Filter(p, xs), Filter(p, ys));
  }

  lemma ByIdForgetsOrder(xs: seq<Entity>, ys: seq<Entity>)
    requires UniqueIds(xs) && multiset(xs) == multiset(ys)
    ensures ById(xs) == ById(ys)
  {
    SameIds(xs, ys);
    SameElements(xs, ys);
    forall id | id in Ids(xs) ensures ById(xs)[id] == ById(ys)[id] {
      ByIdOfElement(xs, ById(ys)[id]);
    }
  }

  lemma FilterEmptiness(p: Entity -> bool, xs: seq<Entity>, ys: seq<Entity>)
    requires multiset(xs) == multiset(ys)
    ensures Filter(p, xs) == [] <==> Filter(p, ys) == []
    ensures Ids(Filter(p, xs)) == Ids(Filter(p, ys))
  {
    FilterForgetsOrder(p, xs, ys);
    SameIds(Filter(p, xs), Filter(p, ys));
    SameElements(Filter(p, xs), Filter(p, ys));
  }

  lemma ChildrenForgetOrder(lc: Collation, xs: seq<Entity>, ys: seq<Entity>)
    requires IsCollation(lc) && UniqueIds(xs) && multiset(xs) == multiset(ys)
    ensures ChildMap(lc, xs) == ChildMap(lc, ys)
  {
    SameIds(xs, ys);
    var a, b := ChildMap(lc, xs), ChildMap(lc, ys);
    forall id ensures (id in a <==> id in b) && (id in a ==> a[id] == b[id]) {
      ChildMapAt(lc, xs, id);
      ChildMapAt(lc, ys, id);
      FilterEmptiness(IsChildOf(Ids(xs), id), xs, ys);
      SortedFilterForgetsOrder(lc, IsChildOf(Ids(xs), id), xs, ys);
    }
    MapsAgree(a, b);
  }

  lemma ForestForgetsOrder(lc: Collation, xs: seq<Entity>, ys: seq<Entity>)
    requires IsCollation(lc) && UniqueIds(xs) && multiset(xs) == multiset(ys)
    ensures InfrastructureForest(lc, xs) == InfrastructureForest(lc, ys)
  {
    ByIdForgetsOrder(xs, ys);
    SameIds(xs, ys);
    FilterEmptiness(IsRoot(Ids(xs)), xs, ys);
    ChildrenForgetOrder(lc, xs, ys);
  }

  // The ordering is a function of the set of entities: permuting the input changes nothing.
  lemma OrderingForgetsInputOrder(lc: Collation, xs: seq<Entity>, ys: seq<Entity>)
    requires IsCollation(lc) && UniqueIds(xs) && UniqueIds(ys) && multiset(xs) == multiset(ys)
    ensures OrderedWalk(lc, xs).rows == OrderedWalk(lc, ys).rows
  {
    ForestForgetsOrder(lc, xs, ys);
    SameIds(xs, ys);
    SortedFilterForgetsOrder(lc, IsRoot(Ids(xs)), xs, ys);
    ByRoleIsOrder(lc);
    UniqueIdsHaveNoTies(ByRole(lc), xs);
    SortForgetsOrder(ByRole(lc), xs, ys);
  }

  // ---------------------------------------------------------------- the algorithm

  // `children` holds, in input order, exactly the non-empty child lists of these entities.
  ghost predicate Grouped(ids: set<string>, entities: seq<Entity>, children: map<string, seq<Entity>>) {
    forall id :: GroupedAt(ids, entities, children, id)
  }

  predicate GroupedAt(ids: set<string>, entities: seq<Entity>, children: map<string, seq<Entity>>, id: string) {
    var list := Filter(IsChildOf(ids, id), entities);
    (id in children <==> list != []) && (id in children ==> children[id] == list)
  }

  lemma GroupNext(ids: set<string>, entities: seq<Entity>, i: nat,
                  before: map<string, seq<Entity>>, after: map<string, seq<Entity>>)
    requires i < |entities| && Grouped(ids, entities[..i], before)
    requires HasParent(ids, entities[i]) ==>
      var parent := entities[i].parentId.value;
      after == before[parent := (if parent in before then before[parent] else []) + [entities[i]]]
    requires !HasParent(ids, entities[i]) ==> after == before
    ensures Grouped(ids, entities[..i + 1], after)
  {
    var next := entities[..i + 1];
    forall id ensures GroupedAt(ids, next, after, id) {
      assert GroupedAt(ids, entities[..i], before, id);
      FilterSnoc(IsChildOf(ids, id), entities, i);
    }
  }

  // The first loop: every entity becomes a root or goes to the end of its parent's list.
  method GroupByParent(entities: seq<Entity>, ids: set<string>)
    returns (children: map<string, seq<Entity>>, roots: seq<Entity>)
    ensures roots == Filter(IsRoot(ids), entities)
    ensures Grouped(ids, entities, children)
  {
    children, roots := map[], [];
    for i := 0 to |entities|
      invariant roots == Filter(IsRoot(ids), entities[..i])
      invariant Grouped(ids, entities[..i], children)
    {
      var entity := entities[i];
      ghost var before := children;
      FilterSnoc(IsRoot(ids), entities, i);
      if entity.parentId == None || entity.parentId.value == "" || entity.parentId.value == entity.id
         || entity.parentId.value !in ids
      {
        roots := roots + [entity];
      } else {
        var parent := entity.parentId.value;
        var siblings := if parent in children then children[parent] else [];
        children := children[parent := siblings + [entity]];
      }
      GroupNext(ids, entities, i, before, children);
    }
    assert entities[..|entities|] == entities;
  }

  // `for (const siblings of children.values()) siblings.sort(...)`.
  method SortSiblings(cmp: Comparator<Entity>, children: map<string, seq<Entity>>)
    returns (sorted: map<string, seq<Entity>>)
    ensures sorted == map id | id in children :: Sort(cmp, children[id])
  {
    sorted := map[];
    var remaining := children.Keys;
    while remaining != {}
      invariant remaining <= children.Keys
      invariant sorted == map id | id in children && id !in remaining :: Sort(cmp, children[id])
      decreases remaining
    {
      var id :| id in remaining;
      sorted := sorted[id := Sort(cmp, children[id])];
      remaining := remaining - {id};
    }
  }

  class HierarchyWalk {
    const forest: Forest
    var visited: set<string>
    var ordered: seq<Row>

    ghost function Progress(): Walk
      reads this
    {
      Walk(visited, ordered)
    }

    constructor (forest: Forest)
      ensures this.forest == forest && Progress() == EMPTY
    {
      this.forest := forest;
      visited, ordered := {}, [];
    }

    method Visit(entity: Entity, depth: nat)
      requires Closed(forest) && Known(forest, entity)
      modifies this
      ensures Progress() == DepthFirst.Visit(forest, entity, depth, old(Progress()))
      decreases |forest.byId.Keys - visited|, 0, 0
    {
      if entity.id in visited { return; }
      Smaller(forest.byId.Keys, visited, entity.id);
      visited := visited + {entity.id};
      ordered := ordered + [Row(depth, entity)];
      VisitEach(ChildrenOf(forest, entity.id), depth + 1);
    }

    // `for (const child of list) visit(child, depth)`.
    method VisitEach(list: seq<Entity>, depth: nat)
      requires Closed(forest) && AllKnown(forest, list)
      modifies this
      ensures Progress() == VisitAll(forest, list, depth, old(Progress()))
      decreases |forest.byId.Keys - visited|, |list|, 1
    {
      ghost var start := Progress();
      for i := 0 to |list|
        invariant start.visited <= visited
        invariant VisitAll(forest, list[i..], depth, Progress()) == VisitAll(forest, list, depth, start)
      {
        Fewer(forest.byId.Keys, start.visited, visited);
        assert list[i..][0] == list[i] && list[i..][1..] == list[i + 1..];
        Visit(list[i], depth);
      }
    }
  }

  lemma GroupedForest(lc: Collation, entities: seq<Entity>, children: map<string, seq<Entity>>)
    requires Grouped(Ids(entities), entities, children)
    ensures (map id | id in children :: Sort(ByRole(lc), children[id])) == ChildMap(lc, entities)
  {
    var a := map id | id in children :: Sort(ByRole(lc), children[id]);
    forall id ensures (id in a <==> id in ChildMap(lc, entities)) && (id in a ==> a[id] == ChildMap(lc, entities)[id]) {
      assert GroupedAt(Ids(entities), entities, children, id);
      ChildMapAt(lc, entities, id);
    }
    MapsAgree(a, ChildMap(lc, entities));
  }

  method OrderCanonicalInfrastructureEntities(lc: Collation, entities: seq<Entity>) returns (ordered: seq<Row>)
    requires UniqueIds(entities)
    ensures ordered == OrderedWalk(lc, entities).rows
  {
    var byId := ById(entities);
    var children, roots := GroupByParent(entities, byId.Keys);
    var sortedRoots := Sort(ByRole(lc), roots);
    var sortedChildren := SortSiblings(ByRole(lc), children);
    GroupedForest(lc, entities, children);
    ForestIsLinked(lc, entities);
    ForestIsCovered(lc, entities);
    var walk := new HierarchyWalk(Forest(byId, sortedChildren, Ids(roots)));
    walk.VisitEach(sortedRoots, 0);
    walk.VisitEach(Sort(ByRole(lc), entities), 0);
    return walk.ordered;
  }
}
