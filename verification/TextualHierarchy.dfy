module TextualHierarchy {
  import opened Wrappers
  import opened Lists
  import opened Sorting
  import opened EntityOrder
  import opened DepthFirst
  import Infrastructure = InfrastructureOrder

  // The textual fallback of the graph: a second, differently written walk of the same data.
  // It groups by the raw parent id, passes a set of ancestors down the recursion beside the
  // shared `rendered` set, and takes what is left over in input order.

  function Ids(entities: seq<Entity>): set<string> {
    Infrastructure.Ids(entities)
  }

  // No parent id, or a parent that is not in the list. A self-parent is not a root here.
  predicate HasTextParent(ids: set<string>, e: Entity) {
    e.parentId.Some? && e.parentId.value != "" && e.parentId.value in ids
  }

  function IsTextRoot(ids: set<string>): Entity -> bool {
    (e: Entity) => !HasTextParent(ids, e)
  }

  function HasParentId(key: Option<string>): Entity -> bool {
    (e: Entity) => e.parentId == key
  }

  function IdNotIn(ids: set<string>): Entity -> bool {
    (e: Entity) => e.id !in ids
  }

  function SortedRoots(lc: Collation, entities: seq<Entity>): seq<Entity> {
    Sort(ByCode(lc), Filter(IsTextRoot(Ids(entities)), entities))
  }

  function SortedGroup(lc: Collation, entities: seq<Entity>, key: Option<string>): seq<Entity> {
    Sort(ByCode(lc), Filter(HasParentId(key), entities))
  }

  function ChildMap(lc: Collation, entities: seq<Entity>): map<string, seq<Entity>> {
    map id | id in Ids(entities) :: SortedGroup(lc, entities, Some(id))
  }

  ghost function TextForest(lc: Collation, entities: seq<Entity>): Forest {
    Forest(Infrastructure.ById(entities), ChildMap(lc, entities), Ids(Filter(IsTextRoot(Ids(entities)), entities)))
  }

  // ---------------------------------------------------------------- the recursion

  // `branch` on one entity and on a list, as written: both guards, and a filter on the descendants.
  ghost function BranchOne(f: Forest, e: Entity, level: nat, ancestors: set<string>, w: Walk): (r: Walk)
    requires Closed(f) && Known(f, e)
    ensures w.visited <= r.visited
    decreases |f.byId.Keys - w.visited|, 0, 0
  {
    if e.id in w.visited || e.id in ancestors then w
    else
      var next := ancestors + {e.id};
      Smaller(f.byId.Keys, w.visited, e.id);
      FilterElements(IdNotIn(next), ChildrenOf(f, e.id));
      Branch(f, Filter(IdNotIn(next), ChildrenOf(f, e.id)), level + 1, next, Enter(e, level, w))
  }

  ghost function Branch(f: Forest, list: seq<Entity>, level: nat, ancestors: set<string>, w: Walk): (r: Walk)
    requires Closed(f) && AllKnown(f, list)
    ensures w.visited <= r.visited
    decreases |f.byId.Keys - w.visited|, |list|, 1
  {
    if list == [] then w
    else
      var first := BranchOne(f, list[0], level, ancestors, w);
      Fewer(f.byId.Keys, w.visited, first.visited);
      Branch(f, list[1..], level, ancestors, first)
  }

  lemma {:induction false} FilterHead<T>(p: T -> bool, xs: seq<T>)
    requires xs != []
    ensures Filter(p, xs) == (if p(xs[0]) then [xs[0]] else []) + Filter(p, xs[1..])
  {
    if |xs| > 1 {
      FilterHead(p, xs[..|xs| - 1]);
      assert xs[..|xs| - 1][1..] == xs[1..][..|xs| - 2];
    }
  }

  // Dropping entities that were visited already does not change a walk.
  lemma {:induction false} SkipVisited(f: Forest, p: Entity -> bool, list: seq<Entity>, depth: nat, w: Walk)
    requires Closed(f) && AllKnown(f, list) && AllKnown(f, Filter(p, list))
    requires forall e :: e in list && !p(e) ==> e.id in w.visited
    ensures VisitAll(f, Filter(p, list), depth, w) == VisitAll(f, list, depth, w)
    decreases |list|
  {
    if list != [] {
      FilterHead(p, list);
      FilterElements(p, list[1..]);
      var first := Visit(f, list[0], depth, w);
      SkipVisited(f, p, list[1..], depth, first);
      if p(list[0]) {
        assert Filter(p, list)[0] == list[0] && Filter(p, list)[1..] == Filter(p, list[1..]);
      } else {
        assert Filter(p, list) == Filter(p, list[1..]);
      }
    }
  }

  // Ancestors are rendered before their descendants, so the ancestor set never decides alone: with
  // it or without it the walk is the same depth-first walk.
  lemma {:induction false} AncestorGuardIsRedundant(
    f: Forest, list: seq<Entity>, level: nat, ancestors: set<string>, w: Walk)
    requires Closed(f) && AllKnown(f, list) && ancestors <= w.visited
    ensures Branch(f, list, level, ancestors, w) == VisitAll(f, list, level, w)
    decreases |f.byId.Keys - w.visited|, |list|, 1
  {
    if list != [] {
      AncestorGuardIsRedundantOne(f, list[0], level, ancestors, w);
      var first := Visit(f, list[0], level, w);
      Fewer(f.byId.Keys, w.visited, first.visited);
      AncestorGuardIsRedundant(f, list[1..], level, ancestors, first);
    }
  }

  lemma {:induction false} AncestorGuardIsRedundantOne(
    f: Forest, e: Entity, level: nat, ancestors: set<string>, w: Walk)
    requires Closed(f) && Known(f, e) && ancestors <= w.visited
    ensures BranchOne(f, e, level, ancestors, w) == Visit(f, e, level, w)
    decreases |f.byId.Keys - w.visited|, 0, 0
  {
    if e.id !in w.visited {
      var next := ancestors + {e.id};
      var children, entered := ChildrenOf(f, e.id), Enter(e, level, w);
      Smaller(f.byId.Keys, w.visited, e.id);
      FilterElements(IdNotIn(next), children);
      AncestorGuardIsRedundant(f, Filter(IdNotIn(next), children), level + 1, next, entered);
      SkipVisited(f, IdNotIn(next), children, level + 1, entered);
    }
  }

  // ---------------------------------------------------------------- the forest it walks

  lemma ChildrenOfTextForest(lc: Collation, entities: seq<Entity>, id: string, c: Entity)
    requires UniqueIds(entities) && c in ChildrenOf(TextForest(lc, entities), id)
    ensures c in entities && c.parentId == Some(id) && id in Ids(entities)
    ensures Known(TextForest(lc, entities), c)
  {
    SortedElements(ByCode(lc), Filter(HasParentId(Some(id)), entities));
    FilterElements(HasParentId(Some(id)), entities);
    Infrastructure.ByIdOfElement(entities, c);
  }

  lemma TextForestIndexes(lc: Collation, entities: seq<Entity>)
    requires UniqueIds(entities)
    ensures Indexes(TextForest(lc, entities), entities) && Indexed(TextForest(lc, entities))
  {
    forall e | e in entities ensures Known(TextForest(lc, entities), e) {
      Infrastructure.ByIdOfElement(entities, e);
    }
  }

  lemma TextForestIsClosed(lc: Collation, entities: seq<Entity>)
    requires UniqueIds(entities)
    ensures Closed(TextForest(lc, entities)) && ChildrenLinked(TextForest(lc, entities))
  {
    var f := TextForest(lc, entities);
    forall id ensures AllKnown(f, ChildrenOf(f, id)) {
      forall c | c in ChildrenOf(f, id) ensures Known(f, c) { ChildrenOfTextForest(lc, entities, id, c); }
    }
    forall id, c | c in ChildrenOf(f, id) ensures c.parentId == Some(id) {
      ChildrenOfTextForest(lc, entities, id, c);
    }
  }

  lemma RootsOfTextForest(lc: Collation, entities: seq<Entity>, e: Entity)
    requires UniqueIds(entities) && e in entities
    ensures e.id in TextForest(lc, entities).roots <==> !HasTextParent(Ids(entities), e)
  {
    var rootList := Filter(IsTextRoot(Ids(entities)), entities);
    FilterElements(IsTextRoot(Ids(entities)), entities);
    if e.id in Ids(rootList) {
      var r :| r in rootList && r.id == e.id;
      Infrastructure.ByIdOfElement(entities, r);
      Infrastructure.ByIdOfElement(entities, e);
    }
  }

  // `parent_id` is null or a UUID, so no entity hangs from the empty string.
  ghost predicate NoEmptyParent(entities: seq<Entity>) {
    "" in Ids(entities) ==> forall e :: e in entities ==> e.parentId != Some("")
  }

  lemma TextRootsApart(lc: Collation, entities: seq<Entity>)
    requires UniqueIds(entities) && NoEmptyParent(entities)
    ensures RootsApart(TextForest(lc, entities))
  {
    var f := TextForest(lc, entities);
    forall id, c | c in ChildrenOf(f, id) ensures c.id !in f.roots {
      ChildrenOfTextForest(lc, entities, id, c);
      RootsOfTextForest(lc, entities, c);
    }
  }

  lemma TextForestListsAll(lc: Collation, entities: seq<Entity>)
    requires UniqueIds(entities)
    ensures Listed(TextForest(lc, entities))
  {
    var f := TextForest(lc, entities);
    forall id | id in f.byId && id !in f.roots ensures IsListed(f, f.byId[id]) {
      var e := f.byId[id];
      RootsOfTextForest(lc, entities, e);
      SortedElements(ByCode(lc), Filter(HasParentId(e.parentId), entities));
      FilterElements(HasParentId(e.parentId), entities);
    }
  }

  lemma TextForestIsCovered(lc: Collation, entities: seq<Entity>)
    requires UniqueIds(entities)
    ensures Covering(TextForest(lc, entities), FirstList(lc, entities), entities)
    ensures SortedRoots(lc, entities) != [] ==>
      forall e :: e in FirstList(lc, entities) ==> e.id in TextForest(lc, entities).roots
    ensures SortedRoots(lc, entities) == [] ==> TextForest(lc, entities).roots == {}
  {
    var f := TextForest(lc, entities);
    var rootList := Filter(IsTextRoot(Ids(entities)), entities);
    TextForestIndexes(lc, entities);
    SortedElements(ByCode(lc), rootList);
    FilterElements(IsTextRoot(Ids(entities)), entities);
    forall id | id in f.roots ensures id in f.byId && f.byId[id] in FirstList(lc, entities) {
      var r :| r in rootList && r.id == id;
      assert Known(f, r) && r in SortedRoots(lc, entities);
    }
  }

  // ---------------------------------------------------------------- what it renders

  // `roots.length ? roots : entities`.
  function FirstList(lc: Collation, entities: seq<Entity>): seq<Entity> {
    if SortedRoots(lc, entities) != [] then SortedRoots(lc, entities) else entities
  }

  lemma FirstListKnown(lc: Collation, entities: seq<Entity>)
    requires UniqueIds(entities)
    ensures Closed(TextForest(lc, entities)) && AllKnown(TextForest(lc, entities), entities)
    ensures AllKnown(TextForest(lc, entities), FirstList(lc, entities))
    ensures forall p :: AllKnown(TextForest(lc, entities), Filter(p, entities))
  {
    TextForestIsClosed(lc, entities);
    TextForestIsCovered(lc, entities);
    forall p ensures AllKnown(TextForest(lc, entities), Filter(p, entities)) { FilterElements(p, entities); }
  }

  // The rendered items in document order; `depth` is the aria-level.
  ghost function Rendered(lc: Collation, entities: seq<Entity>): Walk
    requires UniqueIds(entities)
  {
    FirstListKnown(lc, entities);
    var f := TextForest(lc, entities);
    var rootBranches := Branch(f, FirstList(lc, entities), 1, {}, EMPTY);
    Branch(f, Filter(IdNotIn(rootBranches.visited), entities), 1, {}, rootBranches)
  }

  lemma RenderedIsTwoPasses(lc: Collation, entities: seq<Entity>)
    requires UniqueIds(entities)
    ensures Covering(TextForest(lc, entities), FirstList(lc, entities), entities)
    ensures Closed(TextForest(lc, entities)) && Indexed(TextForest(lc, entities))
    ensures Rendered(lc, entities) == TwoPasses(TextForest(lc, entities), 1, FirstList(lc, entities), entities)
  {
    var f := TextForest(lc, entities);
    FirstListKnown(lc, entities);
    TextForestIsCovered(lc, entities);
    TextForestIndexes(lc, entities);
    AncestorGuardIsRedundant(f, FirstList(lc, entities), 1, {}, EMPTY);
    var w := VisitAll(f, FirstList(lc, entities), 1, EMPTY);
    AncestorGuardIsRedundant(f, Filter(IdNotIn(w.visited), entities), 1, {}, w);
    SkipVisited(f, IdNotIn(w.visited), entities, 1, w);
  }

  // Every entity is rendered exactly once, for any parent relation; so the fallback shows exactly
  // the entities of the Infrastructure tree.
  lemma RendersEveryEntityOnce(lc: Collation, entities: seq<Entity>)
    requires UniqueIds(entities)
    ensures multiset(EntitiesOf(Rendered(lc, entities).rows)) == multiset(entities)
    ensures multiset(EntitiesOf(Rendered(lc, entities).rows))
      == multiset(EntitiesOf(Infrastructure.OrderedWalk(lc, entities).rows))
  {
    RenderedIsTwoPasses(lc, entities);
    PassesVisitAllOnce(TextForest(lc, entities), 1, FirstList(lc, entities), entities);
    TextForestIndexes(lc, entities);
    WalkIsPermutation(TextForest(lc, entities), Rendered(lc, entities), entities);
    Infrastructure.OrderingIsPermutation(lc, entities);
  }

  // What counts as a parent here: the entity itself too.
  const TEXT_PARENT: Relation := (p: Entity, e: Entity) => e.parentId == Some(p.id) && p.id != ""

  // The parent chain of `e` leaves the list after `n` steps, without meeting a self-parent or a cycle.
  ghost predicate Acyclic(entities: seq<Entity>, e: Entity, n: nat) {
    Climbs(TEXT_PARENT, entities, e, n)
  }

  lemma HasTextParentExactly(entities: seq<Entity>, e: Entity)
    ensures HasTextParent(Ids(entities), e) <==> !IsTop(TEXT_PARENT, entities, e)
  {
    if HasTextParent(Ids(entities), e) {
      var p :| p in entities && p.id == e.parentId.value;
      assert HangsFromOne(TEXT_PARENT, entities, p, e);
    }
    if p :| HangsFromOne(TEXT_PARENT, entities, p, e) {
      assert p.id in Ids(entities);
    }
  }

  lemma TextForestDescribes(lc: Collation, entities: seq<Entity>)
    requires UniqueIds(entities)
    ensures Describes(TextForest(lc, entities), TEXT_PARENT, entities)
  {
    TextForestIndexes(lc, entities);
    forall e | e in entities ensures RootIsTop(TextForest(lc, entities), TEXT_PARENT, entities, e) {
      RootsOfTextForest(lc, entities, e);
      HasTextParentExactly(entities, e);
    }
  }

  lemma ItemsAreEntities(lc: Collation, entities: seq<Entity>, item: Row)
    requires UniqueIds(entities) && item in Rendered(lc, entities).rows
    ensures item.entity in entities
  {
    RenderedIsTwoPasses(lc, entities);
    PassesVisitAllOnce(TextForest(lc, entities), 1, FirstList(lc, entities), entities);
    TextForestIndexes(lc, entities);
    assert Known(TextForest(lc, entities), item.entity);
  }

  // Counting some self-parents as roots as well leaves every chain that reached a root as it was.
  lemma {:induction false} MoreRootsReach(f: Forest, g: Forest, id: string, n: nat)
    requires g.byId == f.byId && f.roots <= g.roots
    requires forall r :: r in g.roots && r !in f.roots && r in g.byId ==> g.byId[r].parentId == Some(r)
    requires Reaches(f, id, n)
    ensures Reaches(g, id, n) && f.roots != {}
    decreases n
  {
    if n > 0 {
      var p := f.byId[id].parentId.value;
      MoreRootsReach(f, g, p, n - 1);
      if p == id { ReachesOnce(f, p, n - 1, n); }
    }
  }

  lemma AcyclicHasAncestors(lc: Collation, entities: seq<Entity>, e: Entity, n: nat)
    requires UniqueIds(entities) && e in entities && Acyclic(entities, e, n)
    ensures Infrastructure.HasAncestors(entities, e, n)
    ensures Reaches(TextForest(lc, entities), e.id, n) && TextForest(lc, entities).roots != {}
  {
    TextForestDescribes(lc, entities);
    ClimbsExactly(TextForest(lc, entities), TEXT_PARENT, entities, e, n);
    var f, g := TextForest(lc, entities), Infrastructure.InfrastructureForest(lc, entities);
    FilterElements(IsTextRoot(Ids(entities)), entities);
    FilterElements(Infrastructure.IsRoot(Ids(entities)), entities);
    forall r | r in g.roots && r !in f.roots && r in g.byId ensures g.byId[r].parentId == Some(r) {
      Infrastructure.RootsOfForest(lc, entities, g.byId[r]);
      RootsOfTextForest(lc, entities, g.byId[r]);
    }
    MoreRootsReach(f, g, e.id, n);
    Infrastructure.ForestDescribes(lc, entities);
    ClimbsExactly(g, Infrastructure.PARENT, entities, e, n);
  }

  // Where the parent chain ends, the aria-level is the Infrastructure depth plus one.
  lemma LevelIsDepthPlusOne(lc: Collation, entities: seq<Entity>, item: Row, row: Row, n: nat)
    requires UniqueIds(entities) && NoEmptyParent(entities)
    requires item in Rendered(lc, entities).rows && row in Infrastructure.OrderedWalk(lc, entities).rows
    requires item.entity == row.entity && Acyclic(entities, item.entity, n)
    ensures item.depth == row.depth + 1 == n + 1
  {
    ItemsAreEntities(lc, entities, item);
    AcyclicHasAncestors(lc, entities, item.entity, n);
    Infrastructure.DepthCountsAncestors(lc, entities, row, n);
    RenderedIsTwoPasses(lc, entities);
    TextForestIsClosed(lc, entities);
    TextRootsApart(lc, entities);
    TextForestListsAll(lc, entities);
    TextForestIsCovered(lc, entities);
    PassesRankRows(TextForest(lc, entities), 1, FirstList(lc, entities), entities, item, n);
  }

  // ---------------------------------------------------------------- in which order

  ghost function NotAfter(lc: Collation): Relation {
    (a: Entity, b: Entity) => ByCode(lc)(a, b) <= 0
  }

  ghost function InputOrder(entities: seq<Entity>): Relation {
    (a: Entity, b: Entity) => StandsBefore(entities, a, b)
  }

  lemma SortedAscends(lc: Collation, list: seq<Entity>)
    requires IsCollation(lc)
    ensures Ascending(NotAfter(lc), Sort(ByCode(lc), list))
  {
    ByCodeIsOrder(lc);
    SortSorts(ByCode(lc), list);
  }

  lemma TextForestAscends(lc: Collation, entities: seq<Entity>)
    requires IsCollation(lc)
    ensures ChildrenAscend(TextForest(lc, entities), NotAfter(lc))
  {
    forall id ensures Ascending(NotAfter(lc), ChildrenOf(TextForest(lc, entities), id)) {
      SortedAscends(lc, Filter(HasParentId(Some(id)), entities));
    }
  }

  lemma InputAscends(entities: seq<Entity>)
    ensures Ascending(InputOrder(entities), entities)
  {
    forall i, j | 0 <= i < j < |entities| ensures InputOrder(entities)(entities[i], entities[j]) {
      assert StandsBefore(entities, entities[i], entities[j]);
    }
  }

  // The pass over the roots, or over the input where there are none.
  ghost function FirstPass(lc: Collation, entities: seq<Entity>): Walk
    requires UniqueIds(entities)
  {
    FirstListKnown(lc, entities);
    VisitAll(TextForest(lc, entities), FirstList(lc, entities), 1, EMPTY)
  }

  lemma RenderedAscends(lc: Collation, entities: seq<Entity>)
    requires IsCollation(lc) && UniqueIds(entities)
    ensures var w1, w2 := FirstPass(lc, entities), Rendered(lc, entities);
      && SiblingsAscend(1, NotAfter(lc), w2.rows) && Adds(EMPTY, FirstList(lc, entities), 1, w1)
      && (SortedRoots(lc, entities) != [] ==> OutermostAscend(1, NotAfter(lc), w1.rows, 0))
      && (SortedRoots(lc, entities) == [] ==> OutermostAscend(1, InputOrder(entities), w1.rows, 0))
      && OutermostAscend(1, InputOrder(entities), w2.rows, |w1.rows|)
  {
    var f, first := TextForest(lc, entities), FirstList(lc, entities);
    FirstListKnown(lc, entities);
    TextForestIsClosed(lc, entities);
    RenderedIsTwoPasses(lc, entities);
    TextForestAscends(lc, entities);
    SortedAscends(lc, Filter(IsTextRoot(Ids(entities)), entities));
    InputAscends(entities);
    PassesAscend(f, 1, first, entities, NotAfter(lc));
    OutermostFollowLists(f, 1, first, entities, NotAfter(lc));
    OutermostFollowLists(f, 1, first, entities, InputOrder(entities));
  }

  lemma FirstPassIsFirst(lc: Collation, entities: seq<Entity>)
    requires UniqueIds(entities)
    ensures var f, w1, w2 := TextForest(lc, entities), FirstPass(lc, entities), Rendered(lc, entities);
      Tidy(f, w1) && Tidy(f, w2) && w1.rows <= w2.rows && forall e :: e in FirstList(lc, entities) ==> e.id in w1.visited
  {
    var f := TextForest(lc, entities);
    FirstListKnown(lc, entities);
    RenderedIsTwoPasses(lc, entities);
    assert Tidy(f, EMPTY);
    VisitAllTidy(f, FirstList(lc, entities), 1, EMPTY);
    VisitAllReaches(f, FirstList(lc, entities), 1, EMPTY);
    PassesVisitAllOnce(f, 1, FirstList(lc, entities), entities);
  }

  lemma TopIsFirst(lc: Collation, entities: seq<Entity>, e: Entity)
    requires UniqueIds(entities) && e in entities
    ensures IsTop(TEXT_PARENT, entities, e) <==> e in SortedRoots(lc, entities)
  {
    HasTextParentExactly(entities, e);
    FilterElements(IsTextRoot(Ids(entities)), entities);
    SortedElements(ByCode(lc), Filter(IsTextRoot(Ids(entities)), entities));
  }

  // An item at the top level is that of a root exactly when there are roots and the first pass put it there.
  lemma RootItems(lc: Collation, entities: seq<Entity>, i: nat)
    requires IsCollation(lc) && UniqueIds(entities) && i < |Rendered(lc, entities).rows|
    requires Rendered(lc, entities).rows[i].depth == 1
    ensures var item := Rendered(lc, entities).rows[i];
      IsTop(TEXT_PARENT, entities, item.entity) <==> SortedRoots(lc, entities) != [] && i < |FirstPass(lc, entities).rows|
  {
    var f, w1, w2 := TextForest(lc, entities), FirstPass(lc, entities), Rendered(lc, entities);
    ItemsAreEntities(lc, entities, w2.rows[i]);
    TopIsFirst(lc, entities, w2.rows[i].entity);
    FirstPassIsFirst(lc, entities);
    RenderedAscends(lc, entities);
    if i < |w1.rows| {
      assert AddedRow({}, FirstList(lc, entities), 1, w1.rows[i]);
    } else if w2.rows[i].entity in SortedRoots(lc, entities) {
      RowIsInFirst(f, w1, w2, i);
    }
  }

  // The order of the items: roots first and by code and id, the children of one parent by code and id, and what
  // is left over in the order of the input.
  lemma ItemsInOrder(lc: Collation, entities: seq<Entity>, i: nat, j: nat)
    requires IsCollation(lc) && UniqueIds(entities) && i < j < |Rendered(lc, entities).rows|
    ensures var a, b := Rendered(lc, entities).rows[i], Rendered(lc, entities).rows[j];
      && (1 < a.depth && 1 < b.depth && a.entity.parentId == b.entity.parentId ==> CodeOrdered(lc, a.entity, b.entity))
      && (a.depth == b.depth == 1 ==>
            && (IsTop(TEXT_PARENT, entities, b.entity) ==>
                  IsTop(TEXT_PARENT, entities, a.entity) && CodeOrdered(lc, a.entity, b.entity))
            && (!IsTop(TEXT_PARENT, entities, a.entity) ==> StandsBefore(entities, a.entity, b.entity)))
  {
    var w1, w2 := FirstPass(lc, entities), Rendered(lc, entities);
    var a, b := w2.rows[i], w2.rows[j];
    ByCodeOrders(lc, a.entity, b.entity);
    RenderedAscends(lc, entities);
    assert SiblingPair(1, NotAfter(lc), a, b);
    if a.depth == 1 && b.depth == 1 {
      RootItems(lc, entities, i);
      RootItems(lc, entities, j);
      TopItemsAscend(lc, entities, i, j);
    }
  }

  // Without roots the first pass visits everything.
  lemma RootlessFirstPass(lc: Collation, entities: seq<Entity>, i: nat)
    requires UniqueIds(entities) && i < |Rendered(lc, entities).rows| && SortedRoots(lc, entities) == []
    ensures i < |FirstPass(lc, entities).rows|
  {
    FirstPassIsFirst(lc, entities);
    ItemsAreEntities(lc, entities, Rendered(lc, entities).rows[i]);
    RowIsInFirst(TextForest(lc, entities), FirstPass(lc, entities), Rendered(lc, entities), i);
  }

  lemma TopItemsAscend(lc: Collation, entities: seq<Entity>, i: nat, j: nat)
    requires IsCollation(lc) && UniqueIds(entities) && i < j < |Rendered(lc, entities).rows|
    requires Rendered(lc, entities).rows[i].depth == Rendered(lc, entities).rows[j].depth == 1
    ensures var n, a, b := |FirstPass(lc, entities).rows|, Rendered(lc, entities).rows[i], Rendered(lc, entities).rows[j];
      if SortedRoots(lc, entities) != [] && i < n then j < n ==> NotAfter(lc)(a.entity, b.entity)
      else StandsBefore(entities, a.entity, b.entity)
  {
    var w1, w2 := FirstPass(lc, entities), Rendered(lc, entities);
    RenderedAscends(lc, entities);
    FirstPassIsFirst(lc, entities);
    if SortedRoots(lc, entities) == [] {
      RootlessFirstPass(lc, entities, j);
    }
    if j < |w1.rows| {
      assert w1.rows[i] == w2.rows[i] && w1.rows[j] == w2.rows[j];
    }
    if SortedRoots(lc, entities) == [] || |w1.rows| <= i {
      assert InputOrder(entities)(w2.rows[i].entity, w2.rows[j].entity);
    }
  }

  // ---------------------------------------------------------------- when the input order shows

  lemma SortedFilterForgetsOrder(lc: Collation, p: Entity -> bool, xs: seq<Entity>, ys: seq<Entity>)
    requires IsCollation(lc) && UniqueIds(xs) && multiset(xs) == multiset(ys)
    ensures Sort(ByCode(lc), Filter(p, xs)) == Sort(ByCode(lc), Filter(p, ys))
  {
    ByCodeIsOrder(lc);
    UniqueIdsHaveNoTies(ByCode(lc), xs);
    FilterElements(p, xs);
    FilterForgetsOrder(p, xs, ys);
    SortForgetsOrder(ByCode(lc), Filter(p, xs), Filter(p, ys));
  }

  lemma TextForestForgetsOrder(lc: Collation, xs: seq<Entity>, ys: seq<Entity>)
    requires IsCollation(lc) && UniqueIds(xs) && multiset(xs) == multiset(ys)
    ensures TextForest(lc, xs) == TextForest(lc, ys) && SortedRoots(lc, xs) == SortedRoots(lc, ys)
  {
    Infrastructure.ByIdForgetsOrder(xs, ys);
    Infrastructure.SameIds(xs, ys);
    Infrastructure.FilterEmptiness(IsTextRoot(Ids(xs)), xs, ys);
    SortedFilterForgetsOrder(lc, IsTextRoot(Ids(xs)), xs, ys);
    forall id | id in Ids(xs) ensures SortedGroup(lc, xs, Some(id)) == SortedGroup(lc, ys, Some(id)) {
      SortedFilterForgetsOrder(lc, HasParentId(Some(id)), xs, ys);
    }
    Infrastructure.MapsAgree(ChildMap(lc, xs), ChildMap(lc, ys));
  }

  // The parent chain of a stray entity never arrives at a root.
  ghost predicate Stray(entities: seq<Entity>, e: Entity) {
    forall n: nat :: !Climbs(TEXT_PARENT, entities, e, n)
  }

  lemma StrayNeverReaches(lc: Collation, entities: seq<Entity>, e: Entity)
    requires UniqueIds(entities) && e in entities
    ensures Stray(entities, e) <==> NeverReaches(TextForest(lc, entities), e.id)
  {
    TextForestDescribes(lc, entities);
    forall n: nat ensures Climbs(TEXT_PARENT, entities, e, n) <==> Reaches(TextForest(lc, entities), e.id, n) {
      ClimbsExactly(TextForest(lc, entities), TEXT_PARENT, entities, e, n);
    }
  }

  ghost predicate AtMostOneStray(entities: seq<Entity>) {
    forall a, b :: a in entities && b in entities && Stray(entities, a) && Stray(entities, b) ==> a == b
  }

  // What is rendered before the input order can matter: everything that reaches a root.
  ghost function Settled(lc: Collation, entities: seq<Entity>): Walk
    requires UniqueIds(entities)
  {
    FirstListKnown(lc, entities);
    if SortedRoots(lc, entities) == [] then EMPTY
    else VisitAll(TextForest(lc, entities), FirstList(lc, entities), 1, EMPTY)
  }

  lemma SettledIsTidy(lc: Collation, entities: seq<Entity>)
    requires UniqueIds(entities)
    ensures Tidy(TextForest(lc, entities), Settled(lc, entities))
  {
    FirstListKnown(lc, entities);
    assert Tidy(TextForest(lc, entities), EMPTY);
    VisitAllTidy(TextForest(lc, entities), FirstList(lc, entities), 1, EMPTY);
  }

  lemma RootedFirstList(lc: Collation, entities: seq<Entity>)
    requires UniqueIds(entities) && SortedRoots(lc, entities) != []
    ensures RootsAre(TextForest(lc, entities), FirstList(lc, entities))
  {
    TextForestIsCovered(lc, entities);
  }

  lemma TextForestIsSound(lc: Collation, entities: seq<Entity>)
    requires UniqueIds(entities)
    ensures var f := TextForest(lc, entities);
      Indexed(f) && Closed(f) && ChildrenLinked(f) && Listed(f) && AllKnown(f, FirstList(lc, entities))
  {
    FirstListKnown(lc, entities);
    TextForestIndexes(lc, entities);
    TextForestIsClosed(lc, entities);
    TextForestListsAll(lc, entities);
  }

  lemma RootedSettles(lc: Collation, entities: seq<Entity>, id: string)
    requires UniqueIds(entities) && SortedRoots(lc, entities) != []
    ensures id in Settled(lc, entities).visited <==> !NeverReaches(TextForest(lc, entities), id)
  {
    TextForestIsSound(lc, entities);
    RootedFirstList(lc, entities);
    RootPassVisits(TextForest(lc, entities), 1, FirstList(lc, entities), id);
  }

  // Exactly the entities that are not stray are settled.
  lemma SettledReach(lc: Collation, entities: seq<Entity>, e: Entity)
    requires UniqueIds(entities) && e in entities
    ensures e.id in Settled(lc, entities).visited <==> !Stray(entities, e)
  {
    StrayNeverReaches(lc, entities, e);
    if SortedRoots(lc, entities) != [] {
      RootedSettles(lc, entities, e.id);
    } else {
      TextForestIsCovered(lc, entities);
      RootlessNeverReaches(TextForest(lc, entities), e.id);
    }
  }

  lemma RootlessNeverReaches(f: Forest, id: string)
    requires f.roots == {}
    ensures NeverReaches(f, id)
  {
    forall n: nat ensures !Reaches(f, id, n) { RootlessReachesNowhere(f, id, n); }
  }

  lemma {:induction false} RootlessReachesNowhere(f: Forest, id: string, n: nat)
    requires f.roots == {}
    ensures !Reaches(f, id, n)
    decreases n
  {
    if n > 0 && id in f.byId && f.byId[id].parentId.Some? {
      RootlessReachesNowhere(f, f.byId[id].parentId.value, n - 1);
    }
  }

  // The rest is rendered in one pass over the input.
  lemma RenderedFromSettled(lc: Collation, entities: seq<Entity>)
    requires UniqueIds(entities)
    ensures Closed(TextForest(lc, entities)) && AllKnown(TextForest(lc, entities), entities)
    ensures Rendered(lc, entities) == VisitAll(TextForest(lc, entities), entities, 1, Settled(lc, entities))
  {
    var f := TextForest(lc, entities);
    RenderedIsTwoPasses(lc, entities);
    FirstListKnown(lc, entities);
    if SortedRoots(lc, entities) == [] {
      var w := VisitAll(f, entities, 1, EMPTY);
      VisitAllReaches(f, entities, 1, EMPTY);
      NothingLeft(f, entities, 1, w);
    }
  }

  lemma SettledForgetsOrder(lc: Collation, xs: seq<Entity>, ys: seq<Entity>)
    requires IsCollation(lc) && UniqueIds(xs) && UniqueIds(ys) && multiset(xs) == multiset(ys)
    ensures Settled(lc, xs) == Settled(lc, ys)
  {
    TextForestForgetsOrder(lc, xs, ys);
  }

  // With at most one stray entity, what follows the settled part is that entity or nothing.
  lemma FewStraysAreAppended(lc: Collation, entities: seq<Entity>)
    requires UniqueIds(entities) && AtMostOneStray(entities)
    ensures (forall e :: e in entities ==> !Stray(entities, e)) ==> Rendered(lc, entities) == Settled(lc, entities)
    ensures forall e :: e in entities && Stray(entities, e) ==>
      Rendered(lc, entities) == Enter(e, 1, Settled(lc, entities))
  {
    var f, w := TextForest(lc, entities), Settled(lc, entities);
    forall e | e in entities ensures e.id in w.visited <==> !Stray(entities, e) { SettledReach(lc, entities, e); }
    RenderedFromSettled(lc, entities);
    TextForestIndexes(lc, entities);
    if forall e :: e in entities ==> !Stray(entities, e) {
      NothingLeft(f, entities, 1, w);
    }
    forall e | e in entities && Stray(entities, e) ensures Rendered(lc, entities) == Enter(e, 1, w) {
      forall d | Known(f, d) && d != e ensures d.id in w.visited { assert d in entities; }
      OneLeft(f, entities, 1, w, e);
    }
  }

  // A stray entity that comes first in the input comes first behind the settled part.
  lemma FirstStrayShows(lc: Collation, entities: seq<Entity>)
    requires UniqueIds(entities) && entities != [] && Stray(entities, entities[0])
    ensures var n := |Settled(lc, entities).rows|; var rows := Rendered(lc, entities).rows;
      n < |rows| && rows[n] == Row(1, entities[0])
  {
    SettledReach(lc, entities, entities[0]);
    SettledIsTidy(lc, entities);
    RenderedFromSettled(lc, entities);
    FirstLeft(TextForest(lc, entities), entities, 1, Settled(lc, entities));
  }

  // No permutation of the input renders differently.
  ghost predicate ForgetsOrder(lc: Collation, xs: seq<Entity>)
    requires UniqueIds(xs)
  {
    forall ys :: multiset(ys) == multiset(xs) && UniqueIds(ys) ==> Rendered(lc, ys).rows == Rendered(lc, xs).rows
  }

  lemma StraysForgetOrder(xs: seq<Entity>, ys: seq<Entity>)
    requires multiset(ys) == multiset(xs)
    ensures forall e :: (e in xs <==> e in ys) && (Stray(xs, e) <==> Stray(ys, e))
  {
    SameElements(xs, ys);
    forall e ensures Stray(xs, e) <==> Stray(ys, e) {
      StrayForgetsOrder(xs, ys, e);
    }
  }

  lemma StrayForgetsOrder(xs: seq<Entity>, ys: seq<Entity>, e: Entity)
    requires multiset(ys) == multiset(xs)
    ensures Stray(xs, e) <==> Stray(ys, e)
  {
    SameElements(xs, ys);
    forall n: nat ensures Climbs(TEXT_PARENT, xs, e, n) <==> Climbs(TEXT_PARENT, ys, e, n) {
      ClimbsForgetsOrder(TEXT_PARENT, xs, ys, e, n);
    }
  }

  lemma FewStraysForgetOrder(lc: Collation, xs: seq<Entity>, ys: seq<Entity>)
    requires IsCollation(lc) && UniqueIds(xs) && UniqueIds(ys) && multiset(ys) == multiset(xs) && AtMostOneStray(xs)
    ensures Rendered(lc, ys) == Rendered(lc, xs)
  {
    StraysForgetOrder(xs, ys);
    SettledForgetsOrder(lc, xs, ys);
    FewStraysAreAppended(lc, xs);
    FewStraysAreAppended(lc, ys);
    if e :| e in xs && Stray(xs, e) {
      assert Rendered(lc, xs) == Enter(e, 1, Settled(lc, xs));
      assert Rendered(lc, ys) == Enter(e, 1, Settled(lc, ys));
    } else {
      assert Rendered(lc, xs) == Settled(lc, xs);
    }
  }

  lemma ToFront(xs: seq<Entity>, e: Entity) returns (ys: seq<Entity>)
    requires UniqueIds(xs) && e in xs
    ensures UniqueIds(ys) && multiset(ys) == multiset(xs) && ys != [] && ys[0] == e
  {
    var i :| 0 <= i < |xs| && xs[i] == e;
    ys := [e] + (xs[..i] + xs[i + 1..]);
    assert xs == xs[..i] + [e] + xs[i + 1..];
    UniqueIdsStay(xs, ys);
  }

  lemma StrayInFrontShows(lc: Collation, xs: seq<Entity>, e: Entity)
    requires IsCollation(lc) && UniqueIds(xs) && ForgetsOrder(lc, xs) && e in xs && Stray(xs, e)
    ensures var n := |Settled(lc, xs).rows|; var rows := Rendered(lc, xs).rows; n < |rows| && rows[n] == Row(1, e)
  {
    var ys := ToFront(xs, e);
    StrayForgetsOrder(xs, ys, e);
    SettledForgetsOrder(lc, xs, ys);
    FirstStrayShows(lc, ys);
  }

  // Unlike the Infrastructure tree, the fallback depends on the order of the input: exactly when two
  // entities have parent chains that never arrive at a root.
  lemma ForgetsOrderExactly(lc: Collation, xs: seq<Entity>)
    requires IsCollation(lc) && UniqueIds(xs)
    ensures ForgetsOrder(lc, xs) <==> AtMostOneStray(xs)
  {
    if AtMostOneStray(xs) {
      forall ys | multiset(ys) == multiset(xs) && UniqueIds(ys) ensures Rendered(lc, ys).rows == Rendered(lc, xs).rows {
        FewStraysForgetOrder(lc, xs, ys);
      }
    }
    if ForgetsOrder(lc, xs) {
      forall a, b | a in xs && b in xs && Stray(xs, a) && Stray(xs, b) ensures a == b {
        StrayInFrontShows(lc, xs, a);
        StrayInFrontShows(lc, xs, b);
      }
    }
  }

  lemma TwoCycleDependsOnInputOrder(lc: Collation, a: Entity, b: Entity)
    requires a.id != b.id && a.id != "" && b.id != ""
    requires a.parentId == Some(b.id) && b.parentId == Some(a.id)
    ensures UniqueIds([a, b]) && UniqueIds([b, a])
    ensures Rendered(lc, [a, b]).rows != Rendered(lc, [b, a]).rows
  {
    NoRootsInTwoCycle(lc, a, b);
    NoRootsInTwoCycle(lc, b, a);
    RootlessRenderingFollowsInput(lc, [a, b]);
    RootlessRenderingFollowsInput(lc, [b, a]);
  }

  lemma RootlessRenderingFollowsInput(lc: Collation, entities: seq<Entity>)
    requires UniqueIds(entities) && entities != [] && SortedRoots(lc, entities) == []
    ensures Rendered(lc, entities).rows != [] && Rendered(lc, entities).rows[0] == Row(1, entities[0])
  {
    TextForestIsCovered(lc, entities);
    RootlessNeverReaches(TextForest(lc, entities), entities[0].id);
    StrayNeverReaches(lc, entities, entities[0]);
    FirstStrayShows(lc, entities);
  }

  lemma NoRootsInTwoCycle(lc: Collation, a: Entity, b: Entity)
    requires a.id != "" && b.id != ""
    requires a.parentId == Some(b.id) && b.parentId == Some(a.id)
    ensures SortedRoots(lc, [a, b]) == []
  {
    var p := IsTextRoot(Ids([a, b]));
    assert a in [a, b] && b in [a, b];
    assert [a, b][..1] == [a] && [a][..0] == [];
    assert Filter(p, [a]) == [];
    assert Filter(p, [a, b]) == [];
  }

  // ---------------------------------------------------------------- the component

  predicate GroupAt(entities: seq<Entity>, byParent: map<Option<string>, seq<Entity>>, key: Option<string>) {
    (if key in byParent then byParent[key] else []) == Filter(HasParentId(key), entities)
  }

  ghost predicate Groups(entities: seq<Entity>, byParent: map<Option<string>, seq<Entity>>) {
    forall key :: GroupAt(entities, byParent, key)
  }

  lemma GroupEntity(entities: seq<Entity>, i: nat, before: map<Option<string>, seq<Entity>>)
    requires i < |entities| && Groups(entities[..i], before)
    ensures var key := entities[i].parentId;
      Groups(entities[..i + 1], before[key := (if key in before then before[key] else []) + [entities[i]]])
  {
    var own := entities[i].parentId;
    var after := before[own := (if own in before then before[own] else []) + [entities[i]]];
    var next := entities[..i + 1];
    forall key ensures GroupAt(next, after, key) {
      assert GroupAt(entities[..i], before, key);
      FilterSnoc(HasParentId(key), entities, i);
    }
  }

  method GroupByParent(entities: seq<Entity>) returns (byParent: map<Option<string>, seq<Entity>>)
    ensures Groups(entities, byParent)
  {
    byParent := map[];
    for i := 0 to |entities|
      invariant Groups(entities[..i], byParent)
    {
      var key := entities[i].parentId;
      GroupEntity(entities, i, byParent);
      byParent := byParent[key := (if key in byParent then byParent[key] else []) + [entities[i]]];
    }
    assert entities[..|entities|] == entities;
  }

  // The list `branch` looks up for the children of `id`, already sorted.
  predicate LooksUp(f: Forest, byParent: map<Option<string>, seq<Entity>>, id: string) {
    id in f.byId ==> (if Some(id) in byParent then byParent[Some(id)] else []) == ChildrenOf(f, id)
  }

  class Renderer {
    ghost const forest: Forest
    const byParent: map<Option<string>, seq<Entity>>
    var rendered: set<string>
    var items: seq<Row>

    ghost predicate Valid() {
      Closed(forest) && forall id :: LooksUp(forest, byParent, id)
    }

    ghost function Progress(): Walk
      reads this
    {
      Walk(rendered, items)
    }

    constructor (ghost forest: Forest, byParent: map<Option<string>, seq<Entity>>)
      requires Closed(forest) && forall id :: LooksUp(forest, byParent, id)
      ensures Valid() && this.forest == forest && Progress() == EMPTY
    {
      this.forest := forest;
      this.byParent := byParent;
      rendered, items := {}, [];
    }

    method RenderOne(entity: Entity, level: nat, ancestors: set<string>)
      requires Valid() && Known(forest, entity)
      modifies this
      ensures Progress() == BranchOne(forest, entity, level, ancestors, old(Progress()))
      decreases |forest.byId.Keys - rendered|, 0, 0
    {
      if entity.id in rendered || entity.id in ancestors { return; }
      Smaller(forest.byId.Keys, rendered, entity.id);
      rendered := rendered + {entity.id};
      items := items + [Row(level, entity)];
      var nextAncestors := ancestors + {entity.id};
      assert LooksUp(forest, byParent, entity.id);
      var children := if Some(entity.id) in byParent then byParent[Some(entity.id)] else [];
      var descendants := Filter(IdNotIn(nextAncestors), children);
      FilterElements(IdNotIn(nextAncestors), children);
      RenderEach(descendants, level + 1, nextAncestors);
    }

    method RenderEach(children: seq<Entity>, level: nat, ancestors: set<string>)
      requires Valid() && AllKnown(forest, children)
      modifies this
      ensures Progress() == Branch(forest, children, level, ancestors, old(Progress()))
      decreases |forest.byId.Keys - rendered|, |children|, 1
    {
      ghost var start := Progress();
      for i := 0 to |children|
        invariant start.visited <= rendered
        invariant Branch(forest, children[i..], level, ancestors, Progress())
          == Branch(forest, children, level, ancestors, start)
      {
        Fewer(forest.byId.Keys, start.visited, rendered);
        assert children[i..][0] == children[i] && children[i..][1..] == children[i + 1..];
        RenderOne(children[i], level, ancestors);
      }
    }
  }

  lemma SortedGroupsLookUp(
    lc: Collation, entities: seq<Entity>, byParent: map<Option<string>, seq<Entity>>, id: string)
    requires Groups(entities, byParent)
    ensures LooksUp(TextForest(lc, entities), map key | key in byParent :: Sort(ByCode(lc), byParent[key]), id)
  {
    assert GroupAt(entities, byParent, Some(id));
  }

  method Render(lc: Collation, entities: seq<Entity>) returns (items: seq<Row>)
    requires UniqueIds(entities)
    ensures items == Rendered(lc, entities).rows
  {
    var byParent := GroupByParent(entities);
    var sorted := map key | key in byParent :: Sort(ByCode(lc), byParent[key]);
    forall id ensures LooksUp(TextForest(lc, entities), sorted, id) { SortedGroupsLookUp(lc, entities, byParent, id); }
    FirstListKnown(lc, entities);
    var roots := Sort(ByCode(lc), Filter(IsTextRoot(Ids(entities)), entities));
    var renderer := new Renderer(TextForest(lc, entities), sorted);
    renderer.RenderEach(if roots != [] then roots else entities, 1, {});
    renderer.RenderEach(Filter(IdNotIn(renderer.rendered), entities), 1, {});
    return renderer.items;
  }
}
