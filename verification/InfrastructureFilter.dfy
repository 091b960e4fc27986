module InfrastructureFilter {
  import opened Wrappers
  import opened Lists
  import opened EntityOrder
  import opened DepthFirst
  import opened InfrastructureOrder

  // The Infrastructure view: search, positions among siblings, and the arrow keys.

  // ---------------------------------------------------------------- lineage of the matches

  predicate HasParentId(e: Entity) {
    e.parentId.Some? && e.parentId.value != ""
  }

  // The parent id of this member, if it has one, is a member as well.
  predicate ParentIncluded(byId: map<string, Entity>, s: set<string>, id: string) {
    id in byId && HasParentId(byId[id]) ==> byId[id].parentId.value in s
  }

  ghost predicate ParentClosed(byId: map<string, Entity>, s: set<string>) {
    forall id :: id in s ==> ParentIncluded(byId, s, id)
  }

  ghost predicate IsLeastClosure(byId: map<string, Entity>, matches: set<string>, s: set<string>) {
    && matches <= s
    && ParentClosed(byId, s)
    && forall t :: matches <= t && ParentClosed(byId, t) ==> s <= t
  }

  function ParentIds(byId: map<string, Entity>): set<string> {
    set id | id in byId && HasParentId(byId[id]) :: byId[id].parentId.value
  }

  // Adds the ancestors of one match; stops at the top, at an absent parent, or when it meets its own trail.
  method IncludeLineage(byId: map<string, Entity>, ghost matches: set<string>, ghost todo: set<string>,
                        match_: string, included: set<string>)
    returns (extended: set<string>)
    requires forall id :: id in byId ==> byId[id].id == id
    requires match_ in included && matches <= included
    requires forall id :: id in included ==> id in todo || id == match_ || ParentIncluded(byId, included, id)
    requires forall t :: matches <= t && ParentClosed(byId, t) ==> included <= t
    ensures included <= extended
    ensures forall id :: id in extended ==> id in todo || ParentIncluded(byId, extended, id)
    ensures forall t :: matches <= t && ParentClosed(byId, t) ==> extended <= t
  {
    extended := included;
    var seen: set<string> := {};
    var current := if match_ in byId then Some(byId[match_]) else None;
    ghost var open := match_;
    while current.Some? && HasParentId(current.value) && current.value.parentId.value !in seen
      invariant included <= extended && seen <= extended && open in extended
      invariant current == if open in byId then Some(byId[open]) else None
      invariant forall id :: id in extended ==> id in todo || id == open || ParentIncluded(byId, extended, id)
      invariant forall t :: matches <= t && ParentClosed(byId, t) ==> extended <= t
      decreases |ParentIds(byId) - seen|
    {
      var parent := current.value.parentId.value;
      assert parent in ParentIds(byId) - seen;
      Smaller(ParentIds(byId), seen, parent);
      forall t | matches <= t && ParentClosed(byId, t) ensures parent in t {
        assert ParentIncluded(byId, t, open);
      }
      seen := seen + {parent};
      extended := extended + {parent};
      open := parent;
      current := if parent in byId then Some(byId[parent]) else None;
    }
  }

  // `includedIds`: the least set that contains the matches and, with any member, its parent.
  method IncludeAncestors(byId: map<string, Entity>, matches: set<string>) returns (included: set<string>)
    requires forall id :: id in byId ==> byId[id].id == id
    ensures IsLeastClosure(byId, matches, included)
  {
    included := matches;
    var todo := matches;
    while todo != {}
      invariant todo <= matches <= included
      invariant forall id :: id in included ==> id in todo || ParentIncluded(byId, included, id)
      invariant forall t :: matches <= t && ParentClosed(byId, t) ==> included <= t
      decreases todo
    {
      var id :| id in todo;
      todo := todo - {id};
      included := IncludeLineage(byId, matches, todo, id, included);
    }
  }

  // ---------------------------------------------------------------- the filtered rows are still a forest

  function IsIncluded(included: set<string>): Row -> bool {
    (r: Row) => r.entity.id in included
  }

  lemma FilterLast<T>(p: T -> bool, xs: seq<T>)
    requires xs != []
    ensures p(xs[|xs| - 1]) ==> Filter(p, xs) == Filter(p, xs[..|xs| - 1]) + [xs[|xs| - 1]]
    ensures !p(xs[|xs| - 1]) ==> Filter(p, xs) == Filter(p, xs[..|xs| - 1])
  {}

  // Dropping rows does not change which row is the nearest shallower one, as long as that row stays.
  lemma {:induction false} FilterKeepsShallower(p: Row -> bool, rows: seq<Row>, depth: nat)
    requires Shallower(rows, depth).Some? && p(Shallower(rows, depth).value)
    ensures Shallower(Filter(p, rows), depth) == Shallower(rows, depth)
  {
    var init, last := rows[..|rows| - 1], rows[|rows| - 1];
    FilterLast(p, rows);
    if last.depth < depth {
      assert Filter(p, rows)[|Filter(p, rows)| - 1] == last;
    } else {
      FilterKeepsShallower(p, init, depth);
      if p(last) { assert Filter(p, rows)[..|Filter(p, rows)| - 1] == Filter(p, init); }
    }
  }

  // The parent row of every kept row is kept.
  ghost predicate KeepsParents(p: Row -> bool, rows: seq<Row>) {
    forall r, q :: r in rows && q in rows && 0 < r.depth && p(r) && r.entity.parentId == Some(q.entity.id) ==> p(q)
  }

  lemma {:induction false} ShallowerIsRow(rows: seq<Row>, depth: nat)
    requires Shallower(rows, depth).Some?
    ensures Shallower(rows, depth).value in rows && Shallower(rows, depth).value.depth < depth
  {
    if rows[|rows| - 1].depth >= depth { ShallowerIsRow(rows[..|rows| - 1], depth); }
  }

  lemma {:induction false} FilteredRowsAreNested(p: Row -> bool, rows: seq<Row>)
    requires Nested(0, rows) && KeepsParents(p, rows)
    ensures Nested(0, Filter(p, rows))
  {
    if rows != [] {
      var init, last := rows[..|rows| - 1], rows[|rows| - 1];
      FilteredRowsAreNested(p, init);
      FilterLast(p, rows);
      if p(last) {
        if 0 < last.depth {
          ShallowerIsRow(init, last.depth);
          FilterKeepsShallower(p, init, last.depth);
        }
        AppendRow(0, Filter(p, init), last.entity, last.depth);
      }
    }
  }

  lemma DeepRowsHaveParents(lc: Collation, entities: seq<Entity>, r: Row)
    requires UniqueIds(entities) && r in OrderedWalk(lc, entities).rows && 0 < r.depth
    ensures HasParent(Ids(entities), r.entity)
  {
    OrderingVisitsAllOnce(lc, entities);
    if !HasParent(Ids(entities), r.entity) {
      HasParentExactly(entities, r.entity);
      TopRow(lc, entities, r);
    }
  }

  // Whatever a search matches, the rows it keeps are a depth-first forest in which the nearest
  // earlier shallower row is the row's parent.
  lemma SearchKeepsForest(lc: Collation, entities: seq<Entity>, matches: set<string>, included: set<string>)
    requires UniqueIds(entities) && IsLeastClosure(ById(entities), matches, included)
    ensures Nested(0, Filter(IsIncluded(included), OrderedWalk(lc, entities).rows))
  {
    var rows := OrderedWalk(lc, entities).rows;
    var p := IsIncluded(included);
    OrderingIsDepthFirst(lc, entities);
    OrderingVisitsAllOnce(lc, entities);
    forall r, q | r in rows && q in rows && 0 < r.depth && p(r) && r.entity.parentId == Some(q.entity.id) ensures p(q) {
      DeepRowsHaveParents(lc, entities, r);
      assert ParentIncluded(ById(entities), included, r.entity.id);
    }
    FilteredRowsAreNested(p, rows);
  }

  // ---------------------------------------------------------------- position among siblings

  datatype InfrastructureRow = InfrastructureRow(row: Row, isContext: bool, positionInSet: int, setSize: nat)

  const ROOT_KEY: string := "__root__"

  function ParentKey(included: set<string>, r: Row): string {
    if HasParentId(r.entity) && r.entity.parentId.value in included then r.entity.parentId.value else ROOT_KEY
  }

  function InGroup(included: set<string>, key: string): Row -> bool {
    (r: Row) => ParentKey(included, r) == key
  }

  ghost predicate UniqueRows(rows: seq<Row>) {
    forall i, j :: 0 <= i < j < |rows| ==> rows[i].entity.id != rows[j].entity.id
  }

  // `findIndex` by entity id: the first index, or -1.
  function FindId(rows: seq<Row>, id: string): (i: int)
    ensures -1 <= i < |rows|
    ensures i >= 0 ==> rows[i].entity.id == id && forall j :: 0 <= j < i ==> rows[j].entity.id != id
    ensures i < 0 ==> forall r :: r in rows ==> r.entity.id != id
  {
    if rows == [] then -1
    else if rows[0].entity.id == id then 0
    else
      var rest := FindId(rows[1..], id);
      if rest < 0 then -1 else rest + 1
  }

  // The rows of a group up to and including row `i`.
  function GroupPrefix(included: set<string>, rows: seq<Row>, i: nat): seq<Row>
    requires i < |rows|
  {
    Filter(InGroup(included, ParentKey(included, rows[i])), rows[..i + 1])
  }

  lemma {:induction false} FilterPrefix<T>(p: T -> bool, xs: seq<T>, i: nat)
    requires i <= |xs|
    ensures Filter(p, xs[..i]) <= Filter(p, xs)
  {
    if i < |xs| {
      FilterPrefix(p, xs[..|xs| - 1], i);
      assert xs[..|xs| - 1][..i] == xs[..i];
      FilterLast(p, xs);
    } else {
      assert xs[..i] == xs;
    }
  }

  lemma UniqueFilter(p: Row -> bool, rows: seq<Row>)
    requires UniqueRows(rows)
    ensures UniqueRows(Filter(p, rows))
    decreases |rows|
  {
    if rows != [] {
      var init := rows[..|rows| - 1];
      UniqueFilter(p, init);
      FilterLast(p, rows);
      FilterElements(p, init);
      forall i | 0 <= i < |Filter(p, init)| ensures Filter(p, init)[i].entity.id != rows[|init|].entity.id {
        assert Filter(p, init)[i] in init;
      }
    }
  }

  // Where `findIndex` finds a row in its sibling group: behind exactly the earlier rows of the group.
  lemma IndexInGroup(p: Row -> bool, rows: seq<Row>, i: nat)
    requires UniqueRows(rows) && i < |rows| && p(rows[i])
    ensures FindId(Filter(p, rows), rows[i].entity.id) + 1 == |Filter(p, rows[..i + 1])|
  {
    FilterSnoc(p, rows, i);
    FilterPrefix(p, rows, i + 1);
    UniqueFilter(p, rows);
    var k := |Filter(p, rows[..i])|;
    assert Filter(p, rows)[k] == rows[i];
  }

  // The second loop of the memo: the groups of siblings, in row order.
  ghost predicate Groups(included: set<string>, rows: seq<Row>, groups: map<string, seq<Row>>) {
    forall key :: GroupAt(included, rows, groups, key)
  }

  predicate GroupAt(included: set<string>, rows: seq<Row>, groups: map<string, seq<Row>>, key: string) {
    (if key in groups then groups[key] else []) == Filter(InGroup(included, key), rows)
  }

  lemma GroupRow(included: set<string>, rows: seq<Row>, i: nat, before: map<string, seq<Row>>)
    requires i < |rows| && Groups(included, rows[..i], before)
    ensures var key := ParentKey(included, rows[i]);
      Groups(included, rows[..i + 1], before[key := (if key in before then before[key] else []) + [rows[i]]])
  {
    var own := ParentKey(included, rows[i]);
    var after := before[own := (if own in before then before[own] else []) + [rows[i]]];
    var next := rows[..i + 1];
    forall key ensures GroupAt(included, next, after, key) {
      assert GroupAt(included, rows[..i], before, key);
      FilterSnoc(InGroup(included, key), rows, i);
    }
  }

  method GroupSiblings(included: set<string>, rows: seq<Row>) returns (groups: map<string, seq<Row>>)
    ensures Groups(included, rows, groups)
  {
    groups := map[];
    for i := 0 to |rows|
      invariant Groups(included, rows[..i], groups)
    {
      var key := ParentKey(included, rows[i]);
      var siblings := if key in groups then groups[key] else [];
      GroupRow(included, rows, i, groups);
      groups := groups[key := siblings + [rows[i]]];
    }
    assert rows[..|rows|] == rows;
  }

  // Row `i` is number `positionInSet` of the `setSize` rows of its group, counted in row order.
  function PlacedRow(included: set<string>, matches: set<string>, rows: seq<Row>, i: nat): InfrastructureRow
    requires i < |rows|
  {
    InfrastructureRow(rows[i], rows[i].entity.id !in matches,
                      |GroupPrefix(included, rows, i)|,
                      |Filter(InGroup(included, ParentKey(included, rows[i])), rows)|)
  }

  lemma PlaceInGroup(included: set<string>, rows: seq<Row>, groups: map<string, seq<Row>>, i: nat)
    requires UniqueRows(rows) && i < |rows| && Groups(included, rows, groups)
    ensures var key := ParentKey(included, rows[i]);
      && key in groups
      && groups[key] == Filter(InGroup(included, key), rows)
      && FindId(groups[key], rows[i].entity.id) + 1 == |GroupPrefix(included, rows, i)|
  {
    var key := ParentKey(included, rows[i]);
    assert GroupAt(included, rows, groups, key);
    IndexInGroup(InGroup(included, key), rows, i);
    FilterElements(InGroup(included, key), rows);
    assert rows[i] in Filter(InGroup(included, key), rows);
  }

  method PlaceRows(included: set<string>, matches: set<string>, rows: seq<Row>)
    returns (placed: seq<InfrastructureRow>)
    requires UniqueRows(rows)
    ensures |placed| == |rows|
    ensures forall i :: 0 <= i < |rows| ==> placed[i] == PlacedRow(included, matches, rows, i)
  {
    var groups := GroupSiblings(included, rows);
    placed := [];
    for i := 0 to |rows|
      invariant |placed| == i
      invariant forall k :: 0 <= k < i ==> placed[k] == PlacedRow(included, matches, rows, k)
    {
      var key := ParentKey(included, rows[i]);
      PlaceInGroup(included, rows, groups, i);
      var siblings := groups[key];  // never absent, so the fallback to the row alone is never used
      placed := placed + [InfrastructureRow(rows[i], rows[i].entity.id !in matches,
                                            FindId(siblings, rows[i].entity.id) + 1, |siblings|)];
    }
  }

  // In row order the positions of a group are 1, 2, ..., setSize: its k-th row has position k.
  lemma {:induction false} PositionsCountUp(included: set<string>, rows: seq<Row>, key: string, k: nat) returns (i: nat)
    requires k < |Filter(InGroup(included, key), rows)|
    ensures i < |rows| && rows[i] == Filter(InGroup(included, key), rows)[k] && ParentKey(included, rows[i]) == key
    ensures |GroupPrefix(included, rows, i)| == k + 1
  {
    var p, last := InGroup(included, key), |rows| - 1;
    FilterLast(p, rows);
    if k < |Filter(p, rows[..last])| {
      i := PositionsCountUp(included, rows[..last], key, k);
      assert rows[..last][..i + 1] == rows[..i + 1];
    } else {
      i := last;
      assert rows[..i + 1] == rows;
    }
  }

  // Rows are siblings when they have the same parent among the included ones, or both have none there.
  predicate Siblings(included: set<string>, r: Row, q: Row) {
    if HasParentId(r.entity) && r.entity.parentId.value in included then q.entity.parentId == r.entity.parentId
    else !(HasParentId(q.entity) && q.entity.parentId.value in included)
  }

  lemma GroupsAreSiblings(included: set<string>, r: Row, q: Row)
    requires "__root__" !in included
    ensures InGroup(included, ParentKey(included, r))(q) <==> Siblings(included, r, q)
  {}

  ghost function SiblingRows(included: set<string>, rows: seq<Row>, i: nat, n: nat): set<nat>
    requires i < |rows| && n <= |rows|
  {
    set k: nat | k < n && Siblings(included, rows[i], rows[k])
  }

  lemma SiblingCount(included: set<string>, rows: seq<Row>, i: nat, n: nat)
    requires i < |rows| && n <= |rows| && "__root__" !in included
    ensures |Filter(InGroup(included, ParentKey(included, rows[i])), rows[..n])| == |SiblingRows(included, rows, i, n)|
  {
    var p := InGroup(included, ParentKey(included, rows[i]));
    FilterSize(p, rows[..n]);
    forall k: nat | k < n ensures p(rows[..n][k]) <==> Siblings(included, rows[i], rows[k]) {
      GroupsAreSiblings(included, rows[i], rows[k]);
    }
    assert Where(p, rows[..n]) == SiblingRows(included, rows, i, n);
  }

  // What is announced of a row: its number among its siblings in row order, how many there are, and that it is
  // there as context only exactly when the search did not match it. No entity has the id of the root group.
  lemma PlacedExactly(included: set<string>, matches: set<string>, rows: seq<Row>, i: nat)
    requires i < |rows| && "__root__" !in included
    ensures var placed := PlacedRow(included, matches, rows, i);
      && placed.row == rows[i]
      && placed.positionInSet == |SiblingRows(included, rows, i, i + 1)|
      && placed.setSize == |SiblingRows(included, rows, i, |rows|)|
      && (placed.isContext <==> rows[i].entity.id !in matches)
  {
    SiblingCount(included, rows, i, i + 1);
    SiblingCount(included, rows, i, |rows|);
    assert rows[..|rows|] == rows;
  }

  // ---------------------------------------------------------------- keyboard navigation

  datatype Key = ArrowDown | ArrowUp | Home | End | ArrowRight | ArrowLeft

  // `findIndex` of the first row whose parent is `id`.
  function FindChild(rows: seq<Row>, id: string): (i: int)
    ensures -1 <= i < |rows|
    ensures i >= 0 ==> rows[i].entity.parentId == Some(id) && forall j :: 0 <= j < i ==> rows[j].entity.parentId != Some(id)
    ensures i < 0 ==> forall r :: r in rows ==> r.entity.parentId != Some(id)
  {
    if rows == [] then -1
    else if rows[0].entity.parentId == Some(id) then 0
    else
      var rest := FindChild(rows[1..], id);
      if rest < 0 then -1 else rest + 1
  }

  // The first search of ArrowLeft, by parent id.
  function ByParentId(rows: seq<Row>, index: nat): int
    requires index < |rows|
  {
    if HasParentId(rows[index].entity) then FindId(rows, rows[index].entity.parentId.value) else -1
  }

  // The second search of ArrowLeft: backwards to the nearest shallower row.
  ghost predicate NearestShallower(rows: seq<Row>, index: nat, target: int)
    requires index < |rows|
  {
    && -1 <= target < index
    && (forall j :: target < j < index ==> rows[j].depth >= rows[index].depth)
    && (target >= 0 ==> rows[target].depth < rows[index].depth)
  }

  method SearchBackwards(rows: seq<Row>, index: nat) returns (target: int)
    requires index < |rows|
    ensures NearestShallower(rows, index, target)
  {
    target := index - 1;
    while target >= 0 && rows[target].depth >= rows[index].depth
      invariant -1 <= target < index
      invariant forall j :: target < j < index ==> rows[j].depth >= rows[index].depth
    {
      target := target - 1;
    }
  }

  // `handleTreeKeyDown`: the index the focus moves to, or -1.
  method KeyTarget(rows: seq<Row>, index: nat, key: Key) returns (target: int)
    requires index < |rows|
    ensures -1 <= target < |rows|
    ensures key == ArrowDown ==> target == (if index + 1 < |rows| then index + 1 else index)
    ensures key == ArrowUp ==> target == (if index > 0 then index - 1 else 0)
    ensures key == Home ==> target == 0
    ensures key == End ==> target == |rows| - 1
    ensures key == ArrowRight ==> target == FindChild(rows, rows[index].entity.id)
    ensures key == ArrowLeft && ByParentId(rows, index) >= 0 ==> target == ByParentId(rows, index)
    ensures key == ArrowLeft && ByParentId(rows, index) < 0 ==> NearestShallower(rows, index, target)
  {
    match key
    case ArrowDown => target := if index + 1 < |rows| - 1 then index + 1 else |rows| - 1;
    case ArrowUp => target := if index > 0 then index - 1 else 0;
    case Home => target := 0;
    case End => target := |rows| - 1;
    case ArrowRight => target := FindChild(rows, rows[index].entity.id);
    case ArrowLeft =>
      target := ByParentId(rows, index);
      if target < 0 { target := SearchBackwards(rows, index); }
  }

  lemma {:induction false} NestedAt(base: nat, rows: seq<Row>, index: nat)
    requires Nested(base, rows) && index < |rows|
    ensures Nested(base, rows[..index]) && base <= rows[index].depth
    ensures base < rows[index].depth ==>
      HangsFrom(Shallower(rows[..index], rows[index].depth), rows[index].entity, rows[index].depth)
  {
    if index < |rows| - 1 {
      NestedAt(base, rows[..|rows| - 1], index);
      assert rows[..|rows| - 1][..index] == rows[..index];
    }
  }

  lemma {:induction false} ShallowerAt(rows: seq<Row>, end: nat, depth: nat, target: int)
    requires -1 <= target < end <= |rows|
    requires forall j :: target < j < end ==> rows[j].depth >= depth
    requires target >= 0 ==> rows[target].depth < depth
    ensures Shallower(rows[..end], depth) == if target >= 0 then Some(rows[target]) else None
    decreases end
  {
    if end > 0 && target < end - 1 {
      assert rows[..end][..end - 1] == rows[..end - 1];
      ShallowerAt(rows, end - 1, depth, target);
    }
  }

  // The depth-first shape, by index: below the top level a row follows its parent row, one level
  // deeper, with only rows at least as deep in between.
  lemma ParentPrecedesRow(rows: seq<Row>, index: nat, target: int)
    requires Nested(0, rows) && index < |rows| && NearestShallower(rows, index, target)
    ensures rows[index].depth == 0 <==> target < 0
    ensures target >= 0 ==> rows[target].depth + 1 == rows[index].depth
    ensures target >= 0 ==> rows[index].entity.parentId == Some(rows[target].entity.id)
  {
    NestedAt(0, rows, index);
    ShallowerAt(rows, index, rows[index].depth, target);
  }

  // The two searches of ArrowLeft agree at every depth above 0; at depth 0 the second finds nothing.
  lemma ArrowLeftSearchesAgree(rows: seq<Row>, index: nat, target: int)
    requires Nested(0, rows) && UniqueRows(rows) && index < |rows| && NearestShallower(rows, index, target)
    ensures 0 < rows[index].depth && rows[index].entity.parentId != Some("") ==>
      target == ByParentId(rows, index) && target >= 0
    ensures rows[index].depth == 0 ==> target == -1
  {
    ParentPrecedesRow(rows, index, target);
    if target >= 0 && HasParentId(rows[index].entity) {
      var found := FindId(rows, rows[index].entity.parentId.value);
      assert rows[target] in rows;
      assert !(found < target) && !(target < found);
    }
  }

  // The rows that a search keeps.
  ghost function SearchRows(lc: Collation, entities: seq<Entity>, included: set<string>): seq<Row>
    requires UniqueIds(entities)
  {
    Filter(IsIncluded(included), OrderedWalk(lc, entities).rows)
  }

  // Whatever was searched for: below the top level both searches of ArrowLeft find the parent row of the
  // kept rows; at the top level the second one finds nothing.
  lemma ArrowLeftAfterSearch(lc: Collation, entities: seq<Entity>, matches: set<string>, included: set<string>,
                             index: nat, target: int)
    requires UniqueIds(entities) && IsLeastClosure(ById(entities), matches, included)
    requires index < |SearchRows(lc, entities, included)|
    requires NearestShallower(SearchRows(lc, entities, included), index, target)
    ensures var rows := SearchRows(lc, entities, included); var row := rows[index];
      && (row.depth == 0 ==> target == -1)
      && (0 < row.depth ==>
            && target == ByParentId(rows, index) && target >= 0
            && row.entity.parentId == Some(rows[target].entity.id) && rows[target].depth + 1 == row.depth)
  {
    var rows := SearchRows(lc, entities, included);
    SearchKeepsForest(lc, entities, matches, included);
    OrderingVisitsAllOnce(lc, entities);
    UniqueFilter(IsIncluded(included), OrderedWalk(lc, entities).rows);
    FilterElements(IsIncluded(included), OrderedWalk(lc, entities).rows);
    assert rows[index] in rows;
    if 0 < rows[index].depth {
      DeepRowsHaveParents(lc, entities, rows[index]);
    }
    ArrowLeftSearchesAgree(rows, index, target);
    ParentPrecedesRow(rows, index, target);
  }

  // Unless it lands on a row at the top level, ArrowRight moves to the very next row.
  lemma ArrowRightGoesToNextRow(rows: seq<Row>, index: nat)
    requires Nested(0, rows) && UniqueRows(rows) && index < |rows|
    requires var child := FindChild(rows, rows[index].entity.id); child >= 0 && 0 < rows[child].depth
    ensures FindChild(rows, rows[index].entity.id) == index + 1
  {
    var child := FindChild(rows, rows[index].entity.id);
    var parent := SearchShallower(rows, child, rows[child].depth);
    ParentPrecedesRow(rows, child, parent);
    assert parent == index;
    if index + 1 < child {
      assert NearestShallower(rows, index + 1, index);
      ParentPrecedesRow(rows, index + 1, index);
    }
  }

  lemma {:induction false} SearchShallower(rows: seq<Row>, end: nat, depth: nat) returns (target: int)
    requires end <= |rows|
    ensures -1 <= target < end
    ensures forall j :: target < j < end ==> rows[j].depth >= depth
    ensures target >= 0 ==> rows[target].depth < depth
  {
    if end == 0 || rows[end - 1].depth < depth {
      target := end - 1;
    } else {
      target := SearchShallower(rows, end - 1, depth);
    }
  }

  // ArrowLeft undoes ArrowRight, even where the parent relation has cycles.
  lemma ArrowLeftUndoesArrowRight(rows: seq<Row>, index: nat)
    requires UniqueRows(rows) && index < |rows| && rows[index].entity.id != ""
    requires FindChild(rows, rows[index].entity.id) >= 0
    ensures ByParentId(rows, FindChild(rows, rows[index].entity.id)) == index
  {
    var found := FindId(rows, rows[index].entity.id);
    assert rows[index] in rows;
    assert !(found < index) && !(index < found);
  }
}
