/**
 * Entity summaries and the two comparators that the hierarchies sort with.
 *
 * `localeCompare` is any total order on strings that is 0 on equal strings only; nothing else
 * is assumed of the collation of the browser.
 *
 * Both comparators end with the id, so that entities tie only when they share it, and a list
 * with unique ids has one sorted arrangement.
 */
module EntityOrder {
  import opened Wrappers
  import opened Lists
  import opened Sorting

  datatype Role = ENTRAL | MARSHAL | GENERAL | COMMANDER | SOLDIER

  // `parent_id` may be null or the empty string; both mean "no parent".
  datatype Entity = Entity(id: string, parentId: Option<string>, role: Role, stableCode: string, name: string)

  type Collation = (string, string) -> int

  ghost predicate IsCollation(lc: Collation) {
    && (forall a, b :: lc(a, b) == 0 <==> a == b)
    && (forall a, b :: lc(a, b) < 0 <==> lc(b, a) > 0)
    && (forall a, b, c :: lc(a, b) <= 0 && lc(b, c) <= 0 ==> lc(a, c) <= 0)
  }

  function RoleIndex(role: Role): nat {
    match role
    case ENTRAL => 0
    case MARSHAL => 1
    case GENERAL => 2
    case COMMANDER => 3
    case SOLDIER => 4
  }

  // `compareEntities` of the Infrastructure tree.
  function CompareEntities(lc: Collation, left: Entity, right: Entity): int {
    var roleDifference := RoleIndex(left.role) - RoleIndex(right.role);
    if roleDifference != 0 then roleDifference
    else if lc(left.stableCode, right.stableCode) != 0 then lc(left.stableCode, right.stableCode)
    else if lc(left.name, right.name) != 0 then lc(left.name, right.name)
    else lc(left.id, right.id)
  }

  // The comparator of the textual hierarchy.
  function CompareCodes(lc: Collation, left: Entity, right: Entity): int {
    if lc(left.stableCode, right.stableCode) != 0 then lc(left.stableCode, right.stableCode)
    else lc(left.id, right.id)
  }

  function ByRole(lc: Collation): Comparator<Entity> {
    (left, right) => CompareEntities(lc, left, right)
  }

  function ByCode(lc: Collation): Comparator<Entity> {
    (left, right) => CompareCodes(lc, left, right)
  }

  // The role of a comes no later than that of b from the top of the hierarchy down.
  predicate NoLater(a: Role, b: Role) {
    var roles := [ENTRAL, MARSHAL, GENERAL, COMMANDER, SOLDIER];
    exists p, q :: 0 <= p <= q < |roles| && roles[p] == a && roles[q] == b
  }

  // By role, then by code, by name and by id.
  predicate RoleOrdered(lc: Collation, a: Entity, b: Entity) {
    && NoLater(a.role, b.role)
    && (a.role == b.role ==>
          && lc(a.stableCode, b.stableCode) <= 0
          && (a.stableCode == b.stableCode ==>
                lc(a.name, b.name) <= 0 && (a.name == b.name ==> lc(a.id, b.id) <= 0)))
  }

  // By code, then by id.
  predicate CodeOrdered(lc: Collation, a: Entity, b: Entity) {
    lc(a.stableCode, b.stableCode) <= 0 && (a.stableCode == b.stableCode ==> lc(a.id, b.id) <= 0)
  }

  lemma ByRoleOrders(lc: Collation, a: Entity, b: Entity)
    requires IsCollation(lc)
    ensures ByRole(lc)(a, b) <= 0 <==> RoleOrdered(lc, a, b)
  {
    RolesAreRanked(a.role, b.role);
  }

  lemma RolesAreRanked(a: Role, b: Role)
    ensures NoLater(a, b) <==> RoleIndex(a) <= RoleIndex(b)
  {
    var roles := [ENTRAL, MARSHAL, GENERAL, COMMANDER, SOLDIER];
    assert roles[RoleIndex(a)] == a && roles[RoleIndex(b)] == b;
    assert forall p :: 0 <= p < |roles| ==> RoleIndex(roles[p]) == p;
  }

  lemma ByCodeOrders(lc: Collation, a: Entity, b: Entity)
    requires IsCollation(lc)
    ensures ByCode(lc)(a, b) <= 0 <==> CodeOrdered(lc, a, b)
  {}

  ghost predicate UniqueIds(entities: seq<Entity>) {
    forall i, j :: 0 <= i < j < |entities| ==> entities[i].id != entities[j].id
  }

  lemma CollationSteps(lc: Collation, a: string, b: string, c: string)
    requires IsCollation(lc)
    ensures lc(a, b) < 0 && lc(b, c) <= 0 ==> lc(a, c) < 0
    ensures lc(a, b) <= 0 && lc(b, c) < 0 ==> lc(a, c) < 0
  {
    if lc(a, b) <= 0 && lc(b, c) <= 0 && lc(a, c) == 0 {
      assert lc(a, b) < 0 <==> lc(b, a) > 0;
    }
  }

  lemma CompareEntitiesTransitive(lc: Collation, a: Entity, b: Entity, c: Entity)
    requires IsCollation(lc) && CompareEntities(lc, a, b) <= 0 && CompareEntities(lc, b, c) <= 0
    ensures CompareEntities(lc, a, c) <= 0
  {
    CollationSteps(lc, a.stableCode, b.stableCode, c.stableCode);
    CollationSteps(lc, a.name, b.name, c.name);
  }

  // Both comparators are total orders, and entities tie only when they share their id.
  lemma ByRoleIsOrder(lc: Collation)
    requires IsCollation(lc)
    ensures IsOrder(ByRole(lc))
    ensures forall a, b :: ByRole(lc)(a, b) == 0 ==> a.id == b.id
  {
    forall a, b, c | ByRole(lc)(a, b) <= 0 && ByRole(lc)(b, c) <= 0 ensures ByRole(lc)(a, c) <= 0 {
      CompareEntitiesTransitive(lc, a, b, c);
    }
    forall a, b ensures ByRole(lc)(a, b) < 0 <==> ByRole(lc)(b, a) > 0 {
      assert lc(a.stableCode, b.stableCode) == 0 <==> lc(b.stableCode, a.stableCode) == 0;
    }
  }

  lemma ByCodeIsOrder(lc: Collation)
    requires IsCollation(lc)
    ensures IsOrder(ByCode(lc))
    ensures forall a, b :: ByCode(lc)(a, b) == 0 ==> a.id == b.id
  {
    forall a, b, c | ByCode(lc)(a, b) <= 0 && ByCode(lc)(b, c) <= 0 ensures ByCode(lc)(a, c) <= 0 {
      CollationSteps(lc, a.stableCode, b.stableCode, c.stableCode);
    }
  }

  lemma UniqueIdsHaveNoTies(cmp: Comparator<Entity>, entities: seq<Entity>)
    requires UniqueIds(entities) && forall a, b :: cmp(a, b) == 0 ==> a.id == b.id
    ensures NoTies(cmp, entities)
  {
    forall a, b | a in entities && b in entities && cmp(a, b) == 0 ensures a == b {
      var i :| 0 <= i < |entities| && entities[i] == a;
      var j :| 0 <= j < |entities| && entities[j] == b;
    }
  }

  lemma UniqueIdsStay(xs: seq<Entity>, ys: seq<Entity>)
    requires UniqueIds(xs) && multiset(xs) == multiset(ys)
    ensures UniqueIds(ys)
  {
    assert Distinct(xs) by {
      forall i, j | 0 <= i < j < |xs| ensures xs[i] != xs[j] { assert xs[i].id != xs[j].id; }
    }
    DistinctStays(xs, ys);
    SameElements(xs, ys);
    forall i, j | 0 <= i < j < |ys| ensures ys[i].id != ys[j].id {
      assert ys[i] in xs && ys[j] in xs;
      var p :| 0 <= p < |xs| && xs[p] == ys[i];
      var q :| 0 <= q < |xs| && xs[q] == ys[j];
      assert p != q;
    }
  }
}
