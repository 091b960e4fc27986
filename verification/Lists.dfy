/**
 * `Array.prototype.filter`, and what it keeps of its input.
 *
 * Filtering keeps exactly the elements that satisfy the predicate, as often as they occur and
 * in their order; two permutations of one list filter to permutations of one another.
 *
 * The filter is defined from the end of the list, because the loops of the source append one
 * element after the other.
 */
module Lists {

  function Filter<T>(p: T -> bool, xs: seq<T>): seq<T> {
    if xs == [] then []
    else Filter(p, xs[..|xs| - 1]) + (if p(xs[|xs| - 1]) then [xs[|xs| - 1]] else [])
  }

  lemma {:induction false} FilterElements<T(!new)>(p: T -> bool, xs: seq<T>)
    ensures forall e :: e in Filter(p, xs) <==> e in xs && p(e)
  {
    if xs != [] {
      FilterElements(p, xs[..|xs| - 1]);
      assert xs == xs[..|xs| - 1] + [xs[|xs| - 1]];
    }
  }

  lemma FilterSnoc<T(!new)>(p: T -> bool, xs: seq<T>, i: nat)
    requires i < |xs|
    ensures Filter(p, xs[..i + 1]) == Filter(p, xs[..i]) + (if p(xs[i]) then [xs[i]] else [])
  {
    assert xs[..i + 1][..i] == xs[..i];
  }

  lemma {:induction false} FilterCount<T(!new)>(p: T -> bool, xs: seq<T>, e: T)
    ensures multiset(Filter(p, xs))[e] == if p(e) then multiset(xs)[e] else 0
  {
    if xs != [] {
      FilterCount(p, xs[..|xs| - 1], e);
      assert xs == xs[..|xs| - 1] + [xs[|xs| - 1]];
    }
  }

  lemma FilterForgetsOrder<T(!new)>(p: T -> bool, xs: seq<T>, ys: seq<T>)
    requires multiset(xs) == multiset(ys)
    ensures multiset(Filter(p, xs)) == multiset(Filter(p, ys))
  {
    forall e ensures multiset(Filter(p, xs))[e] == multiset(Filter(p, ys))[e] {
      FilterCount(p, xs, e);
      FilterCount(p, ys, e);
    }
  }

  ghost predicate Increasing(at: seq<nat>) {
    forall i, j :: 0 <= i < j < |at| ==> at[i] < at[j]
  }

  ghost predicate StandsAt<T>(xs: seq<T>, at: seq<nat>, ys: seq<T>) {
    |at| == |ys| && forall i :: 0 <= i < |at| ==> at[i] < |xs| && xs[at[i]] == ys[i]
  }

  ghost predicate AllOf<T>(p: T -> bool, xs: seq<T>, at: seq<nat>) {
    forall k: nat :: k in at <==> k < |xs| && p(xs[k])
  }

  // ys is what stands at the positions of the elements that satisfy p, in order.
  ghost predicate Picks<T>(p: T -> bool, xs: seq<T>, at: seq<nat>, ys: seq<T>) {
    Increasing(at) && StandsAt(xs, at, ys) && AllOf(p, xs, at)
  }

  lemma PickLast<T>(p: T -> bool, init: seq<T>, last: T, at: seq<nat>)
    requires AllOf(p, init, at)
    ensures AllOf(p, init + [last], if p(last) then at + [|init|] else at)
  {
    var all := init + [last];
    var next := if p(last) then at + [|init|] else at;
    forall k: nat ensures k in next <==> k < |all| && p(all[k]) {
      assert k in next <==> k in at || (p(last) && k == |init|);
      assert k in at <==> k < |init| && p(init[k]);
    }
  }

  /** The filter keeps what satisfies the predicate, where it stands. */
  lemma {:induction false} FilterPicks<T(!new)>(p: T -> bool, xs: seq<T>) returns (at: seq<nat>)
    ensures Picks(p, xs, at, Filter(p, xs))
  {
    if xs == [] {
      at := [];
    } else {
      var n := |xs| - 1;
      var init := FilterPicks(p, xs[..n]);
      PickLast(p, xs[..n], xs[n], init);
      assert xs == xs[..n] + [xs[n]];
      at := if p(xs[n]) then init + [n] else init;
    }
  }

  ghost function Where<T>(p: T -> bool, xs: seq<T>): set<nat> {
    set k: nat | k < |xs| && p(xs[k])
  }

  lemma {:induction false} FilterSize<T(!new)>(p: T -> bool, xs: seq<T>)
    ensures |Filter(p, xs)| == |Where(p, xs)|
  {
    if xs != [] {
      var n := |xs| - 1;
      FilterSize(p, xs[..n]);
      assert Where(p, xs) == Where(p, xs[..n]) + if p(xs[n]) then {n} else {};
      assert n !in Where(p, xs[..n]);
    }
  }

  ghost predicate StandsBefore<T(!new)>(xs: seq<T>, a: T, b: T) {
    exists p, q :: 0 <= p < q < |xs| && xs[p] == a && xs[q] == b
  }

  lemma StandsAtEnd<T(!new)>(init: seq<T>, last: T, a: T, b: T)
    ensures StandsBefore(init + [last], a, b) <==> StandsBefore(init, a, b) || (a in init && b == last)
  {
    var all := init + [last];
    if StandsBefore(init, a, b) {
      var p, q :| 0 <= p < q < |init| && init[p] == a && init[q] == b;
      assert all[p] == a && all[q] == b;
    }
    if a in init && b == last {
      var p :| 0 <= p < |init| && init[p] == a;
      assert all[p] == a && all[|init|] == b;
    }
  }

  lemma StandsAtFront<T(!new)>(first: T, rest: seq<T>, a: T, b: T)
    ensures StandsBefore([first] + rest, a, b) <==> StandsBefore(rest, a, b) || (a == first && b in rest)
  {
    var all := [first] + rest;
    if StandsBefore(rest, a, b) {
      var p, q :| 0 <= p < q < |rest| && rest[p] == a && rest[q] == b;
      assert all[p + 1] == a && all[q + 1] == b;
    }
    if a == first && b in rest {
      var q :| 0 <= q < |rest| && rest[q] == b;
      assert all[0] == a && all[q + 1] == b;
    }
  }

  lemma {:induction false} FilterKeepsOrder<T(!new)>(p: T -> bool, xs: seq<T>, a: T, b: T)
    requires p(a) && p(b)
    ensures StandsBefore(Filter(p, xs), a, b) <==> StandsBefore(xs, a, b)
  {
    if xs != [] {
      var init, last := xs[..|xs| - 1], xs[|xs| - 1];
      FilterKeepsOrder(p, init, a, b);
      FilterElements(p, init);
      StandsAtEnd(init, last, a, b);
      StandsAtEnd(Filter(p, init), last, a, b);
      assert xs == init + [last];
      assert Filter(p, xs) == if p(last) then Filter(p, init) + [last] else Filter(p, init);
    }
  }

  lemma {:induction false} FilterIsDistinct<T(!new)>(p: T -> bool, xs: seq<T>)
    requires Distinct(xs)
    ensures Distinct(Filter(p, xs))
  {
    if xs != [] {
      FilterIsDistinct(p, xs[..|xs| - 1]);
      FilterElements(p, xs[..|xs| - 1]);
    }
  }

  // What stands in a part of a list stands there in its order.
  lemma StandsInSuffix<T(!new)>(xs: seq<T>, n: nat, a: T, b: T)
    requires Distinct(xs) && n <= |xs| && a in xs[n..] && b in xs[n..]
    ensures StandsBefore(xs[n..], a, b) <==> StandsBefore(xs, a, b)
  {
    var i :| 0 <= i < |xs| - n && xs[n..][i] == a;
    var j :| 0 <= j < |xs| - n && xs[n..][j] == b;
    assert xs[n + i] == a && xs[n + j] == b;
    if i < j { assert StandsBefore(xs, a, b) && StandsBefore(xs[n..], a, b); }
  }

  // Of two elements of a list without repetition, one stands before the other.
  lemma OneStandsBefore<T(!new)>(xs: seq<T>, a: T, b: T)
    requires Distinct(xs) && a in xs && b in xs && a != b
    ensures StandsBefore(xs, a, b) <==> !StandsBefore(xs, b, a)
  {
    var i :| 0 <= i < |xs| && xs[i] == a;
    var j :| 0 <= j < |xs| && xs[j] == b;
    assert if i < j then StandsBefore(xs, a, b) else StandsBefore(xs, b, a);
  }

  ghost predicate Distinct<T>(xs: seq<T>) {
    forall i, j :: 0 <= i < j < |xs| ==> xs[i] != xs[j]
  }

  lemma {:induction false} DistinctCount<T>(xs: seq<T>, e: T)
    requires Distinct(xs)
    ensures multiset(xs)[e] == if e in xs then 1 else 0
  {
    if xs != [] {
      DistinctCount(xs[1..], e);
      assert xs == [xs[0]] + xs[1..];
    }
  }

  lemma DistinctPermutation<T>(xs: seq<T>, ys: seq<T>)
    requires Distinct(xs) && Distinct(ys) && forall e :: e in xs <==> e in ys
    ensures multiset(xs) == multiset(ys)
  {
    forall e ensures multiset(xs)[e] == multiset(ys)[e] {
      DistinctCount(xs, e);
      DistinctCount(ys, e);
    }
  }

  lemma {:induction false} CountIsPresence<T>(xs: seq<T>, e: T)
    ensures multiset(xs)[e] > 0 <==> e in xs
  {
    assert e in multiset(xs) <==> e in xs;
  }

  lemma DistinctStays<T>(xs: seq<T>, ys: seq<T>)
    requires Distinct(xs) && multiset(xs) == multiset(ys)
    ensures Distinct(ys)
  {
    forall i, j | 0 <= i < j < |ys| ensures ys[i] != ys[j] {
      DistinctCount(xs, ys[i]);
      assert ys == ys[..j] + [ys[j]] + ys[j + 1..];
      assert ys[..j][i] == ys[i];
      assert multiset(ys)[ys[j]] == multiset(ys[..j])[ys[j]] + 1 + multiset(ys[j + 1..])[ys[j]];
      CountIsPresence(ys[..j], ys[i]);
    }
  }
}
