/**
 * `Array.prototype.sort` with a comparator.
 *
 * The sort is stable: an element goes behind the equal ones that precede it in the input.
 * When no two elements tie there is only one sorted arrangement, so the result does not depend
 * on the order of the input.
 *
 * A comparator is an order when swapping its arguments swaps its sign and when it is
 * transitive; elements tie when it gives 0.
 */
module Sorting {
  import opened Lists

  type Comparator<!T> = (T, T) -> int

  ghost predicate IsOrder<T(!new)>(cmp: Comparator<T>) {
    && (forall a, b :: cmp(a, b) < 0 <==> cmp(b, a) > 0)
    && (forall a, b, c :: cmp(a, b) <= 0 && cmp(b, c) <= 0 ==> cmp(a, c) <= 0)
  }

  ghost predicate NoTies<T>(cmp: Comparator<T>, xs: seq<T>) {
    forall a, b :: a in xs && b in xs && cmp(a, b) == 0 ==> a == b
  }

  ghost predicate Sorted<T>(cmp: Comparator<T>, xs: seq<T>) {
    forall i, j :: 0 <= i < j < |xs| ==> cmp(xs[i], xs[j]) <= 0
  }

  function Insert<T>(cmp: Comparator<T>, x: T, xs: seq<T>): seq<T> {
    if xs == [] || cmp(x, xs[0]) < 0 then [x] + xs
    else [xs[0]] + Insert(cmp, x, xs[1..])
  }

  // An element goes behind the equal ones that precede it in the input.
  function Sort<T>(cmp: Comparator<T>, xs: seq<T>): seq<T> {
    if xs == [] then [] else Insert(cmp, xs[|xs| - 1], Sort(cmp, xs[..|xs| - 1]))
  }

  lemma {:induction false} InsertPermutes<T>(cmp: Comparator<T>, x: T, xs: seq<T>)
    ensures multiset(Insert(cmp, x, xs)) == multiset(xs) + multiset{x}
  {
    if xs == [] || cmp(x, xs[0]) < 0 {
    } else {
      InsertPermutes(cmp, x, xs[1..]);
      assert xs == [xs[0]] + xs[1..];
    }
  }

  lemma {:induction false} SortPermutes<T>(cmp: Comparator<T>, xs: seq<T>)
    ensures multiset(Sort(cmp, xs)) == multiset(xs)
  {
    if xs != [] {
      var init, last := xs[..|xs| - 1], xs[|xs| - 1];
      SortPermutes(cmp, init);
      InsertPermutes(cmp, last, Sort(cmp, init));
      assert xs == init + [last];
    }
  }

  lemma SameElements<T>(xs: seq<T>, ys: seq<T>)
    requires multiset(xs) == multiset(ys)
    ensures |xs| == |ys|
    ensures forall e :: e in xs <==> e in ys
  {
    assert |multiset(xs)| == |multiset(ys)|;
    forall e ensures e in xs <==> e in ys {
      assert e in xs <==> e in multiset(xs);
      assert e in ys <==> e in multiset(ys);
    }
  }

  lemma InsertElements<T>(cmp: Comparator<T>, x: T, xs: seq<T>)
    ensures forall e :: e in Insert(cmp, x, xs) ==> e == x || e in xs
  {
    InsertPermutes(cmp, x, xs);
    forall e | e in Insert(cmp, x, xs) ensures e == x || e in xs {
      assert e in multiset(Insert(cmp, x, xs));
    }
  }

  lemma SortedFromHead<T(!new)>(cmp: Comparator<T>, x: T, xs: seq<T>)
    requires Sorted(cmp, xs) && forall e :: e in xs ==> cmp(x, e) <= 0
    ensures Sorted(cmp, [x] + xs)
  {}

  lemma {:induction false} InsertSorts<T(!new)>(cmp: Comparator<T>, x: T, xs: seq<T>)
    requires IsOrder(cmp) && Sorted(cmp, xs)
    ensures Sorted(cmp, Insert(cmp, x, xs))
  {
    if xs == [] {
    } else if cmp(x, xs[0]) < 0 {
      forall e | e in xs ensures cmp(x, e) <= 0 {
        var j :| 0 <= j < |xs| && xs[j] == e;
        assert j == 0 || cmp(xs[0], e) <= 0;
      }
      SortedFromHead(cmp, x, xs);
    } else {
      InsertSorts(cmp, x, xs[1..]);
      InsertElements(cmp, x, xs[1..]);
      assert cmp(xs[0], x) <= 0;
      SortedFromHead(cmp, xs[0], Insert(cmp, x, xs[1..]));
    }
  }

  lemma {:induction false} SortSorts<T(!new)>(cmp: Comparator<T>, xs: seq<T>)
    requires IsOrder(cmp)
    ensures Sorted(cmp, Sort(cmp, xs))
  {
    if xs != [] {
      SortSorts(cmp, xs[..|xs| - 1]);
      InsertSorts(cmp, xs[|xs| - 1], Sort(cmp, xs[..|xs| - 1]));
    }
  }

  lemma FirstIsLeast<T(!new)>(cmp: Comparator<T>, xs: seq<T>, e: T)
    requires IsOrder(cmp) && Sorted(cmp, xs) && e in xs
    ensures cmp(xs[0], e) <= 0
  {
    var i :| 0 <= i < |xs| && xs[i] == e;
    if i == 0 { assert cmp(e, e) < 0 <==> cmp(e, e) > 0; }
  }

  lemma HeadsAgree<T(!new)>(cmp: Comparator<T>, xs: seq<T>, ys: seq<T>)
    requires IsOrder(cmp) && Sorted(cmp, xs) && Sorted(cmp, ys) && xs != []
    requires NoTies(cmp, xs) && multiset(xs) == multiset(ys)
    ensures ys != [] && xs[0] == ys[0]
  {
    SameElements(xs, ys);
    FirstIsLeast(cmp, xs, ys[0]);
    FirstIsLeast(cmp, ys, xs[0]);
    assert cmp(xs[0], ys[0]) == 0;
  }

  lemma TailKeepsOrder<T>(cmp: Comparator<T>, xs: seq<T>)
    requires Sorted(cmp, xs) && NoTies(cmp, xs) && xs != []
    ensures Sorted(cmp, xs[1..]) && NoTies(cmp, xs[1..])
    ensures multiset(xs[1..]) == multiset(xs) - multiset{xs[0]}
  {
    assert xs == [xs[0]] + xs[1..];
  }

  lemma SameSize<T>(xs: seq<T>, ys: seq<T>)
    requires multiset(xs) == multiset(ys)
    ensures |xs| == |ys|
  {
    assert |multiset(xs)| == |multiset(ys)|;
  }

  lemma {:induction false} SortedListsAgree<T(!new)>(cmp: Comparator<T>, xs: seq<T>, ys: seq<T>)
    requires IsOrder(cmp) && Sorted(cmp, xs) && Sorted(cmp, ys)
    requires NoTies(cmp, xs) && multiset(xs) == multiset(ys)
    ensures xs == ys
  {
    SameSize(xs, ys);
    if xs != [] {
      HeadsAgree(cmp, xs, ys);
      SameElements(xs, ys);
      TailKeepsOrder(cmp, xs);
      TailKeepsOrder(cmp, ys);
      SortedListsAgree(cmp, xs[1..], ys[1..]);
      assert xs == [xs[0]] + xs[1..] && ys == [ys[0]] + ys[1..];
    }
  }

  // When nothing ties there is only one sorted arrangement, whatever order the input came in.
  lemma SortForgetsOrder<T(!new)>(cmp: Comparator<T>, xs: seq<T>, ys: seq<T>)
    requires IsOrder(cmp) && NoTies(cmp, xs) && multiset(xs) == multiset(ys)
    ensures Sort(cmp, xs) == Sort(cmp, ys)
  {
    SortPermutes(cmp, xs);
    SortPermutes(cmp, ys);
    SortSorts(cmp, xs);
    SortSorts(cmp, ys);
    SameElements(xs, Sort(cmp, xs));
    SortedListsAgree(cmp, Sort(cmp, xs), Sort(cmp, ys));
  }

  lemma SortedElements<T>(cmp: Comparator<T>, xs: seq<T>)
    ensures |Sort(cmp, xs)| == |xs|
    ensures forall e :: e in Sort(cmp, xs) <==> e in xs
  {
    SortPermutes(cmp, xs);
    SameElements(Sort(cmp, xs), xs);
  }

  // What a prefix of a sorted list leaves out is no less than what it holds.
  lemma PrefixIsLeast<T>(cmp: Comparator<T>, xs: seq<T>, n: nat, i: nat, e: T)
    requires Sorted(cmp, xs) && i < n <= |xs| && e in xs && e !in xs[..n]
    ensures cmp(xs[i], e) <= 0
  {
    assert xs == xs[..n] + xs[n..];
    var j :| 0 <= j < |xs[n..]| && xs[n..][j] == e;
    assert xs[n + j] == e;
  }

  // ---------------------------------------------------------------- the sort is stable

  lemma {:induction false} InsertKeepsOrder<T(!new)>(cmp: Comparator<T>, x: T, xs: seq<T>, a: T, b: T)
    requires StandsBefore(xs, a, b)
    ensures StandsBefore(Insert(cmp, x, xs), a, b)
  {
    if xs == [] || cmp(x, xs[0]) < 0 {
      StandsAtFront(x, xs, a, b);
    } else {
      var rest := Insert(cmp, x, xs[1..]);
      assert xs == [xs[0]] + xs[1..];
      StandsAtFront(xs[0], xs[1..], a, b);
      StandsAtFront(xs[0], rest, a, b);
      if StandsBefore(xs[1..], a, b) {
        InsertKeepsOrder(cmp, x, xs[1..], a, b);
      } else {
        Inserted(cmp, x, xs[1..], b);
      }
    }
  }

  lemma {:induction false} Inserted<T(!new)>(cmp: Comparator<T>, x: T, xs: seq<T>, e: T)
    ensures e in Insert(cmp, x, xs) <==> e == x || e in xs
  {
    InsertPermutes(cmp, x, xs);
    assert e in Insert(cmp, x, xs) <==> e in multiset(Insert(cmp, x, xs));
    assert e in xs <==> e in multiset(xs);
  }

  lemma {:induction false} InsertGoesBehind<T(!new)>(cmp: Comparator<T>, x: T, xs: seq<T>, a: T)
    requires IsOrder(cmp) && Sorted(cmp, xs) && a in xs && cmp(a, x) == 0
    ensures StandsBefore(Insert(cmp, x, xs), a, x)
  {
    FirstIsLeast(cmp, xs, a);
    assert cmp(xs[0], x) <= 0;
    var rest := Insert(cmp, x, xs[1..]);
    StandsAtFront(xs[0], rest, a, x);
    Inserted(cmp, x, xs[1..], x);
    if a != xs[0] {
      InsertGoesBehind(cmp, x, xs[1..], a);
    }
  }

  lemma {:induction false} SortKeepsTies<T(!new)>(cmp: Comparator<T>, xs: seq<T>, a: T, b: T)
    requires IsOrder(cmp) && StandsBefore(xs, a, b) && cmp(a, b) == 0
    ensures StandsBefore(Sort(cmp, xs), a, b)
  {
    var init, last := xs[..|xs| - 1], xs[|xs| - 1];
    assert xs == init + [last];
    StandsAtEnd(init, last, a, b);
    SortSorts(cmp, init);
    SortedElements(cmp, init);
    if StandsBefore(init, a, b) {
      SortKeepsTies(cmp, init, a, b);
      InsertKeepsOrder(cmp, last, Sort(cmp, init), a, b);
    } else {
      InsertGoesBehind(cmp, last, Sort(cmp, init), a);
    }
  }

  /** Elements that tie stand in the sorted list as they stand in the input. */
  lemma SortIsStable<T(!new)>(cmp: Comparator<T>, xs: seq<T>, a: T, b: T)
    requires IsOrder(cmp) && Distinct(xs) && a in xs && b in xs && a != b && cmp(a, b) == 0
    ensures StandsBefore(Sort(cmp, xs), a, b) <==> StandsBefore(xs, a, b)
  {
    SortPermutes(cmp, xs);
    DistinctStays(xs, Sort(cmp, xs));
    SortedElements(cmp, xs);
    OneStandsBefore(xs, a, b);
    OneStandsBefore(Sort(cmp, xs), a, b);
    if StandsBefore(xs, a, b) { SortKeepsTies(cmp, xs, a, b); } else { SortKeepsTies(cmp, xs, b, a); }
  }
}
