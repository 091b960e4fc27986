/**
 * Keeping the last n of a sorted list: who is kept, and why keeping early changes nothing.
 *
 * A part covers a set when every element outside of it has n elements of the part that are no
 * earlier. The last n of a sorted list cover it, whatever ties; covering composes and unites;
 * and where elements that tie have n later ones behind them, at most n elements that cover a
 * set are its n latest, so that there is only one such list.
 *
 * Where such a tie is not buried, the order of the input shows: of two elements that tie, the
 * one that comes last in the input stands behind the other.
 */
module Latest {
  import opened Sorting
  import opened Lists

  // `slice(-n)`
  function Last<T>(n: nat, xs: seq<T>): (kept: seq<T>)
    ensures |kept| <= n && |kept| <= |xs|
  {
    if |xs| > n then xs[|xs| - n..] else xs
  }

  ghost function Elements<T>(xs: seq<T>): set<T> {
    set e | e in xs
  }

  ghost function Later<T>(cmp: Comparator<T>, s: set<T>, x: T): set<T> {
    set y | y in s && cmp(x, y) < 0
  }

  // x is one of the n latest elements of s.
  ghost predicate Among<T>(n: nat, cmp: Comparator<T>, s: set<T>, x: T) {
    x in s && |Later(cmp, s, x)| < n
  }

  ghost predicate Ranked<T(!new)>(cmp: Comparator<T>, xs: seq<T>) {
    IsOrder(cmp) && Sorted(cmp, xs) && Distinct(xs) && NoTies(cmp, xs)
  }

  lemma {:induction false} DistinctSize<T>(xs: seq<T>)
    requires Distinct(xs)
    ensures |Elements(xs)| == |xs|
  {
    if xs != [] {
      DistinctSize(xs[1..]);
      assert Elements(xs) == {xs[0]} + Elements(xs[1..]);
    }
  }

  lemma Subset<T>(a: set<T>, b: set<T>)
    requires a <= b
    ensures |a| <= |b|
  {
    assert b == a + (b - a);
  }

  lemma LaterChain<T(!new)>(cmp: Comparator<T>, a: T, b: T, c: T)
    requires IsOrder(cmp) && cmp(a, b) < 0 && cmp(b, c) <= 0
    ensures cmp(a, c) < 0
  {
    assert cmp(b, a) > 0;
    assert cmp(c, a) <= 0 ==> cmp(b, a) <= 0;
  }

  lemma IndexInLast<T>(n: nat, xs: seq<T>, i: nat)
    requires Distinct(xs) && i < |xs|
    ensures xs[i] in Last(n, xs) <==> |xs| - |Last(n, xs)| <= i
  {
    var k := |xs| - |Last(n, xs)|;
    assert k <= i ==> Last(n, xs)[i - k] == xs[i];
    assert forall j :: 0 <= j < |Last(n, xs)| ==> Last(n, xs)[j] == xs[k + j];
  }

  lemma LastIsPart<T>(n: nat, xs: seq<T>, x: T)
    requires x in Last(n, xs)
    ensures x in xs
  {}

  lemma LastKeepsOrder<T(!new)>(n: nat, cmp: Comparator<T>, xs: seq<T>, i: nat, j: nat)
    requires Sorted(cmp, xs) && i < j < |Last(n, xs)|
    ensures cmp(Last(n, xs)[i], Last(n, xs)[j]) <= 0 && StandsBefore(xs, Last(n, xs)[i], Last(n, xs)[j])
  {
    var k := |xs| - |Last(n, xs)|;
    assert Last(n, xs)[i] == xs[k + i] && Last(n, xs)[j] == xs[k + j];
  }

  // The elements of s that are no earlier than y.
  ghost function NotBefore<T>(cmp: Comparator<T>, s: set<T>, y: T): set<T> {
    set z | z in s && cmp(y, z) <= 0
  }

  // Whatever was dropped of `all` has n kept elements that are no earlier.
  ghost predicate Covers<T(!new)>(n: nat, cmp: Comparator<T>, all: set<T>, kept: set<T>) {
    forall y :: y in all && y !in kept ==> |NotBefore(cmp, kept, y)| >= n
  }

  // Different elements that tie have at least n elements behind them.
  ghost predicate TiesBuried<T(!new)>(n: nat, cmp: Comparator<T>, s: set<T>) {
    forall a, b :: a in s && b in s && a != b && cmp(a, b) == 0 ==> |Later(cmp, s, a)| >= n
  }

  /** The last n of a sorted list cover it. */
  lemma LastCovers<T(!new)>(n: nat, cmp: Comparator<T>, xs: seq<T>)
    requires IsOrder(cmp) && Sorted(cmp, xs) && Distinct(xs)
    ensures Distinct(Last(n, xs)) && Sorted(cmp, Last(n, xs)) && Elements(Last(n, xs)) <= Elements(xs)
    ensures Covers(n, cmp, Elements(xs), Elements(Last(n, xs)))
  {
    forall y | y in xs && y !in Last(n, xs) ensures |NotBefore(cmp, Elements(Last(n, xs)), y)| >= n {
      var i :| 0 <= i < |xs| && xs[i] == y;
      IndexInLast(n, xs, i);
      forall z | z in Last(n, xs) ensures cmp(y, z) <= 0 {
        LastIsPart(n, xs, z);
        var j :| 0 <= j < |xs| && xs[j] == z;
        IndexInLast(n, xs, j);
      }
      assert NotBefore(cmp, Elements(Last(n, xs)), y) == Elements(Last(n, xs));
      DistinctSize(Last(n, xs));
    }
  }

  /** Keeping in two steps covers as keeping in one. */
  lemma CoveringComposes<T(!new)>(n: nat, cmp: Comparator<T>, all: set<T>, part: set<T>, kept: set<T>)
    requires IsOrder(cmp) && Covers(n, cmp, all, part) && Covers(n, cmp, part, kept)
    ensures Covers(n, cmp, all, kept)
  {
    forall y | y in all && y !in kept ensures |NotBefore(cmp, kept, y)| >= n {
      if y !in part {
        if z :| z in NotBefore(cmp, part, y) && z !in kept {
          assert NotBefore(cmp, kept, z) <= NotBefore(cmp, kept, y);
          Subset(NotBefore(cmp, kept, z), NotBefore(cmp, kept, y));
        } else {
          Subset(NotBefore(cmp, part, y), NotBefore(cmp, kept, y));
        }
      }
    }
  }

  lemma CoveringUnites<T(!new)>(n: nat, cmp: Comparator<T>, a: set<T>, keptA: set<T>, b: set<T>, keptB: set<T>)
    requires Covers(n, cmp, a, keptA) && Covers(n, cmp, b, keptB)
    ensures Covers(n, cmp, a + b, keptA + keptB)
  {
    forall y | y in a + b && y !in keptA + keptB ensures |NotBefore(cmp, keptA + keptB, y)| >= n {
      if y in a {
        Subset(NotBefore(cmp, keptA, y), NotBefore(cmp, keptA + keptB, y));
      } else {
        Subset(NotBefore(cmp, keptB, y), NotBefore(cmp, keptA + keptB, y));
      }
    }
  }

  // An element that was dropped although few come after it ties with another one.
  lemma DroppedHasLater<T(!new)>(n: nat, cmp: Comparator<T>, all: set<T>, kept: set<T>, x: T)
    requires IsOrder(cmp) && Covers(n, cmp, all, kept) && TiesBuried(n, cmp, all) && kept <= all
    requires x in all && x !in kept
    ensures |Later(cmp, all, x)| >= n
  {
    if !exists z :: z in all && z != x && cmp(x, z) == 0 {
      forall z | z in NotBefore(cmp, kept, x) ensures z in Later(cmp, all, x) {}
      Subset(NotBefore(cmp, kept, x), Later(cmp, all, x));
    }
  }

  // An element with n others behind it is not kept where only n are.
  lemma OutrankedIsDropped<T(!new)>(n: nat, cmp: Comparator<T>, all: set<T>, kept: set<T>, x: T)
    requires IsOrder(cmp) && Covers(n, cmp, all, kept) && kept <= all && |kept| <= n
    requires x in all && |Later(cmp, all, x)| >= n
    ensures x !in kept
  {
    if x in kept {
      assert cmp(x, x) < 0 <==> cmp(x, x) > 0;
      if y :| y in Later(cmp, all, x) && y !in kept {
        forall z | z in NotBefore(cmp, kept, y) ensures z in kept - {x} {
          LaterChain(cmp, x, y, z);
        }
        Subset(NotBefore(cmp, kept, y), kept - {x});
      } else {
        Subset(Later(cmp, all, x), kept - {x});
      }
    }
  }

  /** When ties are buried, at most n elements that cover a set are its n latest. */
  lemma CoveringIsLatest<T(!new)>(n: nat, cmp: Comparator<T>, all: set<T>, kept: set<T>, x: T)
    requires IsOrder(cmp) && Covers(n, cmp, all, kept) && TiesBuried(n, cmp, all) && kept <= all && |kept| <= n
    ensures x in kept <==> Among(n, cmp, all, x)
  {
    if x in all {
      if x !in kept {
        DroppedHasLater(n, cmp, all, kept, x);
      } else if |Later(cmp, all, x)| >= n {
        OutrankedIsDropped(n, cmp, all, kept, x);
      }
    }
  }

  /** So there is one sorted log that covers a set with buried ties. */
  lemma CoveringIsDetermined<T(!new)>(n: nat, cmp: Comparator<T>, all: set<T>, xs: seq<T>, ys: seq<T>)
    requires IsOrder(cmp) && TiesBuried(n, cmp, all)
    requires Kept(n, cmp, all, xs) && Kept(n, cmp, all, ys)
    ensures xs == ys
  {
    KeptIsLatest(n, cmp, all, xs);
    KeptIsLatest(n, cmp, all, ys);
    RankedIsDetermined(cmp, xs, ys);
  }

  // A log of at most n elements that covers a set.
  ghost predicate Kept<T(!new)>(n: nat, cmp: Comparator<T>, all: set<T>, xs: seq<T>) {
    && Sorted(cmp, xs) && Distinct(xs) && |xs| <= n
    && Elements(xs) <= all && Covers(n, cmp, all, Elements(xs))
  }

  lemma KeptIsLatest<T(!new)>(n: nat, cmp: Comparator<T>, all: set<T>, xs: seq<T>)
    requires IsOrder(cmp) && TiesBuried(n, cmp, all) && Kept(n, cmp, all, xs)
    ensures Ranked(cmp, xs) && forall e :: e in xs <==> Among(n, cmp, all, e)
  {
    DistinctSize(xs);
    forall e ensures e in xs <==> Among(n, cmp, all, e) {
      CoveringIsLatest(n, cmp, all, Elements(xs), e);
    }
    forall a, b | a in xs && b in xs && cmp(a, b) == 0 ensures a == b {
      assert Among(n, cmp, all, a);
      assert a in all && b in all;
    }
  }

  /** The kept elements of a sorted list are those that fewer than n others come after. */
  lemma LastIsAmong<T(!new)>(n: nat, cmp: Comparator<T>, xs: seq<T>, x: T)
    requires IsOrder(cmp) && Sorted(cmp, xs) && Distinct(xs) && TiesBuried(n, cmp, Elements(xs))
    ensures x in Last(n, xs) <==> Among(n, cmp, Elements(xs), x)
  {
    LastCovers(n, cmp, xs);
    KeptIsLatest(n, cmp, Elements(xs), Last(n, xs));
  }

  ghost function Newest<T>(n: nat, cmp: Comparator<T>, s: set<T>): set<T> {
    set x | x in s && Among(n, cmp, s, x)
  }

  lemma LaterIsBehind<T(!new)>(cmp: Comparator<T>, xs: seq<T>, i: nat, y: T)
    requires IsOrder(cmp) && Sorted(cmp, xs) && i < |xs| && y in xs && cmp(xs[i], y) < 0
    ensures y in xs[i + 1..]
  {
    var j :| 0 <= j < |xs| && xs[j] == y;
    assert cmp(y, xs[i]) > 0;
    assert cmp(xs[i], xs[i]) == 0;
    assert i < j;
    assert xs[i + 1..][j - i - 1] == y;
  }

  lemma LaterAreFew<T(!new)>(cmp: Comparator<T>, xs: seq<T>, i: nat)
    requires IsOrder(cmp) && Sorted(cmp, xs) && Distinct(xs) && i < |xs|
    ensures |Later(cmp, Elements(xs), xs[i])| < |xs| - i
  {
    forall y | y in Later(cmp, Elements(xs), xs[i]) ensures y in Elements(xs[i + 1..]) {
      LaterIsBehind(cmp, xs, i, y);
    }
    Subset(Later(cmp, Elements(xs), xs[i]), Elements(xs[i + 1..]));
    DistinctSize(xs[i + 1..]);
  }

  // Whatever ties, the kept elements have fewer than n later ones.
  lemma KeptIsAmong<T(!new)>(n: nat, cmp: Comparator<T>, xs: seq<T>, x: T)
    requires IsOrder(cmp) && Sorted(cmp, xs) && Distinct(xs) && x in Last(n, xs)
    ensures Among(n, cmp, Elements(xs), x)
  {
    LastIsPart(n, xs, x);
    var i :| 0 <= i < |xs| && xs[i] == x;
    IndexInLast(n, xs, i);
    LaterAreFew(cmp, xs, i);
  }

  /** Every element with fewer than n later ones is kept exactly when there are at most n of them. */
  lemma NewestAreKeptExactly<T(!new)>(n: nat, cmp: Comparator<T>, xs: seq<T>)
    requires IsOrder(cmp) && Sorted(cmp, xs) && Distinct(xs)
    ensures Elements(Last(n, xs)) <= Newest(n, cmp, Elements(xs))
    ensures Elements(Last(n, xs)) == Newest(n, cmp, Elements(xs)) <==> |Newest(n, cmp, Elements(xs))| <= n
  {
    var kept, newest := Elements(Last(n, xs)), Newest(n, cmp, Elements(xs));
    forall x | x in kept ensures x in newest {
      KeptIsAmong(n, cmp, xs, x);
    }
    LastCovers(n, cmp, xs);
    DistinctSize(Last(n, xs));
    if |newest| <= n {
      if |xs| <= n {
        assert Last(n, xs) == xs;
      } else {
        assert newest == kept + (newest - kept);
      }
    }
  }

  /** Dropping what is covered before a union does not change the n latest of the union. */
  lemma KeepingIsHarmless<T(!new)>(n: nat, cmp: Comparator<T>, all: set<T>, kept: set<T>, b: set<T>, x: T)
    requires IsOrder(cmp) && Covers(n, cmp, all, kept) && kept <= all && TiesBuried(n, cmp, all + b)
    ensures Among(n, cmp, kept + b, x) <==> Among(n, cmp, all + b, x)
  {
    CoveringUnites(n, cmp, all, kept, b, b);
    if x in kept + b {
      if y :| y in Later(cmp, all + b, x) && y !in kept + b {
        forall z | z in NotBefore(cmp, kept + b, y) ensures z in Later(cmp, kept + b, x) {
          LaterChain(cmp, x, y, z);
        }
        Subset(NotBefore(cmp, kept + b, y), Later(cmp, kept + b, x));
        Subset(Later(cmp, kept + b, x), Later(cmp, all + b, x));
      } else {
        assert Later(cmp, all + b, x) == Later(cmp, kept + b, x);
      }
    } else if x in all + b {
      DroppedHasLater(n, cmp, all + b, kept + b, x);
    }
  }

  // Ranked lists with the same elements are the same.
  lemma RankedIsDetermined<T(!new)>(cmp: Comparator<T>, xs: seq<T>, ys: seq<T>)
    requires Ranked(cmp, xs) && Ranked(cmp, ys) && forall e :: e in xs <==> e in ys
    ensures xs == ys
  {
    DistinctPermutation(xs, ys);
    SortedListsAgree(cmp, xs, ys);
  }

  // ---------------------------------------------------------------- ties that are not buried show the input order

  // Where insertion puts an element: in front of the first one that is later.
  function Landing<T>(cmp: Comparator<T>, x: T, xs: seq<T>): (i: nat)
    ensures i <= |xs| && (i < |xs| ==> cmp(x, xs[i]) < 0)
    ensures forall j :: 0 <= j < i ==> cmp(x, xs[j]) >= 0
  {
    if xs == [] || cmp(x, xs[0]) < 0 then 0
    else
      var k := Landing(cmp, x, xs[1..]);
      assert forall j :: 0 < j < k + 1 ==> xs[j] == xs[1..][j - 1];
      k + 1
  }

  lemma {:induction false} InsertLands<T>(cmp: Comparator<T>, x: T, xs: seq<T>)
    ensures var zs := Insert(cmp, x, xs); |zs| == |xs| + 1 && zs[Landing(cmp, x, xs)] == x
  {
    if xs != [] && cmp(x, xs[0]) >= 0 {
      InsertLands(cmp, x, xs[1..]);
    }
  }

  // From i on, everything is later than x, and nothing before.
  ghost predicate Parts<T>(cmp: Comparator<T>, x: T, xs: seq<T>, i: nat) {
    forall j :: 0 <= j < |xs| ==> (cmp(x, xs[j]) < 0 <==> i <= j)
  }

  lemma LandingParts<T(!new)>(cmp: Comparator<T>, x: T, xs: seq<T>)
    requires IsOrder(cmp) && Sorted(cmp, xs)
    ensures Parts(cmp, x, xs, Landing(cmp, x, xs))
  {
    var i := Landing(cmp, x, xs);
    forall j | i < j < |xs| ensures cmp(x, xs[j]) < 0 {
      LaterChain(cmp, x, xs[i], xs[j]);
    }
  }

  lemma TailElements<T>(xs: seq<T>, i: nat, y: T)
    requires i <= |xs|
    ensures y in xs[i..] <==> exists j :: i <= j < |xs| && xs[j] == y
  {
    if j :| i <= j < |xs| && xs[j] == y { assert xs[i..][j - i] == y; }
  }

  lemma LaterIsTail<T(!new)>(cmp: Comparator<T>, x: T, xs: seq<T>, i: nat)
    requires Distinct(xs) && i <= |xs| && Parts(cmp, x, xs, i)
    ensures |Later(cmp, Elements(xs), x)| == |xs| - i
  {
    forall y ensures y in Later(cmp, Elements(xs), x) <==> y in Elements(xs[i..]) {
      TailElements(xs, i, y);
      if y in Later(cmp, Elements(xs), x) {
        var j :| 0 <= j < |xs| && xs[j] == y;
      }
    }
    assert Later(cmp, Elements(xs), x) == Elements(xs[i..]);
    DistinctSize(xs[i..]);
  }

  lemma LaterForgetsItself<T(!new)>(cmp: Comparator<T>, s: set<T>, x: T)
    requires IsOrder(cmp)
    ensures Later(cmp, s + {x}, x) == Later(cmp, s, x)
  {
    assert cmp(x, x) < 0 <==> cmp(x, x) > 0;
  }

  // The element that stands `later` places from the end.
  predicate StandsAt<T(==)>(log: seq<T>, later: nat, x: T) {
    later < |log| && log[|log| - 1 - later] == x
  }

  lemma SortSnoc<T>(cmp: Comparator<T>, xs: seq<T>, x: T)
    ensures Sort(cmp, xs + [x]) == Insert(cmp, x, Sort(cmp, xs))
  {
    assert (xs + [x])[..|xs|] == xs;
  }

  lemma SortedListing<T(!new)>(cmp: Comparator<T>, xs: seq<T>)
    requires IsOrder(cmp) && Distinct(xs)
    ensures Sorted(cmp, Sort(cmp, xs)) && Distinct(Sort(cmp, xs)) && Elements(Sort(cmp, xs)) == Elements(xs)
  {
    SortSorts(cmp, xs);
    SortPermutes(cmp, xs);
    SortedElements(cmp, xs);
    DistinctStays(xs, Sort(cmp, xs));
  }

  lemma InsertedStands<T(!new)>(cmp: Comparator<T>, xs: seq<T>, x: T)
    requires IsOrder(cmp) && Sorted(cmp, xs) && Distinct(xs)
    ensures StandsAt(Insert(cmp, x, xs), |Later(cmp, Elements(xs), x)|, x)
  {
    InsertLands(cmp, x, xs);
    LandingParts(cmp, x, xs);
    LaterIsTail(cmp, x, xs, Landing(cmp, x, xs));
  }

  /** The element that comes last in the input stands behind all that tie with it. */
  lemma LastInputStandsLast<T(!new)>(cmp: Comparator<T>, xs: seq<T>, x: T)
    requires IsOrder(cmp) && Distinct(xs)
    ensures StandsAt(Sort(cmp, xs + [x]), |Later(cmp, Elements(xs) + {x}, x)|, x)
  {
    SortSnoc(cmp, xs, x);
    SortedListing(cmp, xs);
    InsertedStands(cmp, Sort(cmp, xs), x);
    LaterForgetsItself(cmp, Elements(xs), x);
  }

  lemma LastKeepsPlaces<T>(n: nat, log: seq<T>, later: nat, x: T)
    requires StandsAt(log, later, x) && later < n
    ensures StandsAt(Last(n, log), later, x)
  {}

  lemma SomeListing<T>(s: set<T>) returns (xs: seq<T>)
    ensures Distinct(xs) && Elements(xs) == s
  {
    xs := [];
    if s != {} {
      var x :| x in s;
      var rest := SomeListing(s - {x});
      xs := rest + [x];
      assert Elements(xs) == Elements(rest) + {x};
    }
  }

  lemma LastOfListing<T(!new)>(n: nat, cmp: Comparator<T>, all: set<T>, init: seq<T>, last: T)
    requires IsOrder(cmp) && Distinct(init + [last]) && Elements(init) + {last} == all
    requires |Later(cmp, all, last)| < n
    ensures Elements(init + [last]) == all
    ensures StandsAt(Last(n, Sort(cmp, init + [last])), |Later(cmp, all, last)|, last)
  {
    assert Distinct(init) by {
      forall i, j | 0 <= i < j < |init| ensures init[i] != init[j] {
        assert (init + [last])[i] == init[i] && (init + [last])[j] == init[j];
      }
    }
    LastInputStandsLast(cmp, init, last);
    LastKeepsPlaces(n, Sort(cmp, init + [last]), |Later(cmp, all, last)|, last);
  }

  lemma TiesShareLater<T(!new)>(cmp: Comparator<T>, all: set<T>, a: T, b: T)
    requires IsOrder(cmp) && cmp(a, b) == 0
    ensures Later(cmp, all, a) == Later(cmp, all, b)
  {
    assert cmp(a, b) <= 0 && cmp(b, a) <= 0;
    forall y | y in all ensures cmp(a, y) < 0 <==> cmp(b, y) < 0 {
      if cmp(a, y) < 0 { LaterAlsoOfTie(cmp, a, b, y); }
      if cmp(b, y) < 0 { LaterAlsoOfTie(cmp, b, a, y); }
    }
  }

  lemma LaterAlsoOfTie<T(!new)>(cmp: Comparator<T>, a: T, b: T, y: T)
    requires IsOrder(cmp) && cmp(a, b) <= 0 && cmp(a, y) < 0 && cmp(b, a) <= 0
    ensures cmp(b, y) < 0
  {
    assert cmp(y, a) > 0;
    assert cmp(y, b) <= 0 ==> cmp(y, a) <= 0;
  }

  lemma StandApart<T>(log: seq<T>, other: seq<T>, later: nat, a: T, b: T)
    requires StandsAt(log, later, b) && StandsAt(other, later, a) && a != b
    ensures log != other
  {}

  lemma SwappedListings<T>(all: set<T>, a: T, b: T) returns (one: seq<T>, two: seq<T>)
    requires a in all && b in all && a != b
    ensures Distinct(one + [b]) && Elements(one) + {b} == all
    ensures Distinct(two + [a]) && Elements(two) + {a} == all
  {
    var rest := SomeListing(all - {a, b});
    one, two := rest + [a], rest + [b];
    forall e | e in rest ensures e != a && e != b { assert e in Elements(rest); }
    assert Elements(one) == Elements(rest) + {a} && Elements(two) == Elements(rest) + {b};
  }

  /** Two elements whose tie is not buried: listing either of them last shows in what is kept. */
  lemma UnburiedShows<T(!new)>(n: nat, cmp: Comparator<T>, all: set<T>, a: T, b: T) returns (xs: seq<T>, ys: seq<T>)
    requires IsOrder(cmp) && a in all && b in all && a != b && cmp(a, b) == 0 && |Later(cmp, all, a)| < n
    ensures Distinct(xs) && Distinct(ys) && Elements(xs) == all && Elements(ys) == all
    ensures Last(n, Sort(cmp, xs)) != Last(n, Sort(cmp, ys))
  {
    var one, two := SwappedListings(all, a, b);
    xs, ys := one + [b], two + [a];
    TiesShareLater(cmp, all, a, b);
    LastOfListing(n, cmp, all, one, b);
    LastOfListing(n, cmp, all, two, a);
    StandApart(Last(n, Sort(cmp, xs)), Last(n, Sort(cmp, ys)), |Later(cmp, all, a)|, a, b);
  }
}
