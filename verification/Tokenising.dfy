/**
 * The scanning loop shared by the inline Markdown reader and the code highlighter.
 *
 * Both apply a global regular expression to a text: `exec` finds the next match, what lies
 * between two matches is kept as it is, and `lastIndex` moves behind the match. The loop is
 * independent of the expression, which enters as the length of the match at each position.
 */
module Tokenising {
  // The length of the match at a position of a text, 0 where nothing matches.
  type Matcher = (string, nat) -> nat

  ghost predicate Bounded(m: Matcher) {
    forall s, i: nat :: i <= |s| ==> i + m(s, i) <= |s|
  }

  datatype Segment = Gap(text: string) | Token(text: string)

  ghost predicate NoMatch(m: Matcher, s: string, i: nat, k: nat) {
    forall j: nat :: i <= j < k ==> m(s, j) == 0
  }

  /** The position where `exec` finds its next match from i on, or the end of the text. */
  function Next(m: Matcher, s: string, i: nat): (k: nat)
    requires i <= |s|
    ensures i <= k <= |s|
    ensures NoMatch(m, s, i, k)
    ensures k < |s| ==> m(s, k) > 0
    decreases |s| - i
  {
    if i == |s| || m(s, i) > 0 then i else Next(m, s, i + 1)
  }

  function First(m: Matcher, s: string, i: nat): Segment
    requires i < |s| && Bounded(m)
  {
    if m(s, i) > 0 then Token(s[i..i + m(s, i)]) else Gap(s[i..Next(m, s, i)])
  }

  function Segments(m: Matcher, s: string, i: nat): seq<Segment>
    requires i <= |s| && Bounded(m)
    decreases |s| - i
  {
    if i == |s| then []
    else var first := First(m, s, i); [first] + Segments(m, s, i + |first.text|)
  }

  function Text(segments: seq<Segment>): string {
    if segments == [] then "" else segments[0].text + Text(segments[1..])
  }

  // A token is the match at i; no match starts inside a gap, nor does a gap stop short of one.
  ghost predicate Fits(m: Matcher, s: string, i: nat, segment: Segment) {
    var k := i + |segment.text|;
    && i < k <= |s| && segment.text == s[i..k]
    && match segment
       case Token(_) => m(s, i) == k - i
       case Gap(_) => NoMatch(m, s, i, k) && (k < |s| ==> m(s, k) > 0)
  }

  ghost predicate Settled(m: Matcher, s: string, i: nat, segments: seq<Segment>)
    requires i <= |s|
    decreases |segments|
  {
    if segments == [] then i == |s|
    else Fits(m, s, i, segments[0]) && Settled(m, s, i + |segments[0].text|, segments[1..])
  }

  lemma NextIsFirst(m: Matcher, s: string, i: nat, k: nat)
    requires i <= k <= |s| && NoMatch(m, s, i, k) && (k < |s| ==> m(s, k) > 0)
    ensures Next(m, s, i) == k
  {
    assert Next(m, s, i) >= k;
  }

  lemma FirstFits(m: Matcher, s: string, i: nat)
    requires i < |s| && Bounded(m)
    ensures Fits(m, s, i, First(m, s, i))
  {}

  lemma OnlyFirstFits(m: Matcher, s: string, i: nat, segment: Segment)
    requires i <= |s| && Bounded(m) && Fits(m, s, i, segment)
    ensures segment == First(m, s, i)
  {
    if segment.Gap? {
      NextIsFirst(m, s, i, i + |segment.text|);
    }
  }

  lemma {:induction false} SegmentsSettle(m: Matcher, s: string, i: nat)
    requires i <= |s| && Bounded(m)
    ensures Settled(m, s, i, Segments(m, s, i))
    decreases |s| - i
  {
    if i < |s| {
      FirstFits(m, s, i);
      SegmentsSettle(m, s, i + |First(m, s, i).text|);
    }
  }

  lemma {:induction false} SettledIsSegments(m: Matcher, s: string, i: nat, segments: seq<Segment>)
    requires i <= |s| && Bounded(m) && Settled(m, s, i, segments)
    ensures segments == Segments(m, s, i)
    decreases |segments|
  {
    if segments != [] {
      OnlyFirstFits(m, s, i, segments[0]);
      var rest := segments[1..];
      SettledIsSegments(m, s, i + |segments[0].text|, rest);
      assert Segments(m, s, i) == [segments[0]] + rest;
    }
  }

  /** The loop's segments are the one way to cut the text at its leftmost matches. */
  lemma SegmentsAreUnique(m: Matcher, s: string, segments: seq<Segment>)
    requires Bounded(m)
    ensures segments == Segments(m, s, 0) <==> Settled(m, s, 0, segments)
  {
    SegmentsSettle(m, s, 0);
    if Settled(m, s, 0, segments) {
      SettledIsSegments(m, s, 0, segments);
    }
  }

  lemma {:induction false} SettledCovers(m: Matcher, s: string, i: nat, segments: seq<Segment>)
    requires i <= |s| && Settled(m, s, i, segments)
    ensures Text(segments) == s[i..]
    decreases |segments|
  {
    if segments != [] {
      SettledCovers(m, s, i + |segments[0].text|, segments[1..]);
    }
  }

  lemma SegmentsCover(m: Matcher, s: string)
    requires Bounded(m)
    ensures Text(Segments(m, s, 0)) == s
  {
    SegmentsSettle(m, s, 0);
    SettledCovers(m, s, 0, Segments(m, s, 0));
  }

  // What the segments are displayed as.
  function Shown<N>(show: Segment -> seq<N>, segments: seq<Segment>): seq<N> {
    if segments == [] then [] else show(segments[0]) + Shown(show, segments[1..])
  }

  function ShownFrom<N>(m: Matcher, show: Segment -> seq<N>, s: string, i: nat): seq<N>
    requires i <= |s| && Bounded(m)
  {
    Shown(show, Segments(m, s, i))
  }

  function GapTo<N>(show: Segment -> seq<N>, s: string, i: nat, k: nat): seq<N>
    requires i <= k <= |s|
  {
    if i < k then show(Gap(s[i..k])) else []
  }

  // One turn of the loop: a gap up to the next match, and what follows.
  lemma ShownToNext<N>(m: Matcher, show: Segment -> seq<N>, s: string, i: nat)
    requires i <= |s| && Bounded(m)
    ensures var k := Next(m, s, i);
            ShownFrom(m, show, s, i) == GapTo(show, s, i, k) + ShownFrom(m, show, s, k)
  {
    var k := Next(m, s, i);
    if i < k {
      assert First(m, s, i) == Gap(s[i..k]);
      assert Segments(m, s, i)[1..] == Segments(m, s, k);
    }
  }

  lemma ShownMatch<N>(m: Matcher, show: Segment -> seq<N>, s: string, k: nat)
    requires k < |s| && Bounded(m) && m(s, k) > 0
    ensures ShownFrom(m, show, s, k) == show(Token(s[k..k + m(s, k)])) + ShownFrom(m, show, s, k + m(s, k))
  {
    assert Segments(m, s, k)[1..] == Segments(m, s, k + m(s, k));
  }

  // What the loop has collected up to position i.
  ghost predicate Collected<N>(m: Matcher, show: Segment -> seq<N>, s: string, i: nat, nodes: seq<N>)
    requires Bounded(m)
  {
    i <= |s| && nodes + ShownFrom(m, show, s, i) == ShownFrom(m, show, s, 0)
  }

  lemma CollectedGap<N>(m: Matcher, show: Segment -> seq<N>, s: string, i: nat, k: nat, nodes: seq<N>)
    requires Bounded(m) && Collected(m, show, s, i, nodes) && k == Next(m, s, i)
    ensures Collected(m, show, s, k, if i < k then nodes + show(Gap(s[i..k])) else nodes)
  {
    ShownToNext(m, show, s, i);
    var gap, rest := GapTo(show, s, i, k), ShownFrom(m, show, s, k);
    assert nodes + (gap + rest) == (nodes + gap) + rest;
    assert nodes + [] == nodes;
  }

  lemma CollectedToken<N>(m: Matcher, show: Segment -> seq<N>, s: string, k: nat, nodes: seq<N>)
    requires Bounded(m) && Collected(m, show, s, k, nodes) && k < |s| && m(s, k) > 0
    ensures Collected(m, show, s, k + m(s, k), nodes + show(Token(s[k..k + m(s, k)])))
  {
    ShownMatch(m, show, s, k);
    var token, rest := show(Token(s[k..k + m(s, k)])), ShownFrom(m, show, s, k + m(s, k));
    assert nodes + (token + rest) == (nodes + token) + rest;
  }

  lemma CollectedAll<N>(m: Matcher, show: Segment -> seq<N>, s: string, nodes: seq<N>)
    requires Bounded(m) && Collected(m, show, s, |s|, nodes)
    ensures nodes == ShownFrom(m, show, s, 0)
  {
    assert ShownFrom(m, show, s, |s|) == [];
  }

  lemma CollectedNothing<N>(m: Matcher, show: Segment -> seq<N>, s: string)
    requires Bounded(m)
    ensures Collected(m, show, s, 0, [])
  {}

  /** The scanning loop. */
  method Scan<N>(m: Matcher, show: Segment -> seq<N>, text: string) returns (nodes: seq<N>)
    requires Bounded(m)
    ensures nodes == Shown(show, Segments(m, text, 0))
  {
    nodes := [];
    var lastIndex := 0;
    var index := Next(m, text, 0);
    CollectedNothing(m, show, text);
    while index < |text|
      invariant lastIndex <= index <= |text| && index == Next(m, text, lastIndex)
      invariant Collected(m, show, text, lastIndex, nodes)
      decreases |text| - lastIndex
    {
      CollectedGap(m, show, text, lastIndex, index, nodes);
      if index > lastIndex {
        nodes := nodes + show(Gap(text[lastIndex..index]));
      }
      CollectedToken(m, show, text, index, nodes);
      var token := text[index..index + m(text, index)];
      nodes := nodes + show(Token(token));
      lastIndex := index + |token|;
      index := Next(m, text, lastIndex);
    }
    CollectedGap(m, show, text, lastIndex, index, nodes);
    if lastIndex < |text| {
      assert text[lastIndex..] == text[lastIndex..index];
      nodes := nodes + show(Gap(text[lastIndex..]));
    }
    CollectedAll(m, show, text, nodes);
  }
}
