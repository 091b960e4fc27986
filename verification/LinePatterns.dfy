/**
 * The two line patterns of the Markdown reader.
 *
 * They are stated over any notion of white space, of the characters that `.` matches and of
 * the characters of a language tag. Each is written twice, as a reader that computes and as
 * the set of splits of the line that the regular expression allows, of which a greedy
 * quantifier takes the last; the two are proved equal.
 */
module LinePatterns {
  import opened Wrappers

  type Class = char -> bool

  predicate All(p: Class, s: string) {
    forall i :: 0 <= i < |s| ==> p(s[i])
  }

  function Skip(p: Class, s: string): (r: string)
    ensures r == "" || !p(r[0])
    ensures |r| <= |s| && r == s[|s| - |r|..]
    ensures All(p, s[..|s| - |r|])
  {
    if s != "" && p(s[0]) then Skip(p, s[1..]) else s
  }

  function Drop(p: Class, s: string): (r: string)
    ensures r == "" || !p(r[|r| - 1])
    ensures |r| <= |s| && r == s[..|r|]
    ensures All(p, s[|r|..])
  {
    if s == "" || !p(s[|s| - 1]) then s
    else
      var r := Drop(p, s[..|s| - 1]);
      assert s[|r|..] == s[..|s| - 1][|r|..] + [s[|s| - 1]];
      r
  }

  lemma AllTail(p: Class, s: string)
    requires s != "" && All(p, s)
    ensures p(s[0]) && All(p, s[1..])
  {}

  lemma {:induction false} SkipReaches(p: Class, s: string, k: nat)
    requires k <= |s| && All(p, s[..k])
    ensures Skip(p, s) == Skip(p, s[k..])
  {
    if k == 0 {
      assert s[0..] == s;
    } else {
      AllTail(p, s[..k]);
      assert Skip(p, s) == Skip(p, s[1..]);
      assert s[1..][..k - 1] == s[..k][1..];
      SkipReaches(p, s[1..], k - 1);
      assert s[1..][k - 1..] == s[k..];
    }
  }

  predicate IsMarker(c: char) {
    c == '-' || c == '*'
  }

  /** The list pattern: leading space, a dash or star, at least one space, and a non-empty item. */
  function FindItem(space: Class, dot: Class, line: string): (item: Option<string>) {
    var body := Skip(space, line);
    if body == "" || !IsMarker(body[0]) then None
    else AfterMarker(space, dot, body[1..])
  }

  // `\s+` takes all the space it can, and gives one character back only when it has taken everything.
  function AfterMarker(space: Class, dot: Class, gap: string): (item: Option<string>) {
    var rest := Skip(space, gap);
    if |rest| == |gap| then None
    else if rest != "" then if All(dot, rest) then Some(rest) else None
    else if |gap| >= 2 && dot(gap[|gap| - 1]) then Some(gap[|gap| - 1..])
    else None
  }

  // A way to split what follows the marker: space up to m, the item from there on.
  ghost predicate GapSplit(space: Class, dot: Class, gap: string, m: nat) {
    0 < m < |gap| && All(space, gap[..m]) && All(dot, gap[m..])
  }

  // A way to match the list pattern: the marker at a, the item m characters behind it.
  ghost predicate ListSplit(space: Class, dot: Class, line: string, a: nat, m: nat) {
    a < |line| && All(space, line[..a]) && IsMarker(line[a]) && GapSplit(space, dot, line[a + 1..], m)
  }

  // The match that a greedy `\s+` finds: no later split works.
  ghost predicate Greedy(space: Class, dot: Class, line: string, a: nat, m: nat, item: string) {
    && ListSplit(space, dot, line, a, m) && item == line[a + 1..][m..]
    && forall c: nat :: m < c ==> !ListSplit(space, dot, line, a, c)
  }

  ghost predicate MarkersAreNoSpace(space: Class) {
    forall c :: IsMarker(c) ==> !space(c)
  }

  lemma MarkerIsFirst(space: Class, dot: Class, line: string, a: nat, m: nat)
    requires MarkersAreNoSpace(space) && ListSplit(space, dot, line, a, m)
    ensures Skip(space, line) == line[a..] && Skip(space, line)[1..] == line[a + 1..]
  {
    SkipReaches(space, line, a);
  }

  lemma LastOfTail(p: Class, s: string, n: nat)
    requires n < |s| && All(p, s[n..])
    ensures p(s[|s| - 1])
  {
    assert s[n..][|s| - 1 - n] == s[|s| - 1];
  }

  lemma SkippedStays(p: Class, q: Class, s: string)
    requires All(q, s)
    ensures All(q, Skip(p, s))
  {}

  lemma GapSplitIsFound(space: Class, dot: Class, gap: string, m: nat)
    requires GapSplit(space, dot, gap, m)
    ensures AfterMarker(space, dot, gap).Some?
  {
    SkipReaches(space, gap, m);
    SkippedStays(space, dot, gap[m..]);
    LastOfTail(dot, gap, m);
  }

  // Where the reader cuts what follows the marker.
  function Cut(space: Class, gap: string): int {
    var rest := Skip(space, gap);
    if rest != "" then |gap| - |rest| else |gap| - 1
  }

  lemma FoundIsGapSplit(space: Class, dot: Class, gap: string)
    requires AfterMarker(space, dot, gap).Some?
    ensures var m := Cut(space, gap);
            && GapSplit(space, dot, gap, m) && AfterMarker(space, dot, gap).value == gap[m..]
            && (m == |gap| - 1 || !space(gap[m]))
  {
    var rest := Skip(space, gap);
    var m := Cut(space, gap);
    if rest == "" {
      assert gap[..|gap| - |rest|][..m] == gap[..m];
      assert gap[..|gap|] == gap;
    }
  }

  lemma LastSplitIsGreedy(space: Class, dot: Class, line: string, a: nat, m: nat)
    requires ListSplit(space, dot, line, a, m)
    requires var gap := line[a + 1..]; m == |gap| - 1 || !space(gap[m])
    ensures Greedy(space, dot, line, a, m, line[a + 1..][m..])
  {
    var gap := line[a + 1..];
    forall c: nat | m < c ensures !ListSplit(space, dot, line, a, c) {
      if c < |gap| {
        assert gap[..c][m] == gap[m];
      }
    }
  }

  lemma GreedySplitsAgree(space: Class, dot: Class, line: string, a: nat, m: nat, x: string, a': nat, m': nat, x': string)
    requires MarkersAreNoSpace(space)
    requires Greedy(space, dot, line, a, m, x) && Greedy(space, dot, line, a', m', x')
    ensures a == a' && m == m' && x == x'
  {
    MarkerIsFirst(space, dot, line, a, m);
    MarkerIsFirst(space, dot, line, a', m');
  }

  lemma SplitIsFound(space: Class, dot: Class, line: string, a: nat, m: nat)
    requires MarkersAreNoSpace(space) && ListSplit(space, dot, line, a, m)
    ensures FindItem(space, dot, line).Some?
  {
    MarkerIsFirst(space, dot, line, a, m);
    GapSplitIsFound(space, dot, line[a + 1..], m);
  }

  lemma FoundIsGreedy(space: Class, dot: Class, line: string) returns (a: nat, m: nat)
    requires FindItem(space, dot, line).Some?
    ensures Greedy(space, dot, line, a, m, FindItem(space, dot, line).value)
    ensures m == |line[a + 1..]| - 1 || !space(line[a + 1..][m])
  {
    var body := Skip(space, line);
    a := |line| - |body|;
    assert body[1..] == line[a + 1..];
    FoundIsGapSplit(space, dot, body[1..]);
    m := Cut(space, body[1..]);
    LastSplitIsGreedy(space, dot, line, a, m);
  }

  /** The reader returns exactly the item of the pattern's greedy match, and fails exactly when nothing matches. */
  lemma FindItemIsItsPattern(space: Class, dot: Class, line: string, item: string)
    requires MarkersAreNoSpace(space)
    ensures FindItem(space, dot, line) == Some(item) <==> exists a: nat, m: nat :: Greedy(space, dot, line, a, m, item)
    ensures FindItem(space, dot, line) == None <==> !exists a: nat, m: nat :: ListSplit(space, dot, line, a, m)
  {
    if a': nat, m': nat :| ListSplit(space, dot, line, a', m') {
      SplitIsFound(space, dot, line, a', m');
    }
    if FindItem(space, dot, line).Some? {
      var a, m := FoundIsGreedy(space, dot, line);
      if a': nat, m': nat :| Greedy(space, dot, line, a', m', item) {
        GreedySplitsAgree(space, dot, line, a, m, FindItem(space, dot, line).value, a', m', item);
      }
    }
  }

  function Trim(space: Class, s: string): string {
    Drop(space, Skip(space, s))
  }

  const FENCE := "```"

  /** The fence pattern on a trimmed line: three backticks, then an optional tag. */
  function FenceTag(space: Class, tag: Class, line: string): (language: Option<string>) {
    var t := Trim(space, line);
    if |t| >= 3 && t[..3] == FENCE && All(tag, t[3..]) then Some(t[3..]) else None
  }

  // The split of a trimmed line that the fence pattern asks for: a tag up to n, then only white space.
  ghost predicate FenceSplit(space: Class, tag: Class, t: string, n: nat) {
    3 <= n <= |t| && t[..3] == FENCE && All(tag, t[3..n]) && All(space, t[n..])
  }

  // On a trimmed line the trailing `\s*` of the pattern matches nothing.
  lemma TrailingSpaceIsEmpty(space: Class, tag: Class, line: string, n: nat)
    requires FenceSplit(space, tag, Trim(space, line), n)
    ensures n == |Trim(space, line)|
  {
    if n < |Trim(space, line)| {
      LastOfTail(space, Trim(space, line), n);
    }
  }

  lemma FenceTagIsItsPattern(space: Class, tag: Class, line: string, language: string)
    ensures var t := Trim(space, line);
            FenceTag(space, tag, line) == Some(language) <==>
              exists n: nat :: FenceSplit(space, tag, t, n) && language == t[3..n]
  {
    var t := Trim(space, line);
    if FenceTag(space, tag, line).Some? {
      assert t[3..|t|] == t[3..];
      assert FenceSplit(space, tag, t, |t|);
    }
    if n: nat :| FenceSplit(space, tag, t, n) && language == t[3..n] {
      TrailingSpaceIsEmpty(space, tag, line, n);
      assert t[3..n] == t[3..];
    }
  }

  // The items a list can hold.
  ghost predicate Readable(space: Class, dot: Class, item: string) {
    item != "" && All(dot, item) && (space(item[0]) ==> |item| == 1)
  }

  lemma PrintedItem(space: Class, dot: Class, item: string)
    requires MarkersAreNoSpace(space) && space(' ') && Readable(space, dot, item)
    ensures FindItem(space, dot, "- " + item) == Some(item)
  {
    var line := "- " + item;
    var gap := line[1..];
    assert gap[1..] == item;
    assert gap[..1] == " ";
    assert ListSplit(space, dot, line, 0, 1);
    LastSplitIsGreedy(space, dot, line, 0, 1);
    FindItemIsItsPattern(space, dot, line, item);
  }

  /** An item can come out of the reader exactly when it is one that printing brings back. */
  lemma ItemsAreTheReadable(space: Class, dot: Class, item: string)
    requires MarkersAreNoSpace(space) && space(' ')
    ensures Readable(space, dot, item) <==> exists line :: FindItem(space, dot, line) == Some(item)
  {
    if Readable(space, dot, item) {
      PrintedItem(space, dot, item);
    }
    if line :| FindItem(space, dot, line) == Some(item) {
      var a, m := FoundIsGreedy(space, dot, line);
    }
  }

  lemma {:induction false} DropKeepsFirst(p: Class, s: string)
    requires s != "" && !p(s[0])
    ensures Drop(p, s) != ""
  {
    if p(s[|s| - 1]) {
      DropKeepsFirst(p, s[..|s| - 1]);
    }
  }

  lemma OnlyBackticksOpenFences(space: Class, tag: Class, line: string)
    requires line != "" && !space(line[0]) && line[0] != '`'
    ensures FenceTag(space, tag, line) == None
  {
    DropKeepsFirst(space, line);
    var t := Trim(space, line);
    assert |t| >= 3 ==> t[..3][0] == line[0];
  }

  lemma PrintedFence(space: Class, tag: Class, language: string)
    requires !space('`') && (forall c :: tag(c) ==> !space(c)) && All(tag, language)
    ensures FenceTag(space, tag, FENCE + language) == Some(language)
  {
    var line := FENCE + language;
    assert line[3..] == language;
    assert language != "" ==> line[|line| - 1] == language[|language| - 1];
    assert Trim(space, line) == line;
  }
}
