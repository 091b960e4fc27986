/** The command palette's scorer, and the list of commands it leaves. */
module FuzzyScore {
  import opened Wrappers
  import opened LinePatterns
  import opened Sorting
  import opened Lists
  import MarkdownText

  // What the rest of a candidate adds to the score once a streak is running, if it completes the query.
  function Gain(query: string, candidate: string, streak: nat): (gain: Option<nat>)
    decreases |candidate|
  {
    if query == "" then Some(0)
    else if candidate == "" then None
    else if candidate[0] == query[0] then
      match Gain(query[1..], candidate[1..], streak + 1)
      case Some(gain) => Some(2 + (streak + 1) + gain)
      case None => None
    else Gain(query, candidate[1..], 0)
  }

  /** The score of a query and a candidate, both already in lower case. */
  function Score(query: string, candidate: string): nat {
    if query == "" then 1 else Gain(query, candidate, 0).GetOr(0)
  }

  // Increasing positions of the candidate that spell the query.
  ghost predicate Spells(query: string, candidate: string, positions: seq<nat>) {
    && |positions| == |query|
    && (forall i :: 0 <= i < |positions| ==> positions[i] < |candidate| && candidate[positions[i]] == query[i])
    && (forall i, j :: 0 <= i < j < |positions| ==> positions[i] < positions[j])
  }

  ghost predicate Subsequence(query: string, candidate: string) {
    exists positions :: Spells(query, candidate, positions)
  }

  function Shifted(positions: seq<nat>): seq<nat> {
    seq(|positions|, i requires 0 <= i < |positions| => positions[i] + 1)
  }

  lemma SpellsLater(query: string, candidate: string, positions: seq<nat>)
    requires candidate != "" && Spells(query, candidate[1..], positions)
    ensures Spells(query, candidate, Shifted(positions))
  {}

  lemma SpellsNow(query: string, candidate: string, positions: seq<nat>)
    requires candidate != "" && query != "" && candidate[0] == query[0] && Spells(query[1..], candidate[1..], positions)
    ensures Spells(query, candidate, [0] + Shifted(positions))
  {
    var all := [0] + Shifted(positions);
    forall i | 0 <= i < |all| ensures all[i] < |candidate| && candidate[all[i]] == query[i] {
      if i > 0 { assert candidate[1..][positions[i - 1]] == query[1..][i - 1]; }
    }
    forall i, j | 0 <= i < j < |all| ensures all[i] < all[j] {
      if i > 0 { assert positions[i - 1] < positions[j - 1]; }
    }
  }

  lemma {:induction false} GainIsSpelled(query: string, candidate: string, streak: nat)
    requires Gain(query, candidate, streak).Some?
    ensures Subsequence(query, candidate)
    decreases |candidate|
  {
    if query == "" {
      assert Spells(query, candidate, []);
    } else if candidate[0] == query[0] {
      GainIsSpelled(query[1..], candidate[1..], streak + 1);
      var positions :| Spells(query[1..], candidate[1..], positions);
      SpellsNow(query, candidate, positions);
    } else {
      GainIsSpelled(query, candidate[1..], 0);
      var positions :| Spells(query, candidate[1..], positions);
      SpellsLater(query, candidate, positions);
    }
  }

  // Whatever spelling there is, taking the first matching character instead loses nothing.
  lemma {:induction false} GreedyIsComplete(query: string, candidate: string, positions: seq<nat>, offset: nat, streak: nat)
    requires |positions| == |query|
    requires forall i :: 0 <= i < |positions| ==> offset <= positions[i] < offset + |candidate| && candidate[positions[i] - offset] == query[i]
    requires forall i, j :: 0 <= i < j < |positions| ==> positions[i] < positions[j]
    ensures Gain(query, candidate, streak).Some?
    decreases |candidate|
  {
    if query != "" {
      assert positions[0] < offset + |candidate|;
      if candidate[0] == query[0] {
        GreedyIsComplete(query[1..], candidate[1..], positions[1..], offset + 1, streak + 1);
      } else {
        GreedyIsComplete(query, candidate[1..], positions, offset + 1, 0);
      }
    }
  }

  /** A candidate scores exactly when the query is a subsequence of it. */
  lemma ScoresExactly(query: string, candidate: string)
    ensures Score(query, candidate) > 0 <==> Subsequence(query, candidate)
  {
    if query == "" {
      assert Spells(query, candidate, []);
    } else {
      if Gain(query, candidate, 0).Some? {
        GainIsSpelled(query, candidate, 0);
        GainBounds(query, candidate, 0);
      }
      if positions :| Spells(query, candidate, positions) {
        GreedyIsComplete(query, candidate, positions, 0, 0);
        GainBounds(query, candidate, 0);
      }
    }
  }

  function Triangle(n: nat): nat {
    n * (n + 1) / 2
  }

  // The most that n characters can add to a running streak.
  function Most(n: nat, streak: nat): nat {
    if n == 0 then 0 else 2 + (streak + 1) + Most(n - 1, streak + 1)
  }

  lemma {:induction false} MostGrows(n: nat, streak: nat, longer: nat)
    requires streak <= longer
    ensures Most(n, streak) <= Most(n, longer)
    ensures n > 0 && streak < longer ==> Most(n, streak) < Most(n, longer)
  {
    if n > 0 {
      MostGrows(n - 1, streak + 1, longer + 1);
    }
  }

  lemma {:induction false} MostIs(n: nat, streak: nat)
    ensures Most(n, streak) == 2 * n + n * streak + Triangle(n)
  {
    if n > 0 {
      MostIs(n - 1, streak + 1);
      assert n * (n + 1) == (n - 1) * n + 2 * n;
      assert n * streak == (n - 1) * streak + streak;
      assert (n - 1) * (streak + 1) == (n - 1) * streak + (n - 1);
    }
  }

  lemma {:induction false} GainBounds(query: string, candidate: string, streak: nat)
    requires Gain(query, candidate, streak).Some?
    ensures 3 * |query| <= Gain(query, candidate, streak).value <= Most(|query|, streak)
    decreases |candidate|
  {
    if query != "" {
      if candidate[0] == query[0] {
        GainBounds(query[1..], candidate[1..], streak + 1);
      } else {
        GainBounds(query, candidate[1..], 0);
        MostGrows(|query|, 0, streak);
      }
    }
  }

  /** A match of n characters scores between 3n and 2n + n(n+1)/2. */
  lemma ScoreBounds(query: string, candidate: string)
    requires query != "" && Score(query, candidate) > 0
    ensures var n := |query|; 3 * n <= Score(query, candidate) <= 2 * n + n * (n + 1) / 2
  {
    GainBounds(query, candidate, 0);
    MostIs(|query|, 0);
  }

  // ---------------------------------------------------------------- what the score counts

  // Each position is the first place of its character behind the position before it.
  ghost predicate FirstPlace(query: string, candidate: string, positions: seq<nat>, i: nat)
    requires Spells(query, candidate, positions) && i < |positions|
  {
    forall k :: (if i == 0 then 0 else positions[i - 1] + 1) <= k < positions[i] ==> candidate[k] != query[i]
  }

  ghost predicate Earliest(query: string, candidate: string, positions: seq<nat>) {
    Spells(query, candidate, positions) && forall i :: 0 <= i < |positions| ==> FirstPlace(query, candidate, positions, i)
  }

  // For each position the length of the run of adjacent positions that ends there, together; a run of `length`
  // ends in front of `next`.
  ghost function Runs(positions: seq<nat>, next: nat, length: nat): nat {
    if positions == [] then 0
    else
      var run := if positions[0] == next then length + 1 else 1;
      run + Runs(positions[1..], positions[0] + 1, run)
  }

  lemma {:induction false} ShiftedRuns(positions: seq<nat>, next: nat, length: nat)
    ensures Runs(Shifted(positions), next + 1, length) == Runs(positions, next, length)
  {
    if positions != [] {
      var run := if positions[0] == next then length + 1 else 1;
      assert Shifted(positions)[1..] == Shifted(positions[1..]);
      ShiftedRuns(positions[1..], positions[0] + 1, run);
    }
  }

  lemma RunsRestart(positions: seq<nat>, length: nat)
    ensures Runs(Shifted(positions), 0, length) == Runs(positions, 0, 0)
  {
    if positions != [] {
      assert Shifted(positions)[1..] == Shifted(positions[1..]);
      ShiftedRuns(positions[1..], positions[0] + 1, 1);
    }
  }

  lemma RunsContinue(positions: seq<nat>, length: nat)
    ensures Runs([0] + Shifted(positions), 0, length) == length + 1 + Runs(positions, 0, length + 1)
  {
    assert ([0] + Shifted(positions))[1..] == Shifted(positions);
    ShiftedRuns(positions, 0, length + 1);
  }

  lemma EarliestLater(query: string, candidate: string, positions: seq<nat>)
    requires candidate != "" && Earliest(query, candidate[1..], positions) && (query != "" ==> candidate[0] != query[0])
    ensures Earliest(query, candidate, Shifted(positions))
  {
    SpellsLater(query, candidate, positions);
    var shifted := Shifted(positions);
    forall i | 0 <= i < |shifted| ensures FirstPlace(query, candidate, shifted, i) {
      assert FirstPlace(query, candidate[1..], positions, i);
      forall k | (if i == 0 then 0 else shifted[i - 1] + 1) <= k < shifted[i] ensures candidate[k] != query[i] {
        if k > 0 { assert candidate[1..][k - 1] == candidate[k]; }
      }
    }
  }

  lemma EarliestNow(query: string, candidate: string, positions: seq<nat>)
    requires candidate != "" && query != "" && candidate[0] == query[0] && Earliest(query[1..], candidate[1..], positions)
    ensures Earliest(query, candidate, [0] + Shifted(positions))
  {
    SpellsNow(query, candidate, positions);
    var all := [0] + Shifted(positions);
    forall i | 0 <= i < |all| ensures FirstPlace(query, candidate, all, i) {
      if i > 0 {
        assert FirstPlace(query[1..], candidate[1..], positions, i - 1);
        forall k | all[i - 1] + 1 <= k < all[i] ensures candidate[k] != query[i] {
          assert candidate[1..][k - 1] == candidate[k] && query[1..][i - 1] == query[i];
        }
      }
    }
  }

  lemma {:induction false} GainIsRuns(query: string, candidate: string, streak: nat) returns (positions: seq<nat>)
    requires Gain(query, candidate, streak).Some?
    ensures Earliest(query, candidate, positions)
    ensures Gain(query, candidate, streak).value == 2 * |query| + Runs(positions, 0, streak)
    decreases |candidate|
  {
    if query == "" {
      positions := [];
    } else if candidate[0] == query[0] {
      var rest := GainIsRuns(query[1..], candidate[1..], streak + 1);
      EarliestNow(query, candidate, rest);
      RunsContinue(rest, streak);
      positions := [0] + Shifted(rest);
    } else {
      var rest := GainIsRuns(query, candidate[1..], 0);
      EarliestLater(query, candidate, rest);
      RunsRestart(rest, streak);
      positions := Shifted(rest);
    }
  }

  lemma EarliestAgree(query: string, candidate: string, a: seq<nat>, b: seq<nat>, i: nat)
    requires Earliest(query, candidate, a) && Earliest(query, candidate, b) && i < |query|
    requires forall k :: 0 <= k < i ==> a[k] == b[k]
    ensures a[i] == b[i]
  {
    assert FirstPlace(query, candidate, a, i) && FirstPlace(query, candidate, b, i);
    if i > 0 { assert a[i - 1] < a[i] && b[i - 1] < b[i]; }
  }

  lemma {:induction false} EarliestIsUnique(query: string, candidate: string, a: seq<nat>, b: seq<nat>, n: nat)
    requires Earliest(query, candidate, a) && Earliest(query, candidate, b) && n <= |query|
    ensures forall k :: 0 <= k < n ==> a[k] == b[k]
  {
    if n > 0 {
      EarliestIsUnique(query, candidate, a, b, n - 1);
      EarliestAgree(query, candidate, a, b, n - 1);
    }
  }

  /** Every candidate scores 1 for an empty query. */
  lemma EmptyQueryScores(candidate: string)
    ensures Score("", candidate) == 1
  {}

  /** The score of a match: two for each character, and the lengths of the runs that end at the earliest places of the characters. A mismatch ends a run. */
  lemma ScoreCountsRuns(query: string, candidate: string, positions: seq<nat>)
    requires query != "" && Earliest(query, candidate, positions)
    ensures Score(query, candidate) == 2 * |query| + Runs(positions, 0, 0)
  {
    GreedyIsComplete(query, candidate, positions, 0, 0);
    var found := GainIsRuns(query, candidate, 0);
    EarliestIsUnique(query, candidate, found, positions, |query|);
    assert found == positions;
  }

  predicate StartsWith(candidate: string, query: string) {
    |query| <= |candidate| && candidate[..|query|] == query
  }

  lemma StartsWithFirst(candidate: string, query: string)
    requires query != ""
    ensures StartsWith(candidate, query) ==> candidate != "" && candidate[0] == query[0]
  {
    if StartsWith(candidate, query) {
      assert candidate[..|query|][0] == query[0];
    }
  }

  lemma StartsWithTail(candidate: string, query: string)
    requires query != "" && candidate != "" && candidate[0] == query[0]
    ensures StartsWith(candidate, query) <==> StartsWith(candidate[1..], query[1..])
  {
    if StartsWith(candidate[1..], query[1..]) {
      assert candidate[..|query|] == [candidate[0]] + candidate[1..][..|query| - 1];
      assert query == [query[0]] + query[1..];
    }
    if StartsWith(candidate, query) {
      assert candidate[1..][..|query| - 1] == candidate[..|query|][1..];
    }
  }

  lemma {:induction false} MostWhenRunning(query: string, candidate: string, streak: nat)
    requires query != "" && streak > 0
    ensures Gain(query, candidate, streak) == Some(Most(|query|, streak)) <==> StartsWith(candidate, query)
    decreases |candidate|
  {
    if candidate != "" {
      if candidate[0] == query[0] {
        StartsWithTail(candidate, query);
        if |query| > 1 {
          MostWhenRunning(query[1..], candidate[1..], streak + 1);
        }
      } else {
        StartsWithFirst(candidate, query);
        if Gain(query, candidate[1..], 0).Some? {
          GainBounds(query, candidate[1..], 0);
          MostGrows(|query|, 0, streak);
        }
      }
    }
  }

  // The candidate from the first occurrence of a character on.
  function From(c: char, candidate: string): string {
    if candidate == "" || candidate[0] == c then candidate else From(c, candidate[1..])
  }

  lemma {:induction false} MostFromTheFirst(query: string, candidate: string)
    requires query != ""
    ensures Gain(query, candidate, 0) == Some(Most(|query|, 0)) <==> StartsWith(From(query[0], candidate), query)
    decreases |candidate|
  {
    if candidate != "" {
      if candidate[0] != query[0] {
        MostFromTheFirst(query, candidate[1..]);
      } else {
        StartsWithTail(candidate, query);
        if |query| > 1 {
          MostWhenRunning(query[1..], candidate[1..], 1);
        }
      }
    }
  }

  /** The best score goes exactly to candidates in which the query stands in one piece from the first occurrence of its first character on. */
  lemma BestScoreExactly(query: string, candidate: string)
    requires query != ""
    ensures var n := |query|;
            Score(query, candidate) == 2 * n + n * (n + 1) / 2 <==> StartsWith(From(query[0], candidate), query)
  {
    MostIs(|query|, 0);
    MostFromTheFirst(query, candidate);
  }

  lemma {:induction false} GainKeeps(query: string, candidate: string, more: string, streak: nat)
    requires Gain(query, candidate, streak).Some?
    ensures Gain(query, candidate + more, streak) == Gain(query, candidate, streak)
    decreases |candidate|
  {
    if query != "" {
      assert (candidate + more)[1..] == candidate[1..] + more;
      if candidate[0] == query[0] {
        GainKeeps(query[1..], candidate[1..], more, streak + 1);
      } else {
        GainKeeps(query, candidate[1..], more, 0);
      }
    }
  }

  /** Text appended to a candidate that already scores does not change its score. */
  lemma AppendingKeepsScore(query: string, candidate: string, more: string)
    requires Score(query, candidate) > 0
    ensures Score(query, candidate + more) == Score(query, candidate)
  {
    if query != "" {
      GainKeeps(query, candidate, more, 0);
    }
  }

  // `toLowerCase` is a parameter.
  function FullScore(lower: string -> string, query: string, candidate: string): nat {
    Score(lower(Trim(MarkdownText.SPACE, query)), lower(candidate))
  }

  method Fuzzy(lower: string -> string, query: string, candidate: string) returns (result: nat)
    ensures result == FullScore(lower, query, candidate)
  {
    var normalizedQuery := lower(Trim(MarkdownText.SPACE, query));
    var normalizedCandidate := lower(candidate);
    result := ScoreLoop(normalizedQuery, normalizedCandidate);
  }

  method ScoreLoop(query: string, candidate: string) returns (result: nat)
    ensures result == Score(query, candidate)
  {
    if query == "" {
      return 1;
    }
    var queryIndex, score, streak := 0, 0, 0;
    var index := 0;
    while index < |candidate| && queryIndex < |query|
      invariant index <= |candidate| && queryIndex <= |query|
      invariant Gain(query, candidate, 0) ==
        match Gain(query[queryIndex..], candidate[index..], streak)
        case Some(gain) => Some(score + gain)
        case None => None
    {
      assert candidate[index..][1..] == candidate[index + 1..] && query[queryIndex..][1..] == query[queryIndex + 1..];
      if candidate[index] == query[queryIndex] {
        streak := streak + 1;
        score := score + 2 + streak;
        queryIndex := queryIndex + 1;
      } else {
        streak := 0;
      }
      index := index + 1;
    }
    result := if queryIndex == |query| then score else 0;
  }

  // A command and the text it is searched by.
  datatype Command = Command(id: string, text: string)

  function ByScore(score: Command -> nat): Comparator<Command> {
    (a: Command, b: Command) => score(b) as int - score(a) as int
  }

  function Listed(score: Command -> nat, commands: seq<Command>): seq<Command> {
    Sort(ByScore(score), Filter((c: Command) => score(c) > 0, commands))
  }

  lemma ByScoreIsOrder(score: Command -> nat)
    ensures IsOrder(ByScore(score))
  {}

  function ScoreOf(lower: string -> string, query: string): Command -> nat {
    (c: Command) => FullScore(lower, query, c.text)
  }

  /** Commands with equal scores stay in the order of the palette. */
  lemma EqualScoresKeepOrder(score: Command -> nat, commands: seq<Command>, a: Command, b: Command)
    requires Distinct(commands) && a in commands && b in commands && a != b && score(a) == score(b) > 0
    ensures StandsBefore(Listed(score, commands), a, b) <==> StandsBefore(commands, a, b)
  {
    var shown := (c: Command) => score(c) > 0;
    var found := Filter(shown, commands);
    FilterElements(shown, commands);
    FilterIsDistinct(shown, commands);
    FilterKeepsOrder(shown, commands, a, b);
    ByScoreIsOrder(score);
    SortIsStable(ByScore(score), found, a, b);
  }

  /** The palette lists exactly the commands whose text the query is a subsequence of, the higher scores first. */
  lemma PaletteListsMatches(lower: string -> string, query: string, commands: seq<Command>)
    ensures var score := ScoreOf(lower, query);
            var listed := Listed(score, commands);
            && (forall c :: c in listed <==> c in commands && Subsequence(lower(Trim(MarkdownText.SPACE, query)), lower(c.text)))
            && (forall i, j :: 0 <= i < j < |listed| ==> score(listed[i]) >= score(listed[j]))
  {
    var score := ScoreOf(lower, query);
    var shown := (c: Command) => score(c) > 0;
    var found := Filter(shown, commands);
    FilterElements(shown, commands);
    SortedElements(ByScore(score), found);
    ByScoreIsOrder(score);
    SortSorts(ByScore(score), found);
    forall c: Command ensures score(c) > 0 <==> Subsequence(lower(Trim(MarkdownText.SPACE, query)), lower(c.text)) {
      ScoresExactly(lower(Trim(MarkdownText.SPACE, query)), lower(c.text));
    }
    forall i, j | 0 <= i < j < |Listed(score, commands)| ensures score(Listed(score, commands)[i]) >= score(Listed(score, commands)[j]) {
      assert ByScore(score)(Listed(score, commands)[i], Listed(score, commands)[j]) <= 0;
    }
  }

  // The commands that the palette shows for a query.
  method FilteredCommands(lower: string -> string, query: string, commands: seq<Command>) returns (listed: seq<Command>)
    ensures listed == Listed(ScoreOf(lower, query), commands)
  {
    var score := ScoreOf(lower, query);
    ghost var scores := (c: Command) => score(c) > 0;
    var found: seq<Command> := [];
    for i := 0 to |commands|
      invariant found == Filter(scores, commands[..i])
    {
      FilterSnoc(scores, commands, i);
      var result := Fuzzy(lower, query, commands[i].text);
      if result > 0 {
        found := found + [commands[i]];
      }
    }
    assert commands[..|commands|] == commands;
    listed := Sort(ByScore(score), found);
  }
}
