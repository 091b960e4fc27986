/**
 * Regular expressions as a backtracking matcher reads them.
 *
 * `Ends` lists where the matches of an expression from a position end, in the order in which a
 * matcher tries them: the left alternative first, and one more repetition before one less. The
 * match it settles on is the first of the list.
 *
 * A repetition that consumes nothing is given up, as section 22.2.2.3.1 of ECMA-262 demands,
 * so the list is finite.
 */
module RegularExpressions {
  import opened Wrappers
  import opened LinePatterns

  datatype Regex =
    | Empty
    | Char(p: Class)
    | WordBound // `\b`
    | Then(first: Regex, second: Regex)
    | Or(left: Regex, right: Regex)
    | Star(body: Regex)

  // `\d`
  predicate IsDigit(c: char) {
    '0' <= c <= '9'
  }

  // `\w`
  predicate IsWord(c: char) {
    'a' <= c <= 'z' || 'A' <= c <= 'Z' || IsDigit(c) || c == '_'
  }

  predicate Boundary(s: string, i: nat)
    requires i <= |s|
  {
    (i > 0 && IsWord(s[i - 1])) != (i < |s| && IsWord(s[i]))
  }

  ghost predicate Within(ends: seq<nat>, i: nat, n: nat) {
    forall j :: 0 <= j < |ends| ==> i <= ends[j] <= n
  }

  function Ends(r: Regex, s: string, i: nat): (ends: seq<nat>)
    requires i <= |s|
    ensures Within(ends, i, |s|)
    decreases |s| - i, r, 0
  {
    match r
    case Empty => [i]
    case Char(p) => if i < |s| && p(s[i]) then [i + 1] else []
    case WordBound => if Boundary(s, i) then [i] else []
    case Then(a, b) => After(b, s, i, Ends(a, s, i))
    case Or(a, b) => Ends(a, s, i) + Ends(b, s, i)
    case Star(a) =>
      var further := Beyond(i, Ends(a, s, i), |s|);
      (if i < |s| then After(r, s, i + 1, further) else []) + [i]
  }

  function Beyond(i: nat, ends: seq<nat>, n: nat): (r: seq<nat>)
    ensures Within(ends, i, n) ==> Within(r, i + 1, n)
  {
    if ends == [] then [] else (if ends[0] > i then [ends[0]] else []) + Beyond(i, ends[1..], n)
  }

  // Goes on with r at each of the given ends in turn.
  function After(r: Regex, s: string, i: nat, starts: seq<nat>): (ends: seq<nat>)
    requires i <= |s| && Within(starts, i, |s|)
    ensures Within(ends, i, |s|)
    decreases |s| - i, r, |starts| + 1
  {
    if starts == [] then [] else Ends(r, s, starts[0]) + After(r, s, i, starts[1..])
  }

  function First(ends: seq<nat>): Option<nat> {
    if ends == [] then None else Some(ends[0])
  }

  function Match(r: Regex, s: string, i: nat): (end: Option<nat>)
    requires i <= |s|
    ensures end.Some? ==> i <= end.value <= |s|
  {
    First(Ends(r, s, i))
  }

  lemma MatchOr(a: Regex, b: Regex, s: string, i: nat)
    requires i <= |s|
    ensures Match(Or(a, b), s, i) == if Match(a, s, i).Some? then Match(a, s, i) else Match(b, s, i)
  {}

  lemma {:induction false} AfterAppend(r: Regex, s: string, i: nat, xs: seq<nat>, ys: seq<nat>)
    requires i <= |s| && Within(xs, i, |s|) && Within(ys, i, |s|) && Within(xs + ys, i, |s|)
    ensures After(r, s, i, xs + ys) == After(r, s, i, xs) + After(r, s, i, ys)
    decreases |xs|
  {
    if xs == [] {
      assert xs + ys == ys;
    } else {
      assert (xs + ys)[1..] == xs[1..] + ys;
      AfterAppend(r, s, i, xs[1..], ys);
    }
  }

  lemma AfterOne(r: Regex, s: string, i: nat, e: nat)
    requires i <= e <= |s|
    ensures After(r, s, i, [e]) == Ends(r, s, e)
  {
    assert [e][1..] == [];
    assert After(r, s, i, [e]) == Ends(r, s, e) + After(r, s, i, []);
  }

  lemma {:induction false} AfterFrom(r: Regex, s: string, i: nat, j: nat, starts: seq<nat>)
    requires i <= j <= |s| && Within(starts, i, |s|) && Within(starts, j, |s|)
    ensures After(r, s, i, starts) == After(r, s, j, starts)
    decreases |starts|
  {
    if starts != [] {
      AfterFrom(r, s, i, j, starts[1..]);
    }
  }

  lemma {:induction false} AfterAfter(b: Regex, c: Regex, s: string, i: nat, starts: seq<nat>)
    requires i <= |s| && Within(starts, i, |s|)
    ensures After(c, s, i, After(b, s, i, starts)) == After(Then(b, c), s, i, starts)
    decreases |starts|
  {
    if starts != [] {
      var e := starts[0];
      AfterAppend(c, s, i, Ends(b, s, e), After(b, s, i, starts[1..]));
      AfterAfter(b, c, s, i, starts[1..]);
      AfterFrom(c, s, i, e, Ends(b, s, e));
    }
  }

  lemma ThenIsAssociative(a: Regex, b: Regex, c: Regex, s: string, i: nat)
    requires i <= |s|
    ensures Ends(Then(Then(a, b), c), s, i) == Ends(Then(a, Then(b, c)), s, i)
  {
    AfterAfter(b, c, s, i, Ends(a, s, i));
  }

  lemma OrThen(a: Regex, b: Regex, c: Regex, s: string, i: nat)
    requires i <= |s|
    ensures Ends(Then(Or(a, b), c), s, i) == Ends(Then(a, c), s, i) + Ends(Then(b, c), s, i)
  {
    AfterAppend(c, s, i, Ends(a, s, i), Ends(b, s, i));
  }

  // An expression that can end in one place only.
  lemma OnceThen(a: Regex, b: Regex, s: string, i: nat)
    requires i <= |s| && |Ends(a, s, i)| <= 1
    ensures Ends(Then(a, b), s, i) == if Ends(a, s, i) == [] then [] else Ends(b, s, Ends(a, s, i)[0])
  {
    var ends := Ends(a, s, i);
    if ends != [] {
      assert ends == [ends[0]];
      AfterOne(b, s, i, ends[0]);
    }
  }

  // An end, where 0 stands for none.
  function Optionally(k: nat): seq<nat> {
    if k == 0 then [] else [k]
  }

  lemma OptionallyThen(a: Regex, b: Regex, s: string, i: nat, k: nat)
    requires i <= |s| && Ends(a, s, i) == Optionally(k)
    ensures k <= |s|
    ensures Ends(Then(a, b), s, i) == if k == 0 then [] else Ends(b, s, k)
  {
    OnceThen(a, b, s, i);
  }

  lemma StarThenOptionally(a: Regex, b: Regex, s: string, i: nat, k: nat)
    requires i <= |s| && Ends(a, s, i) == Optionally(k) && (k == 0 || i < k <= |s|)
    ensures Ends(Then(Star(a), b), s, i) == (if k == 0 then [] else Ends(Then(Star(a), b), s, k)) + Ends(b, s, i)
  {
    StarThen(a, b, s, i);
  }

  lemma CharThen(p: Class, b: Regex, s: string, i: nat)
    requires i <= |s|
    ensures Ends(Then(Char(p), b), s, i) == if i < |s| && p(s[i]) then Ends(b, s, i + 1) else []
  {
    OnceThen(Char(p), b, s, i);
  }

  lemma BeyondOne(i: nat, e: nat, n: nat)
    requires i < e
    ensures Beyond(i, [e], n) == [e]
  {
    assert [e][1..] == [];
    assert Beyond(i, [], n) == [];
  }

  lemma StarUnfolds(a: Regex, s: string, i: nat)
    requires i < |s|
    ensures Ends(Star(a), s, i) == After(Star(a), s, i + 1, Beyond(i, Ends(a, s, i), |s|)) + [i]
  {}

  lemma AtOnce(a: Regex, s: string, i: nat, e: nat)
    requires i < e <= |s| && Ends(a, s, i) == [e]
    ensures Ends(Star(a), s, i) == Ends(Star(a), s, e) + [i]
  {
    StarUnfolds(a, s, i);
    BeyondOne(i, e, |s|);
    AfterOne(Star(a), s, i + 1, e);
  }

  lemma EarlierThen(a: Regex, b: Regex, s: string, i: nat, e: nat)
    requires i <= e <= |s| && Ends(a, s, i) == Ends(a, s, e) + [i]
    ensures Ends(Then(a, b), s, i) == Ends(Then(a, b), s, e) + Ends(b, s, i)
  {
    AfterAppend(b, s, i, Ends(a, s, e), [i]);
    AfterFrom(b, s, i, e, Ends(a, s, e));
    AfterOne(b, s, i, i);
  }

  lemma StarStops(a: Regex, s: string, i: nat)
    requires i <= |s| && Ends(a, s, i) == []
    ensures Ends(Star(a), s, i) == [i]
  {
    assert Beyond(i, [], |s|) == [];
  }

  // A repetition whose body can end in one place only: once more, or not at all.
  lemma StarThen(a: Regex, b: Regex, s: string, i: nat)
    requires i <= |s| && |Ends(a, s, i)| <= 1 && (Ends(a, s, i) != [] ==> Ends(a, s, i)[0] > i)
    ensures Ends(Then(Star(a), b), s, i) ==
            (if Ends(a, s, i) == [] then [] else Ends(Then(Star(a), b), s, Ends(a, s, i)[0])) + Ends(b, s, i)
  {
    var ends := Ends(a, s, i);
    if ends == [] {
      StarStops(a, s, i);
      OnceThen(Star(a), b, s, i);
    } else {
      assert ends == [ends[0]];
      AtOnce(a, s, i, ends[0]);
      EarlierThen(Star(a), b, s, i, ends[0]);
    }
  }

  // The end of the longest run of a class from i on.
  function RunEnd(p: Class, s: string, i: nat): (k: nat)
    requires i <= |s|
    ensures i <= k <= |s| && (forall j :: i <= j < k ==> p(s[j])) && (k < |s| ==> !p(s[k]))
    decreases |s| - i
  {
    if i < |s| && p(s[i]) then RunEnd(p, s, i + 1) else i
  }

  // A run is tried longest first.
  lemma {:induction false} MatchRun(p: Class, s: string, i: nat)
    requires i <= |s|
    ensures Match(Star(Char(p)), s, i) == Some(RunEnd(p, s, i))
    decreases |s| - i
  {
    if i < |s| && p(s[i]) {
      MatchRun(p, s, i + 1);
      AtOnce(Char(p), s, i, i + 1);
    }
  }

  lemma CharStarThen(p: Class, b: Regex, s: string, i: nat)
    requires i <= |s|
    ensures Ends(Then(Star(Char(p)), b), s, i) ==
            (if i < |s| && p(s[i]) then Ends(Then(Star(Char(p)), b), s, i + 1) else []) + Ends(b, s, i)
  {
    StarThenOptionally(Char(p), b, s, i, if i < |s| && p(s[i]) then i + 1 else 0);
  }

  ghost predicate Never(r: Regex, s: string, i: nat, k: nat)
    requires k <= |s|
    decreases k - i
  {
    i < k ==> Ends(r, s, i) == [] && Never(r, s, i + 1, k)
  }

  // What cannot follow inside a run follows its end.
  lemma {:induction false} WholeRunThen(p: Class, b: Regex, s: string, i: nat)
    requires i <= |s| && Never(b, s, i, RunEnd(p, s, i))
    ensures Ends(Then(Star(Char(p)), b), s, i) == Ends(b, s, RunEnd(p, s, i))
    decreases |s| - i
  {
    CharStarThen(p, b, s, i);
    if i < |s| && p(s[i]) {
      WholeRunThen(p, b, s, i + 1);
    }
  }

  lemma OnlyAtEnd(p: Class, b: Regex, s: string, i: nat, ends: seq<nat>)
    requires i <= |s| && Never(b, s, i, RunEnd(p, s, i)) && Ends(b, s, RunEnd(p, s, i)) == ends
    ensures Ends(Then(Star(Char(p)), b), s, i) == ends
  {
    WholeRunThen(p, b, s, i);
  }

  predicate At(s: string, i: nat, text: string) {
    i + |text| <= |s| && s[i..i + |text|] == text
  }

  function Literal(text: string): Regex {
    if text == "" then Empty else Then(Char(c => c == text[0]), Literal(text[1..]))
  }

  function LiteralEnds(text: string, s: string, i: nat): seq<nat> {
    if At(s, i, text) then [i + |text|] else []
  }

  lemma {:induction false} EndsOfLiteral(text: string, s: string, i: nat)
    requires i <= |s|
    ensures Ends(Literal(text), s, i) == LiteralEnds(text, s, i)
    decreases |text|
  {
    if text != "" {
      CharThen(c => c == text[0], Literal(text[1..]), s, i);
      if i < |s| {
        EndsOfLiteral(text[1..], s, i + 1);
        AtNext(s, i, text);
      }
    }
  }

  lemma LiteralThen(text: string, b: Regex, s: string, i: nat)
    requires i <= |s|
    ensures Ends(Then(Literal(text), b), s, i) == EndsBehind(text, b, s, i)
  {
    EndsOfLiteral(text, s, i);
    OnceThen(Literal(text), b, s, i);
  }

  lemma OptionalThen(text: string, b: Regex, s: string, i: nat)
    requires i <= |s|
    ensures Ends(Then(Or(Literal(text), Empty), b), s, i) ==
            EndsBehind(text, b, s, i) + Ends(b, s, i)
  {
    OrThen(Literal(text), Empty, b, s, i);
    LiteralThen(text, b, s, i);
    OnceThen(Empty, b, s, i);
  }

  // Where b goes on behind a text, if that is there.
  function EndsBehind(text: string, b: Regex, s: string, i: nat): (ends: seq<nat>)
    requires i <= |s|
  {
    if At(s, i, text) then Ends(b, s, i + |text|) else []
  }

  lemma {:induction false} RunContinues(p: Class, s: string, i: nat, j: nat)
    requires i <= |s| && i <= j <= RunEnd(p, s, i)
    ensures RunEnd(p, s, i) == RunEnd(p, s, j)
    decreases j - i
  {
    if i < j {
      RunContinues(p, s, i + 1, j);
    }
  }

  lemma TextInRun(p: Class, text: string, s: string, i: nat)
    requires All(p, text) && At(s, i, text)
    ensures i + |text| <= RunEnd(p, s, i)
  {
    var k := i + |text|;
    forall j | i <= j < k ensures p(s[j]) {
      assert s[j] == s[i..k][j - i] == text[j - i];
    }
  }

  lemma RunBehindText(text: string, p: Class, s: string, i: nat)
    requires All(p, text) && At(s, i, text)
    ensures Match(Star(Char(p)), s, i + |text|) == Some(RunEnd(p, s, i))
  {
    TextInRun(p, text, s, i);
    RunContinues(p, s, i, i + |text|);
    MatchRun(p, s, i + |text|);
  }

  // A literal and the run it begins.
  lemma MatchLiteralRun(text: string, p: Class, s: string, i: nat)
    requires i <= |s| && All(p, text)
    ensures Match(Then(Literal(text), Star(Char(p))), s, i) == if At(s, i, text) then Some(RunEnd(p, s, i)) else None
  {
    LiteralThen(text, Star(Char(p)), s, i);
    if At(s, i, text) {
      RunBehindText(text, p, s, i);
    }
  }

  lemma AtNext(s: string, i: nat, text: string)
    requires i < |s| && text != ""
    ensures At(s, i, text) <==> s[i] == text[0] && At(s, i + 1, text[1..])
  {
    if i + |text| <= |s| {
      assert s[i..i + |text|] == [s[i]] + s[i + 1..i + |text|];
    }
  }

  function Alternatives(texts: seq<string>): Regex
    requires texts != []
  {
    if |texts| == 1 then Literal(texts[0]) else Or(Literal(texts[0]), Alternatives(texts[1..]))
  }

  ghost predicate IsWordText(text: string) {
    text != "" && All(IsWord, text)
  }

  // A word between two boundaries is a whole run of word characters.
  lemma WordFillsRun(text: string, s: string, i: nat)
    requires i <= |s| && IsWordText(text)
    ensures At(s, i, text) && Boundary(s, i + |text|) <==> s[i..RunEnd(IsWord, s, i)] == text
  {
    var k := i + |text|;
    if At(s, i, text) {
      TextInRun(IsWord, text, s, i);
      assert IsWord(s[k - 1]);
    }
  }

  lemma WordThenBound(text: string, s: string, i: nat)
    requires i <= |s| && IsWordText(text)
    ensures var k := RunEnd(IsWord, s, i);
            Ends(Then(Literal(text), WordBound), s, i) == if s[i..k] == text then [k] else []
  {
    EndsOfLiteral(text, s, i);
    OnceThen(Literal(text), WordBound, s, i);
    WordFillsRun(text, s, i);
  }

  lemma {:induction false} MatchWords(texts: seq<string>, s: string, i: nat)
    requires i <= |s| && texts != [] && forall text :: text in texts ==> IsWordText(text)
    ensures var k := RunEnd(IsWord, s, i);
            Match(Then(Alternatives(texts), WordBound), s, i) == if s[i..k] in texts then Some(k) else None
    decreases |texts|
  {
    assert texts[0] in texts;
    WordThenBound(texts[0], s, i);
    if |texts| > 1 {
      OrThen(Literal(texts[0]), Alternatives(texts[1..]), WordBound, s, i);
      MatchWords(texts[1..], s, i);
    }
  }

  /** One of several words, between two boundaries. */
  lemma MatchWholeWord(texts: seq<string>, s: string, i: nat)
    requires i <= |s| && texts != [] && forall text :: text in texts ==> IsWordText(text)
    ensures var k := RunEnd(IsWord, s, i);
            Match(Then(WordBound, Then(Alternatives(texts), WordBound)), s, i) ==
              if Boundary(s, i) && s[i..k] in texts then Some(k) else None
  {
    OnceThen(WordBound, Then(Alternatives(texts), WordBound), s, i);
    MatchWords(texts, s, i);
  }
}
