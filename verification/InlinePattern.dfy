/**
 * The inline pattern, and why the reader of inline Markdown matches what it matches.
 *
 * The reader looks at what is left of a text; the pattern is matched at a position of the
 * whole text. A run of characters between two delimiters ends in one place only, because the
 * closing delimiter starts with a character outside of the run, and so do the alternatives,
 * none of which starts like another.
 */
module InlinePattern {
  import opened Wrappers
  import opened LinePatterns
  import opened RegularExpressions
  import opened InlineMarkdown

  function EnclosedPattern(open: string, p: Class, close: string): Regex {
    Then(Literal(open), Then(Char(p), Then(Star(Char(p)), Literal(close))))
  }

  const ADDRESS: Regex := Then(Char(URL_CHAR), Then(Star(Char(URL_CHAR)), Literal(")")))

  const URL: Regex := Then(Literal("http"), Then(Or(Literal("s"), Empty), Then(Literal("://"), ADDRESS)))

  const LINK: Regex := Then(EnclosedPattern("[", NOT_BRACKET, "]("), URL)

  /** The inline pattern, its alternatives in the order in which they are written. */
  const PATTERN: Regex := Or(EnclosedPattern("**", NOT_STAR, "**"), Or(EnclosedPattern("`", NOT_TICK, "`"), LINK))

  lemma {:induction false} SkipIsRunEnd(p: Class, s: string, i: nat)
    requires i <= |s|
    ensures Skip(p, s[i..]) == s[RunEnd(p, s, i)..]
    decreases |s| - i
  {
    if i < |s| && p(s[i]) {
      assert s[i..][1..] == s[i + 1..];
      SkipIsRunEnd(p, s, i + 1);
    }
  }

  lemma StartsIsAt(s: string, i: nat, text: string)
    requires i <= |s|
    ensures Starts(s[i..], text) <==> At(s, i, text)
    ensures At(s, i, text) ==> s[i..][|text|..] == s[i + |text|..]
  {
    if i + |text| <= |s| {
      assert s[i..][..|text|] == s[i..i + |text|];
    }
  }

  lemma NotInside(p: Class, close: string, s: string, e: nat)
    requires e < |s| && close != "" && p(s[e]) && !p(close[0])
    ensures Ends(Literal(close), s, e) == []
  {
    EndsOfLiteral(close, s, e);
    AtNext(s, e, close);
  }

  // The end of one or more characters of a class with closing behind them, or 0.
  function FilledEnd(p: Class, close: string, s: string, j: nat): (k: nat)
    requires j <= |s|
    ensures k <= |s|
  {
    var k := RunEnd(p, s, j);
    if k > j && At(s, k, close) then k + |close| else 0
  }

  lemma {:induction false} NeverInside(p: Class, close: string, s: string, j: nat)
    requires j <= |s| && close != "" && !p(close[0])
    ensures Never(Literal(close), s, j, RunEnd(p, s, j))
    decreases |s| - j
  {
    if j < RunEnd(p, s, j) {
      NotInside(p, close, s, j);
      NeverInside(p, close, s, j + 1);
    }
  }

  lemma CloseAfterRun(p: Class, close: string, s: string, j: nat)
    requires j <= |s| && close != "" && !p(close[0])
    ensures Ends(Then(Star(Char(p)), Literal(close)), s, j) == LiteralEnds(close, s, RunEnd(p, s, j))
  {
    NeverInside(p, close, s, j);
    EndsOfLiteral(close, s, RunEnd(p, s, j));
    OnlyAtEnd(p, Literal(close), s, j, LiteralEnds(close, s, RunEnd(p, s, j)));
  }

  lemma EndsOfFilled(p: Class, close: string, s: string, j: nat)
    requires j <= |s| && close != "" && !p(close[0])
    ensures Ends(Then(Char(p), Then(Star(Char(p)), Literal(close))), s, j) == Optionally(FilledEnd(p, close, s, j))
  {
    CharThen(p, Then(Star(Char(p)), Literal(close)), s, j);
    if j < |s| && p(s[j]) {
      CloseAfterRun(p, close, s, j + 1);
    }
  }

  lemma EndsOfEnclosed(open: string, p: Class, close: string, s: string, i: nat)
    requires i <= |s| && close != "" && !p(close[0])
    ensures Ends(EnclosedPattern(open, p, close), s, i) == Optionally(EnclosedEnd(open, p, close, s, i))
  {
    LiteralThen(open, Then(Char(p), Then(Star(Char(p)), Literal(close))), s, i);
    if At(s, i, open) {
      EndsOfFilled(p, close, s, i + |open|);
    }
  }

  // Whether something was found, and where what is left behind it begins.
  predicate Leaves(s: string, found: Option<Enclosure>, k: nat)
    requires k <= |s|
  {
    if k == 0 then found.None? else found.Some? && found.value.tail == s[k..]
  }

  lemma EnclosedIsFilled(open: string, p: Class, close: string, s: string, i: nat)
    requires At(s, i, open) && close != ""
    ensures Leaves(s, Enclosed(open, p, close, s[i..]), FilledEnd(p, close, s, i + |open|))
  {
    var j := i + |open|;
    var k := RunEnd(p, s, j);
    StartsIsAt(s, i, open);
    SkipIsRunEnd(p, s, j);
    StartsIsAt(s, k, close);
    assert |s[j..]| == |s| - j && |s[k..]| == |s| - k;
  }

  lemma EnclosedLeaves(open: string, p: Class, close: string, s: string, i: nat)
    requires i <= |s| && close != ""
    ensures Leaves(s, Enclosed(open, p, close, s[i..]), EnclosedEnd(open, p, close, s, i))
  {
    StartsIsAt(s, i, open);
    if At(s, i, open) {
      EnclosedIsFilled(open, p, close, s, i);
    }
  }

  function EnclosedEnd(open: string, p: Class, close: string, s: string, i: nat): (k: nat)
    requires i <= |s|
    ensures k <= |s|
  {
    if At(s, i, open) then FilledEnd(p, close, s, i + |open|) else 0
  }

  lemma PrefixAt(s: string, i: nat, first: string, second: string)
    requires i <= |s|
    ensures At(s, i, first + second) <==> At(s, i, first) && At(s, i + |first|, second)
  {
    var j, k := i + |first|, i + |first| + |second|;
    if k <= |s| {
      assert s[i..k] == s[i..j] + s[j..k];
      assert s[i..k][..|first|] == s[i..j];
    }
  }

  lemma SchemeAt(s: string, i: nat)
    requires i <= |s|
    ensures At(s, i, "https://") <==> At(s, i, "http") && At(s, i + 4, "s") && At(s, i + 5, "://")
    ensures At(s, i, "http://") <==> At(s, i, "http") && At(s, i + 4, "://")
    ensures At(s, i + 4, "s") ==> !At(s, i + 4, "://")
  {
    PrefixAt(s, i, "http", "s://");
    PrefixAt(s, i, "http", "://");
    assert "http" + "s://" == "https://" && "http" + "://" == "http://" && "s" + "://" == "s://";
    if i + 4 <= |s| {
      PrefixAt(s, i + 4, "s", "://");
      assert At(s, i + 4, "://") ==> s[i + 4..i + 7][0] == s[i + 4];
      assert At(s, i + 4, "s") ==> s[i + 4..i + 5][0] == s[i + 4];
    }
  }

  lemma SchemeRest(b: Regex, s: string, j: nat)
    requires j <= |s|
    ensures Ends(Then(Or(Literal("s"), Empty), Then(Literal("://"), b)), s, j) ==
            (if At(s, j, "s") then EndsBehind("://", b, s, j + 1) else []) + EndsBehind("://", b, s, j)
  {
    var rest := Then(Literal("://"), b);
    OptionalThen("s", rest, s, j);
    LiteralThen("://", b, s, j);
    if At(s, j, "s") {
      LiteralThen("://", b, s, j + 1);
    }
  }

  // `https?:\/\/` in front of anything.
  lemma EndsOfScheme(b: Regex, s: string, i: nat)
    requires i <= |s|
    ensures Ends(Then(Literal("http"), Then(Or(Literal("s"), Empty), Then(Literal("://"), b))), s, i) ==
            EndsBehind(Scheme(s[i..]), b, s, i)
  {
    LiteralThen("http", Then(Or(Literal("s"), Empty), Then(Literal("://"), b)), s, i);
    if At(s, i, "http") {
      SchemeRest(b, s, i + 4);
    }
    SchemeAt(s, i);
    StartsIsAt(s, i, "https://");
  }

  function UrlEnd(s: string, i: nat): (k: nat)
    requires i <= |s|
    ensures k <= |s|
  {
    EnclosedEnd(Scheme(s[i..]), URL_CHAR, ")", s, i)
  }

  lemma EndsOfUrl(s: string, i: nat)
    requires i <= |s|
    ensures Ends(URL, s, i) == Optionally(UrlEnd(s, i))
  {
    EndsOfScheme(ADDRESS, s, i);
    if At(s, i, Scheme(s[i..])) {
      EndsOfFilled(URL_CHAR, ")", s, i + |Scheme(s[i..])|);
    }
  }

  lemma UrlLeaves(s: string, i: nat)
    requires i <= |s|
    ensures Leaves(s, MatchUrl(s[i..]), UrlEnd(s, i))
  {
    EnclosedLeaves(Scheme(s[i..]), URL_CHAR, ")", s, i);
  }

  function LinkEnd(s: string, i: nat): (k: nat)
    requires i <= |s|
    ensures k <= |s|
  {
    var j := EnclosedEnd("[", NOT_BRACKET, "](", s, i);
    if j == 0 then 0 else UrlEnd(s, j)
  }

  lemma EndsOfLink(s: string, i: nat)
    requires i <= |s|
    ensures Ends(LINK, s, i) == Optionally(LinkEnd(s, i))
  {
    var j := EnclosedEnd("[", NOT_BRACKET, "](", s, i);
    EndsOfEnclosed("[", NOT_BRACKET, "](", s, i);
    OptionallyThen(EnclosedPattern("[", NOT_BRACKET, "]("), URL, s, i, j);
    if j != 0 {
      EndsOfUrl(s, j);
    }
  }

  lemma LinkedLeaves(s: string, outer: Option<Enclosure>, j: nat)
    requires j <= |s| && Leaves(s, outer, j)
    ensures var k := if j == 0 then 0 else UrlEnd(s, j);
            if k == 0 then Linked(outer).None? else Linked(outer).Some? && Linked(outer).value.tail == s[k..]
  {
    if j != 0 {
      UrlLeaves(s, j);
    }
  }

  lemma LinkLeaves(s: string, i: nat)
    requires i <= |s|
    ensures var k, link := LinkEnd(s, i), MatchLink(s[i..]);
            if k == 0 then link.None? else link.Some? && link.value.tail == s[k..]
  {
    EnclosedLeaves("[", NOT_BRACKET, "](", s, i);
    LinkedLeaves(s, Enclosed("[", NOT_BRACKET, "](", s[i..]), EnclosedEnd("[", NOT_BRACKET, "](", s, i));
  }

  lemma StarsStartNoCode(s: string, i: nat)
    requires i < |s| && s[i] == '*'
    ensures !At(s, i, "`")
  {
    if i + 1 <= |s| {
      assert s[i..i + 1] == [s[i]];
    }
  }

  lemma StarAt(s: string, i: nat)
    requires At(s, i, "**")
    ensures s[i] == '*'
  {
    assert s[i..i + 2][0] == s[i];
  }

  /** At every position the reader leaves behind what follows the match that a backtracking matcher settles on, and fails exactly when the pattern does not match. */
  lemma AfterTokenIsItsPattern(s: string, i: nat)
    requires i <= |s|
    ensures AfterToken(s[i..]) == match Match(PATTERN, s, i) case None => None case Some(end) => Some(s[end..])
    ensures AfterToken(s[i..]) == None <==> Ends(PATTERN, s, i) == []
  {
    EndsOfEnclosed("**", NOT_STAR, "**", s, i);
    EnclosedLeaves("**", NOT_STAR, "**", s, i);
    EndsOfEnclosed("`", NOT_TICK, "`", s, i);
    EnclosedLeaves("`", NOT_TICK, "`", s, i);
    EndsOfLink(s, i);
    LinkLeaves(s, i);
    MatchOr(EnclosedPattern("**", NOT_STAR, "**"), Or(EnclosedPattern("`", NOT_TICK, "`"), LINK), s, i);
    MatchOr(EnclosedPattern("`", NOT_TICK, "`"), LINK, s, i);
    StartsIsAt(s, i, "**");
    if At(s, i, "**") {
      StarAt(s, i);
      StarsStartNoCode(s, i);
    }
  }
}
