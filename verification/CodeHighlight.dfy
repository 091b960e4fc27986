/** The highlighter of fenced code. */
module CodeHighlight {
  import opened Tokenising
  import opened LinePatterns
  import opened RegularExpressions
  import opened Wrappers
  import MarkdownText

  const KEYWORDS: seq<string> := [
    "async", "await", "catch", "class", "const", "export", "function", "if",
    "import", "let", "return", "throw", "try", "type", "while"
  ]

  datatype Node = Raw(text: string) | Span(className: string, text: string)

  const IN_LINE: Class := c => c != '\n'

  function Plain(quote: char): Class {
    c => c != quote && c != '\\'
  }

  function ToLineEnd(start: string): Regex {
    Then(Literal(start), Star(Char(IN_LINE)))
  }

  // What may stand between two quotes: `[^q\\]|\\.`
  function Quotable(quote: char): Regex {
    Or(Char(Plain(quote)), Then(Literal("\\"), Char(MarkdownText.DOT)))
  }

  function Quoted(quote: char): Regex {
    Then(Literal([quote]), RestOfQuoted(quote))
  }

  const KEYWORD: Regex := Then(WordBound, Then(Alternatives(KEYWORDS), WordBound))

  const DIGITS: Regex := Then(Char(IsDigit), Star(Char(IsDigit)))

  const FRACTION: Regex := Then(Literal("."), DIGITS)

  const AFTER_DIGITS: Regex := Then(Or(FRACTION, Empty), WordBound)

  const NUMBER: Regex := Then(WordBound, Then(DIGITS, AFTER_DIGITS))

  const COMMENT: Regex := Or(ToLineEnd("//"), ToLineEnd("#"))

  const QUOTED: Regex := Or(Quoted('"'), Quoted('\''))

  /** The pattern of the highlighter, its alternatives in the order in which they are written. */
  const PATTERN: Regex := Or(COMMENT, Or(QUOTED, Or(KEYWORD, NUMBER)))

  // The end of the quoted text whose content goes on at i, or 0: `(?:[^q\\]|\\.)*q`.
  function QuoteEnd(quote: char, s: string, i: nat): (k: nat)
    requires i <= |s|
    ensures k == 0 || i < k <= |s|
    decreases |s| - i
  {
    if i == |s| then 0
    else if s[i] == quote then i + 1
    else if s[i] != '\\' then QuoteEnd(quote, s, i + 1)
    else if i + 1 < |s| && MarkdownText.DOT(s[i + 1]) then QuoteEnd(quote, s, i + 2)
    else 0
  }

  // The end of the number at i, or 0: `\d+(?:\.\d+)?\b`.
  function NumberEnd(s: string, i: nat): (k: nat)
    requires i <= |s|
    ensures k == 0 || i < k <= |s|
  {
    var whole := RunEnd(IsDigit, s, i);
    if whole == i then 0
    else
      var fraction := if At(s, whole, ".") then RunEnd(IsDigit, s, whole + 1) else whole;
      if fraction > whole + 1 && Boundary(s, fraction) then fraction
      else if Boundary(s, whole) then whole
      else 0
  }

  function CommentEnd(s: string, i: nat): (k: nat)
    requires i <= |s|
    ensures k == 0 || i < k <= |s|
  {
    if At(s, i, "//") || At(s, i, "#") then
      CommentsAreNotEmpty(s, i);
      RunEnd(IN_LINE, s, i)
    else 0
  }

  function QuotedEnd(s: string, i: nat): (k: nat)
    requires i <= |s|
    ensures k == 0 || i < k <= |s|
  {
    if i < |s| && (s[i] == '"' || s[i] == '\'') then QuoteEnd(s[i], s, i + 1) else 0
  }

  function KeywordEnd(s: string, i: nat): (k: nat)
    requires i <= |s|
    ensures k == 0 || i < k <= |s|
  {
    if Boundary(s, i) && s[i..RunEnd(IsWord, s, i)] in KEYWORDS then
      KeywordsStartWithLetters(s[i..RunEnd(IsWord, s, i)]);
      RunEnd(IsWord, s, i)
    else 0
  }

  /** The end of the token at i, or 0, decided by the characters there. */
  function TokenEnd(s: string, i: nat): (k: nat)
    requires i <= |s|
    ensures k == 0 || i < k <= |s|
  {
    if CommentEnd(s, i) != 0 then CommentEnd(s, i)
    else if QuotedEnd(s, i) != 0 then QuotedEnd(s, i)
    else if KeywordEnd(s, i) != 0 then KeywordEnd(s, i)
    else if Boundary(s, i) then NumberEnd(s, i)
    else 0
  }

  function CodeToken(s: string, i: nat): (n: nat)
    ensures i <= |s| ==> i + n <= |s|
  {
    if i > |s| || TokenEnd(s, i) == 0 then 0 else TokenEnd(s, i) - i
  }

  lemma CommentsAreNotEmpty(s: string, i: nat)
    requires i <= |s| && (At(s, i, "//") || At(s, i, "#"))
    ensures i < RunEnd(IN_LINE, s, i)
  {
    TextInRun(IN_LINE, if At(s, i, "//") then "//" else "#", s, i);
  }

  ghost predicate StartsWithLetter(token: string) {
    token != "" && 'a' <= token[0] <= 'z'
  }

  lemma KeywordsStartWithLetters(token: string)
    requires token in KEYWORDS
    ensures StartsWithLetter(token)
  {}

  function Found(k: nat): Option<nat> {
    if k == 0 then None else Some(k)
  }

  lemma CommentMatches(s: string, i: nat)
    requires i <= |s|
    ensures Match(COMMENT, s, i) == Found(CommentEnd(s, i))
  {
    MatchOr(ToLineEnd("//"), ToLineEnd("#"), s, i);
    MatchLiteralRun("//", IN_LINE, s, i);
    MatchLiteralRun("#", IN_LINE, s, i);
  }

  lemma CharAt(c: char, s: string, i: nat)
    requires i <= |s|
    ensures At(s, i, [c]) <==> i < |s| && s[i] == c
  {
    if i < |s| {
      assert s[i..i + 1] == [s[i]];
    }
  }

  // The end of one character of quoted text, or of an escaped one, or 0.
  function QuotableEnd(quote: char, s: string, i: nat): (k: nat) {
    if i < |s| && Plain(quote)(s[i]) then i + 1
    else if i + 1 < |s| && s[i] == '\\' && MarkdownText.DOT(s[i + 1]) then i + 2
    else 0
  }

  lemma EndsOfQuotable(quote: char, s: string, i: nat)
    requires i <= |s| && quote != '\\'
    ensures Ends(Quotable(quote), s, i) == Optionally(QuotableEnd(quote, s, i))
  {
    LiteralThen("\\", Char(MarkdownText.DOT), s, i);
    CharAt('\\', s, i);
  }

  // What is left of a quoted text from i on.
  function RestOfQuoted(quote: char): Regex {
    Then(Star(Quotable(quote)), Literal([quote]))
  }

  lemma QuoteStep(quote: char, s: string, i: nat)
    requires i <= |s| && quote != '\\'
    ensures var k := QuotableEnd(quote, s, i);
            Ends(RestOfQuoted(quote), s, i) ==
              (if k == 0 then [] else Ends(RestOfQuoted(quote), s, k)) + if i < |s| && s[i] == quote then [i + 1] else []
  {
    EndsOfQuotable(quote, s, i);
    StarThenOptionally(Quotable(quote), Literal([quote]), s, i, QuotableEnd(quote, s, i));
    EndsOfLiteral([quote], s, i);
    CharAt(quote, s, i);
  }

  lemma {:induction false} QuoteEnds(quote: char, s: string, i: nat)
    requires i <= |s| && quote != '\\'
    ensures Ends(RestOfQuoted(quote), s, i) == Optionally(QuoteEnd(quote, s, i))
    decreases |s| - i
  {
    QuoteStep(quote, s, i);
    if QuotableEnd(quote, s, i) != 0 {
      QuoteEnds(quote, s, QuotableEnd(quote, s, i));
    }
  }

  lemma MatchQuoted(quote: char, s: string, i: nat)
    requires i <= |s| && quote != '\\'
    ensures Match(Quoted(quote), s, i) == Found(if i < |s| && s[i] == quote then QuoteEnd(quote, s, i + 1) else 0)
  {
    LiteralThen([quote], RestOfQuoted(quote), s, i);
    CharAt(quote, s, i);
    if i < |s| {
      QuoteEnds(quote, s, i + 1);
    }
  }

  lemma QuotedMatches(s: string, i: nat)
    requires i <= |s|
    ensures Match(QUOTED, s, i) == Found(QuotedEnd(s, i))
  {
    MatchOr(Quoted('"'), Quoted('\''), s, i);
    MatchQuoted('"', s, i);
    MatchQuoted('\'', s, i);
  }

  lemma KeywordsAreWords()
    ensures forall word :: word in KEYWORDS ==> IsWordText(word)
  {}

  lemma KeywordMatches(s: string, i: nat)
    requires i <= |s|
    ensures Match(KEYWORD, s, i) == Found(KeywordEnd(s, i))
  {
    KeywordsAreWords();
    MatchWholeWord(KEYWORDS, s, i);
  }

  // Digits, then what cannot follow a digit that another digit follows.
  lemma DigitsThen(b: Regex, s: string, i: nat)
    requires i <= |s| && Never(b, s, i + 1, RunEnd(IsDigit, s, i))
    ensures var k := RunEnd(IsDigit, s, i);
            Ends(Then(DIGITS, b), s, i) == if k == i then [] else Ends(b, s, k)
  {
    ThenIsAssociative(Char(IsDigit), Star(Char(IsDigit)), b, s, i);
    CharThen(IsDigit, Then(Star(Char(IsDigit)), b), s, i);
    if RunEnd(IsDigit, s, i) > i {
      WholeRunThen(IsDigit, b, s, i + 1);
    }
  }

  lemma NoBoundInDigits(s: string, i: nat, e: nat)
    requires i <= |s| && i < e < RunEnd(IsDigit, s, i)
    ensures !Boundary(s, e)
  {}

  lemma {:induction false} NoBoundsInDigits(s: string, i: nat, e: nat)
    requires i <= |s| && i < e
    ensures Never(WordBound, s, e, RunEnd(IsDigit, s, i))
    decreases |s| - e
  {
    if e < RunEnd(IsDigit, s, i) {
      NoBoundInDigits(s, i, e);
      NoBoundsInDigits(s, i, e + 1);
    }
  }

  lemma FractionThenBound(s: string, i: nat)
    requires i <= |s|
    ensures Ends(Then(FRACTION, WordBound), s, i) ==
            if !At(s, i, ".") then []
            else var k := RunEnd(IsDigit, s, i + 1); if k > i + 1 && Boundary(s, k) then [k] else []
  {
    ThenIsAssociative(Literal("."), DIGITS, WordBound, s, i);
    EndsOfLiteral(".", s, i);
    OnceThen(Literal("."), Then(DIGITS, WordBound), s, i);
    if At(s, i, ".") {
      NoBoundsInDigits(s, i + 1, i + 2);
      DigitsThen(WordBound, s, i + 1);
    }
  }

  lemma EndsAfterDigits(s: string, i: nat)
    requires i <= |s|
    ensures Ends(AFTER_DIGITS, s, i) == Ends(Then(FRACTION, WordBound), s, i) + if Boundary(s, i) then [i] else []
  {
    OrThen(FRACTION, Empty, WordBound, s, i);
    OnceThen(Empty, WordBound, s, i);
  }

  lemma {:induction false} NothingInsideDigits(s: string, i: nat, e: nat)
    requires i <= |s| && i < e
    ensures Never(AFTER_DIGITS, s, e, RunEnd(IsDigit, s, i))
    decreases |s| - e
  {
    if e < RunEnd(IsDigit, s, i) {
      NoBoundInDigits(s, i, e);
      CharAt('.', s, e);
      FractionThenBound(s, e);
      EndsAfterDigits(s, e);
      NothingInsideDigits(s, i, e + 1);
    }
  }

  lemma EndsOfDigits(s: string, i: nat)
    requires i <= |s|
    ensures var whole := RunEnd(IsDigit, s, i);
            Ends(Then(DIGITS, AFTER_DIGITS), s, i) == if whole == i then [] else Ends(AFTER_DIGITS, s, whole)
  {
    NothingInsideDigits(s, i, i + 1);
    DigitsThen(AFTER_DIGITS, s, i);
  }

  lemma MatchDigits(s: string, i: nat)
    requires i <= |s|
    ensures Match(Then(DIGITS, AFTER_DIGITS), s, i) == Found(NumberEnd(s, i))
  {
    var whole := RunEnd(IsDigit, s, i);
    EndsOfDigits(s, i);
    EndsAfterDigits(s, whole);
    FractionThenBound(s, whole);
  }

  lemma NumberMatches(s: string, i: nat)
    requires i <= |s|
    ensures Match(NUMBER, s, i) == Found(if Boundary(s, i) then NumberEnd(s, i) else 0)
  {
    OnceThen(WordBound, Then(DIGITS, AFTER_DIGITS), s, i);
    MatchDigits(s, i);
  }

  lemma InOrder(a: Regex, b: Regex, c: Regex, d: Regex, s: string, i: nat)
    requires i <= |s|
    requires Match(a, s, i) == Found(CommentEnd(s, i)) && Match(b, s, i) == Found(QuotedEnd(s, i))
    requires Match(c, s, i) == Found(KeywordEnd(s, i))
    requires Match(d, s, i) == Found(if Boundary(s, i) then NumberEnd(s, i) else 0)
    ensures Match(Or(a, Or(b, Or(c, d))), s, i) == Found(TokenEnd(s, i))
  {
    MatchOr(a, Or(b, Or(c, d)), s, i);
    MatchOr(b, Or(c, d), s, i);
    MatchOr(c, d, s, i);
  }

  lemma PatternMatches(s: string, i: nat)
    requires i <= |s|
    ensures Match(PATTERN, s, i) == Found(TokenEnd(s, i))
  {
    CommentMatches(s, i);
    QuotedMatches(s, i);
    KeywordMatches(s, i);
    NumberMatches(s, i);
    InOrder(COMMENT, QUOTED, KEYWORD, NUMBER, s, i);
  }

  /** The token at every position is what the pattern matches there: it has the length of the match that a backtracking matcher settles on, and none exactly when nothing matches. */
  lemma CodeTokenIsItsPattern(s: string, i: nat)
    requires i <= |s|
    ensures CodeToken(s, i) == match Match(PATTERN, s, i) case None => 0 case Some(end) => end - i
    ensures CodeToken(s, i) == 0 <==> Ends(PATTERN, s, i) == []
  {
    PatternMatches(s, i);
  }

  function ClassName(token: string, language: string): string {
    if At(token, 0, "//") || At(token, 0, "#") then "code-token code-comment"
    else if At(token, 0, "\"") || At(token, 0, "'") then "code-token code-string"
    else if token != "" && IsDigit(token[0]) then "code-token code-number"
    else if language != "text" then "code-token code-keyword"
    else "code-token"
  }

  function Show(language: string): Segment -> seq<Node> {
    (segment: Segment) =>
      match segment
      case Gap(text) => [Raw(text)]
      case Token(text) => [Span(ClassName(text, language), text)]
  }

  function Highlighted(code: string, language: string): seq<Node> {
    CodeTokensAreBounded();
    Shown(Show(language), Segments(CodeToken, code, 0))
  }

  lemma CodeTokensAreBounded()
    ensures Bounded(CodeToken)
  {}

  method HighlightCode(code: string, language: string) returns (nodes: seq<Node>)
    ensures nodes == Highlighted(code, language)
  {
    CodeTokensAreBounded();
    nodes := Scan(CodeToken, Show(language), code);
  }

  function TextOf(nodes: seq<Node>): string {
    if nodes == [] then "" else nodes[0].text + TextOf(nodes[1..])
  }

  lemma {:induction false} ShownText(language: string, segments: seq<Segment>)
    ensures TextOf(Shown(Show(language), segments)) == Text(segments)
  {
    if segments != [] {
      ShownText(language, segments[1..]);
      var rest := Shown(Show(language), segments[1..]);
      assert Shown(Show(language), segments)[1..] == rest;
    }
  }

  /** The displayed code is the code, for every code and every language. */
  lemma HighlightingKeepsCode(code: string, language: string)
    ensures TextOf(Highlighted(code, language)) == code
  {
    CodeTokensAreBounded();
    ShownText(language, Segments(CodeToken, code, 0));
    SegmentsCover(CodeToken, code);
  }

  lemma OtherTokensStartOtherwise(s: string, i: nat)
    requires i < |s| && CodeToken(s, i) > 0 && s[i..i + CodeToken(s, i)] !in KEYWORDS
    ensures At(s, i, "//") || s[i] == '#' || s[i] == '"' || s[i] == '\'' || IsDigit(s[i])
  {
    assert RunEnd(IsDigit, s, i) > i ==> IsDigit(s[i]);
  }

  // The class is decided by how the token starts, which its text alone tells.
  lemma CommentStart(s: string, i: nat, n: nat)
    requires i < |s| && n == CodeToken(s, i) > 0 && At(s, i, "//")
    ensures At(s[i..i + n], 0, "//")
  {
    var end := RunEnd(IN_LINE, s, i);
    assert s[i] == '/' && s[i + 1] == '/' by { assert s[i..i + 2][0] == s[i] && s[i..i + 2][1] == s[i + 1]; }
    assert end >= i + 2;
    assert s[i..i + n][..2] == s[i..i + 2];
  }

  /** A token is coloured as a keyword exactly when it is one and the language is not plain text. */
  lemma KeywordsAreColoured(s: string, i: nat, language: string)
    requires i < |s| && CodeToken(s, i) > 0
    ensures var token := s[i..i + CodeToken(s, i)];
            ClassName(token, language) == "code-token code-keyword" <==> token in KEYWORDS && language != "text"
  {
    var n := CodeToken(s, i);
    var token := s[i..i + n];
    assert token[0] == s[i];
    if token in KEYWORDS {
      KeywordsStartWithLetters(token);
      assert token[..1] == [token[0]];
    } else {
      OtherTokensStartOtherwise(s, i);
      if At(s, i, "//") { CommentStart(s, i, n); }
      assert token[..1] == [token[0]];
    }
  }

  lemma FirstCharacter(token: string)
    requires token != ""
    ensures (At(token, 0, "#") <==> token[0] == '#') && (At(token, 0, "\"") <==> token[0] == '"')
    ensures At(token, 0, "'") <==> token[0] == '\''
    ensures At(token, 0, "//") ==> token[0] == '/'
  {
    assert token[0..1] == [token[0]];
    assert |token| >= 2 ==> token[0..2][0] == token[0];
  }

  lemma SlashesStay(s: string, i: nat, n: nat)
    requires i + n <= |s| && At(s[i..i + n], 0, "//")
    ensures At(s, i, "//")
  {
    assert s[i..i + n][0..2] == s[i..i + 2];
  }

  /** Which class a token gets: a comment behind two slashes or a hash, a string behind a quote, a number behind a digit, and a keyword otherwise, plain where the language is text. */
  lemma ClassesFollowStarts(s: string, i: nat, language: string)
    requires i < |s| && CodeToken(s, i) > 0
    ensures ClassName(s[i..i + CodeToken(s, i)], language) ==
            if At(s, i, "//") || s[i] == '#' then "code-token code-comment"
            else if s[i] == '"' || s[i] == '\'' then "code-token code-string"
            else if '0' <= s[i] <= '9' then "code-token code-number"
            else if language == "text" then "code-token"
            else "code-token code-keyword"
  {
    var n := CodeToken(s, i);
    var token := s[i..i + n];
    assert token[0] == s[i];
    FirstCharacter(token);
    if At(s, i, "//") {
      CommentStart(s, i, n);
    } else if At(token, 0, "//") {
      SlashesStay(s, i, n);
    }
  }
}
