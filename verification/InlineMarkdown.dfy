/** Inline Markdown: bold, code and links inside a paragraph or a list item. */
module InlineMarkdown {
  import opened Wrappers
  import opened LinePatterns
  import opened Tokenising
  import opened MarkedText
  import MarkdownText

  datatype Mark = Strong(text: string) | InlineCode(text: string) | Link(caption: string, href: string)

  const NOT_STAR: Class := c => c != '*'
  const NOT_TICK: Class := c => c != '`'
  const NOT_BRACKET: Class := c => c != ']'
  const URL_CHAR: Class := c => c != ')' && !MarkdownText.SPACE(c)

  predicate Starts(s: string, prefix: string) {
    |prefix| <= |s| && s[..|prefix|] == prefix
  }

  predicate Filled(p: Class, s: string) {
    s != "" && All(p, s)
  }

  datatype Enclosure = Enclosure(body: string, tail: string)

  /** Matches opening, then one or more characters of a class, then closing. */
  function Enclosed(open: string, p: Class, close: string, s: string): (found: Option<Enclosure>)
    ensures found.Some? ==> |found.value.tail| < |s|
  {
    if !Starts(s, open) then None
    else
      var inner := s[|open|..];
      var rest := Skip(p, inner);
      if |rest| < |inner| && Starts(rest, close) then
        Some(Enclosure(inner[..|inner| - |rest|], rest[|close|..]))
      else None
  }

  function Around(open: string, body: string, close: string, tail: string): string {
    open + (body + (close + tail))
  }

  lemma AroundTail(open: string, body: string, close: string, tail: string, more: string)
    ensures Around(open, body, close, tail) + more == Around(open, body, close, tail + more)
  {
    assert (close + tail) + more == close + (tail + more);
    assert (body + (close + tail)) + more == body + ((close + tail) + more);
    assert (open + (body + (close + tail))) + more == open + ((body + (close + tail)) + more);
  }

  lemma {:induction false} SkipRun(p: Class, run: string, tail: string)
    requires All(p, run) && (tail == "" || !p(tail[0]))
    ensures Skip(p, run + tail) == tail
  {
    if run == "" {
      assert run + tail == tail;
    } else {
      assert (run + tail)[1..] == run[1..] + tail;
      SkipRun(p, run[1..], tail);
    }
  }

  lemma StartsWith(prefix: string, rest: string)
    ensures Starts(prefix + rest, prefix) && (prefix + rest)[|prefix|..] == rest
  {}

  lemma EnclosedIsFound(open: string, p: Class, close: string, body: string, tail: string)
    requires Filled(p, body) && close != "" && !p(close[0])
    ensures Enclosed(open, p, close, Around(open, body, close, tail)) == Some(Enclosure(body, tail))
  {
    StartsWith(open, body + (close + tail));
    SkipRun(p, body, close + tail);
    StartsWith(close, tail);
    assert (body + (close + tail))[..|body|] == body;
  }

  lemma StartsSplit(s: string, prefix: string)
    requires Starts(s, prefix)
    ensures s == prefix + s[|prefix|..]
  {}

  lemma RunSplit(p: Class, s: string)
    ensures var rest := Skip(p, s); s == s[..|s| - |rest|] + rest
  {}

  lemma EnclosedIsShape(open: string, p: Class, close: string, s: string)
    requires Enclosed(open, p, close, s).Some?
    ensures var found := Enclosed(open, p, close, s).value;
            Filled(p, found.body) && s == Around(open, found.body, close, found.tail)
  {
    var inner := s[|open|..];
    StartsSplit(s, open);
    RunSplit(p, inner);
    StartsSplit(Skip(p, inner), close);
  }

  function Scheme(s: string): string {
    if Starts(s, "https://") then "https://" else "http://"
  }

  // `(https?:\/\/[^)\s]+)\)`
  function MatchUrl(s: string): (found: Option<Enclosure>)
    ensures found.Some? ==> |found.value.tail| < |s|
  {
    match Enclosed(Scheme(s), URL_CHAR, ")", s)
    case None => None
    case Some(url) => Some(Enclosure(Scheme(s) + url.body, url.tail))
  }

  datatype LinkMatch = LinkMatch(caption: string, href: string, tail: string)

  // What follows a caption is read as its address.
  function Linked(outer: Option<Enclosure>): (link: Option<LinkMatch>)
    ensures link.Some? ==> outer.Some? && |link.value.tail| < |outer.value.tail|
  {
    match outer
    case None => None
    case Some(caption) =>
      match MatchUrl(caption.tail)
      case None => None
      case Some(url) => Some(LinkMatch(caption.body, url.body, url.tail))
  }

  /** `\[([^\]]+)\]\((https?:\/\/[^)\s]+)\)` at the start of s. */
  function MatchLink(s: string): (link: Option<LinkMatch>)
    ensures link.Some? ==> |link.value.tail| < |s|
  {
    Linked(Enclosed("[", NOT_BRACKET, "](", s))
  }

  /** What the inline pattern leaves behind the token at the start of s. */
  function AfterToken(s: string): (tail: Option<string>)
    ensures tail.Some? ==> |tail.value| < |s|
  {
    var found := if Starts(s, "**") then Enclosed("**", NOT_STAR, "**", s) else Enclosed("`", NOT_TICK, "`", s);
    match found
    case Some(enclosure) => Some(enclosure.tail)
    case None =>
      match MatchLink(s)
      case Some(link) => Some(link.tail)
      case None => None
  }

  // `s.slice(a, -b)`
  function Slice(s: string, a: nat, b: nat): string {
    if a + b <= |s| then s[a..|s| - b] else ""
  }

  /** What a matched token is read as: none when the anchored link pattern fails on it. */
  function ReadToken(token: string): seq<Mark> {
    if Starts(token, "**") then [Strong(Slice(token, 2, 2))]
    else if Starts(token, "`") then [InlineCode(Slice(token, 1, 1))]
    else match MatchLink(token)
         case Some(link) => if link.tail == "" then [Link(link.caption, link.href)] else []
         case None => []
  }

  predicate GoodUrl(href: string) {
    Starts(href, Scheme(href)) && Filled(URL_CHAR, href[|Scheme(href)|..])
  }

  // What a token of each sort may hold.
  predicate Good(mark: Mark) {
    match mark
    case Strong(text) => Filled(NOT_STAR, text)
    case InlineCode(text) => Filled(NOT_TICK, text)
    case Link(caption, href) => Filled(NOT_BRACKET, caption) && GoodUrl(href)
  }

  // A mark in its delimiters, in front of the text that follows it.
  function Wrap(mark: Mark, tail: string): string {
    match mark
    case Strong(text) => Around("**", text, "**", tail)
    case InlineCode(text) => Around("`", text, "`", tail)
    case Link(caption, href) => Around("[", caption, "](", href + (")" + tail))
  }

  lemma WrapTail(mark: Mark, tail: string, more: string)
    ensures Wrap(mark, tail) + more == Wrap(mark, tail + more)
  {
    match mark
    case Strong(text) => AroundTail("**", text, "**", tail, more);
    case InlineCode(text) => AroundTail("`", text, "`", tail, more);
    case Link(caption, href) =>
      AroundTail("[", caption, "](", href + (")" + tail), more);
      assert (href + (")" + tail)) + more == href + (")" + (tail + more));
  }

  lemma StartsOf(prefix: string, a: string, b: string)
    requires Starts(a, prefix)
    ensures Starts(a + b, prefix)
  {
    assert (a + b)[..|prefix|] == a[..|prefix|];
  }

  lemma SchemeStays(href: string, tail: string)
    requires Starts(href, Scheme(href))
    ensures Scheme(href + tail) == Scheme(href)
  {
    StartsOf(Scheme(href), href, tail);
    assert (href + tail)[4] == href[4];
  }

  lemma UrlIsFound(href: string, tail: string)
    requires GoodUrl(href)
    ensures MatchUrl(href + (")" + tail)) == Some(Enclosure(href, tail))
  {
    var scheme := Scheme(href);
    var path := href[|scheme|..];
    assert href == scheme + path;
    assert href + (")" + tail) == Around(scheme, path, ")", tail);
    SchemeStays(href, ")" + tail);
    EnclosedIsFound(scheme, URL_CHAR, ")", path, tail);
  }

  lemma SchemeOf(s: string, body: string)
    requires Starts(s, Scheme(s))
    ensures Scheme(Scheme(s) + body) == Scheme(s) && Starts(Scheme(s) + body, Scheme(s))
  {
    StartsWith(Scheme(s), body);
    assert (Scheme(s) + body)[4] == s[4];
  }

  lemma UrlAround(scheme: string, body: string, tail: string)
    ensures (scheme + body) + (")" + tail) == Around(scheme, body, ")", tail)
  {}

  lemma UrlIsShape(s: string)
    requires MatchUrl(s).Some?
    ensures var url := MatchUrl(s).value; GoodUrl(url.body) && s == url.body + (")" + url.tail)
  {
    var scheme := Scheme(s);
    EnclosedIsShape(scheme, URL_CHAR, ")", s);
    var url := Enclosed(scheme, URL_CHAR, ")", s).value;
    UrlAround(scheme, url.body, url.tail);
    SchemeOf(s, url.body);
    StartsWith(scheme, url.body);
  }

  lemma LinkIsFound(caption: string, href: string, tail: string)
    requires Good(Link(caption, href))
    ensures MatchLink(Wrap(Link(caption, href), tail)) == Some(LinkMatch(caption, href, tail))
  {
    EnclosedIsFound("[", NOT_BRACKET, "](", caption, href + (")" + tail));
    UrlIsFound(href, tail);
  }

  lemma LinkIsShape(s: string)
    requires MatchLink(s).Some?
    ensures var link := MatchLink(s).value;
            Good(Link(link.caption, link.href)) && s == Wrap(Link(link.caption, link.href), link.tail)
  {
    EnclosedIsShape("[", NOT_BRACKET, "](", s);
    UrlIsShape(Enclosed("[", NOT_BRACKET, "](", s).value.tail);
  }

  lemma AroundStarts(open: string, body: string, close: string, tail: string, mark: string)
    requires open != "" && mark != ""
    ensures Starts(Around(open, body, close, tail), open)
    ensures open[0] != mark[0] ==> !Starts(Around(open, body, close, tail), mark)
  {
    StartsWith(open, body + (close + tail));
    assert Around(open, body, close, tail)[0] == open[0];
    assert Starts(Around(open, body, close, tail), mark) ==> Around(open, body, close, tail)[..|mark|][0] == mark[0];
  }

  lemma Openings(mark: Mark, tail: string)
    requires Good(mark)
    ensures Starts(Wrap(mark, tail), "**") <==> mark.Strong?
    ensures Starts(Wrap(mark, tail), "`") <==> mark.InlineCode?
  {
    match mark
    case Strong(text) => AroundStarts("**", text, "**", tail, "`");
    case InlineCode(text) => AroundStarts("`", text, "`", tail, "**");
    case Link(caption, href) =>
      AroundStarts("[", caption, "](", href + (")" + tail), "**");
      AroundStarts("[", caption, "](", href + (")" + tail), "`");
  }

  lemma NotEnclosed(open: string, p: Class, close: string, s: string)
    requires !Starts(s, open)
    ensures Enclosed(open, p, close, s) == None
  {}

  /** A good mark in its delimiters is a token, whatever text follows it. */
  lemma GoodIsToken(mark: Mark, tail: string)
    requires Good(mark)
    ensures AfterToken(Wrap(mark, tail)) == Some(tail)
  {
    Openings(mark, tail);
    match mark
    case Strong(text) => EnclosedIsFound("**", NOT_STAR, "**", text, tail);
    case InlineCode(text) => EnclosedIsFound("`", NOT_TICK, "`", text, tail);
    case Link(caption, href) =>
      NotEnclosed("`", NOT_TICK, "`", Wrap(mark, tail));
      LinkIsFound(caption, href, tail);
  }

  /** A token is a good mark in its delimiters. */
  lemma TokenIsGood(s: string) returns (mark: Mark)
    requires AfterToken(s).Some?
    ensures Good(mark) && s == Wrap(mark, AfterToken(s).value)
  {
    var bold, code := Enclosed("**", NOT_STAR, "**", s), Enclosed("`", NOT_TICK, "`", s);
    if Starts(s, "**") && bold.Some? {
      EnclosedIsShape("**", NOT_STAR, "**", s);
      mark := Strong(bold.value.body);
    } else if !Starts(s, "**") && code.Some? {
      EnclosedIsShape("`", NOT_TICK, "`", s);
      mark := InlineCode(code.value.body);
    } else {
      LinkIsShape(s);
      mark := Link(MatchLink(s).value.caption, MatchLink(s).value.href);
    }
  }

  lemma SliceBack(open: string, body: string, close: string)
    ensures Slice(Around(open, body, close, ""), |open|, |close|) == body
  {
    assert Around(open, body, close, "")[|open|..] == body + (close + "");
  }

  /** The anchored link pattern never fails on a token, and the slices recover what the delimiters enclose. */
  lemma ReadTokenRecovers(mark: Mark)
    requires Good(mark)
    ensures ReadToken(Wrap(mark, "")) == [mark]
  {
    Openings(mark, "");
    match mark
    case Strong(text) => SliceBack("**", text, "**");
    case InlineCode(text) => SliceBack("`", text, "`");
    case Link(caption, href) => LinkIsFound(caption, href, "");
  }

  function Bare(mark: Mark): string {
    Wrap(mark, "")
  }

  const INLINE: Grammar<Mark> := Grammar(AfterToken, Good, Bare, ReadToken)

  lemma WrapAlone(mark: Mark, tail: string)
    ensures Wrap(mark, tail) == Bare(mark) + tail
  {
    WrapTail(mark, "", tail);
    assert "" + tail == tail;
  }

  lemma InlineFindsGood(s: string)
    ensures FindsGood(INLINE, s)
  {
    if AfterToken(s).Some? {
      var mark := TokenIsGood(s);
      WrapAlone(mark, AfterToken(s).value);
    }
  }

  lemma InlineReadsBack(mark: Mark, tail: string)
    ensures ReadsBack(INLINE, mark, tail)
  {
    if Good(mark) {
      WrapAlone(mark, tail);
      GoodIsToken(mark, tail);
      ReadTokenRecovers(mark);
    }
  }

  /** The inline pattern matches exactly the good marks in their delimiters, and the slices read them back. */
  lemma InlineIsSound()
    ensures Sound(INLINE)
  {
    forall s ensures FindsGood(INLINE, s) {
      InlineFindsGood(s);
    }
    forall mark, tail ensures ReadsBack(INLINE, mark, tail) {
      InlineReadsBack(mark, tail);
    }
  }

  /** Whatever the text, re-wrapping its nodes gives it back, and no other clean node sequence does. */
  lemma InlineIsBijection(text: string, nodes: seq<Node<Mark>>)
    ensures Read(INLINE, text) == nodes <==> Clean(INLINE, nodes) && Write(INLINE, nodes) == text
  {
    InlineIsSound();
    ReadingIsBijection(INLINE, text, nodes);
  }

  /** No token is dropped: each match gives one node. */
  lemma NothingIsLost(text: string)
    ensures Write(INLINE, Read(INLINE, text)) == text
  {
    InlineIsBijection(text, Read(INLINE, text));
  }

  method InlineMarkdown(text: string) returns (nodes: seq<Node<Mark>>)
    ensures nodes == Read(INLINE, text)
  {
    TokensAreBounded(INLINE);
    nodes := Scan(TokenLength(INLINE), SegmentNodes(INLINE), text);
  }
}
