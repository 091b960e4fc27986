module MarkedText {
  import opened Wrappers
  import opened Tokenising

  // Text with marked-up tokens: what a scanner must provide for reading and writing to be
  // inverse to each other.

  datatype Node<T> = Plain(text: string) | Marked(mark: T)

  // after: what a token at the start of a text leaves behind it; read: what a token is read as; wrap: a mark in its delimiters.
  datatype Grammar<!T> = Grammar(after: string -> Option<string>, good: T -> bool, wrap: T -> string, read: string -> seq<T>)

  ghost predicate FindsGood<T(!new)>(g: Grammar<T>, s: string) {
    g.after(s).Some? ==> exists mark :: g.good(mark) && s == g.wrap(mark) + g.after(s).value
  }

  ghost predicate ReadsBack<T>(g: Grammar<T>, mark: T, tail: string) {
    g.good(mark) ==>
      g.wrap(mark) != "" && g.after(g.wrap(mark) + tail) == Some(tail) && g.read(g.wrap(mark)) == [mark]
  }

  // A text starts with a token exactly when it starts with a good mark in its delimiters, and the mark is read back.
  ghost predicate Sound<T(!new)>(g: Grammar<T>) {
    && (forall s :: FindsGood(g, s))
    && (forall mark, tail :: ReadsBack(g, mark, tail))
  }

  function TokenLength<T>(g: Grammar<T>): Matcher {
    (s: string, i: nat) =>
      if i > |s| then 0
      else match g.after(s[i..])
           case Some(tail) => if |tail| < |s| - i then |s| - i - |tail| else 0
           case None => 0
  }

  lemma TokensAreBounded<T>(g: Grammar<T>)
    ensures Bounded(TokenLength(g))
  {}

  function Marks<T>(marks: seq<T>): seq<Node<T>> {
    if marks == [] then [] else [Marked(marks[0])] + Marks(marks[1..])
  }

  function SegmentNodes<T>(g: Grammar<T>): Segment -> seq<Node<T>> {
    (segment: Segment) =>
      match segment
      case Gap(text) => [Plain(text)]
      case Token(text) => Marks(g.read(text))
  }

  function NodesOf<T>(g: Grammar<T>, segments: seq<Segment>): seq<Node<T>> {
    Shown(SegmentNodes(g), segments)
  }

  /** The nodes of a text: the gaps as they are, the tokens as they are read. */
  function Read<T>(g: Grammar<T>, text: string): seq<Node<T>> {
    TokensAreBounded(g);
    NodesOf(g, Segments(TokenLength(g), text, 0))
  }

  function Wrapped<T>(g: Grammar<T>, node: Node<T>): string {
    match node
    case Plain(text) => text
    case Marked(mark) => g.wrap(mark)
  }

  /** The text of a node sequence, each mark back in its delimiters. */
  function Write<T>(g: Grammar<T>, nodes: seq<Node<T>>): string {
    if nodes == [] then "" else Wrapped(g, nodes[0]) + Write(g, nodes[1..])
  }

  function SegmentOf<T>(g: Grammar<T>, node: Node<T>): Segment {
    if node.Plain? then Gap(Wrapped(g, node)) else Token(Wrapped(g, node))
  }

  function SegmentsOf<T>(g: Grammar<T>, nodes: seq<Node<T>>): seq<Segment> {
    if nodes == [] then [] else [SegmentOf(g, nodes[0])] + SegmentsOf(g, nodes[1..])
  }

  // No token starts inside the first n characters.
  ghost predicate Quiet<T>(g: Grammar<T>, s: string, n: nat) {
    NoMatch(TokenLength(g), s, 0, n)
  }

  // Marks are good; plain text is maximal and hides no token, not even one that it forms with what follows.
  ghost predicate Clean<T>(g: Grammar<T>, nodes: seq<Node<T>>) {
    nodes != [] ==>
      && (match nodes[0]
          case Plain(text) => text != "" && Quiet(g, Write(g, nodes), |text|) && (|nodes| > 1 ==> nodes[1].Marked?)
          case Marked(mark) => g.good(mark))
      && Clean(g, nodes[1..])
  }

  lemma TokenFromSuffix<T>(g: Grammar<T>, s: string, i: nat, j: nat)
    requires i + j <= |s|
    ensures TokenLength(g)(s[i..], j) == TokenLength(g)(s, i + j)
  {
    assert s[i..][j..] == s[i + j..];
  }

  lemma QuietAt<T>(g: Grammar<T>, s: string, i: nat, n: nat)
    requires i + n <= |s|
    ensures Quiet(g, s[i..], n) <==> NoMatch(TokenLength(g), s, i, i + n)
  {
    forall j: nat | j < n ensures TokenLength(g)(s[i..], j) == TokenLength(g)(s, i + j) {
      TokenFromSuffix(g, s, i, j);
    }
    if Quiet(g, s[i..], n) {
      forall j: nat | i <= j < i + n ensures TokenLength(g)(s, j) == 0 {
        assert TokenLength(g)(s[i..], j - i) == 0;
      }
    }
  }

  lemma PrefixAt(s: string, i: nat, prefix: string, tail: string)
    requires i <= |s| && s[i..] == prefix + tail
    ensures i + |prefix| <= |s| && s[i..i + |prefix|] == prefix && s[i + |prefix|..] == tail
  {
    assert s[i..][..|prefix|] == s[i..i + |prefix|];
    assert s[i..][|prefix|..] == s[i + |prefix|..];
  }

  // A good mark is a token wherever it stands.
  lemma MarkFits<T(!new)>(g: Grammar<T>, s: string, i: nat, mark: T, tail: string)
    requires Sound(g) && i <= |s| && g.good(mark) && s[i..] == g.wrap(mark) + tail
    ensures i < |s| && Fits(TokenLength(g), s, i, Token(g.wrap(mark)))
  {
    assert ReadsBack(g, mark, tail);
    PrefixAt(s, i, g.wrap(mark), tail);
  }

  lemma TokenAt<T(!new)>(g: Grammar<T>, s: string, i: nat) returns (mark: T)
    requires Sound(g) && i <= |s| && TokenLength(g)(s, i) > 0
    ensures g.good(mark) && s[i..i + TokenLength(g)(s, i)] == g.wrap(mark) && g.read(g.wrap(mark)) == [mark]
  {
    var rest := s[i..];
    assert FindsGood(g, rest);
    mark :| g.good(mark) && rest == g.wrap(mark) + g.after(rest).value;
    PrefixAt(s, i, g.wrap(mark), g.after(rest).value);
    assert ReadsBack(g, mark, "");
  }

  lemma PlainFits<T(!new)>(g: Grammar<T>, s: string, i: nat, nodes: seq<Node<T>>)
    requires Sound(g) && i <= |s| && nodes != [] && nodes[0].Plain? && Clean(g, nodes) && s[i..] == Write(g, nodes)
    ensures Fits(TokenLength(g), s, i, Gap(nodes[0].text))
  {
    var text, rest := nodes[0].text, nodes[1..];
    PrefixAt(s, i, text, Write(g, rest));
    QuietAt(g, s, i, |text|);
    if rest != [] {
      MarkFits(g, s, i + |text|, rest[0].mark, Write(g, rest[1..]));
    }
  }

  lemma {:induction false} CleanIsSettled<T(!new)>(g: Grammar<T>, s: string, i: nat, nodes: seq<Node<T>>)
    requires Sound(g) && i <= |s| && Clean(g, nodes) && s[i..] == Write(g, nodes)
    ensures Settled(TokenLength(g), s, i, SegmentsOf(g, nodes))
    decreases |nodes|
  {
    if nodes != [] {
      var head, tail := Wrapped(g, nodes[0]), Write(g, nodes[1..]);
      if nodes[0].Plain? {
        PlainFits(g, s, i, nodes);
      } else {
        MarkFits(g, s, i, nodes[0].mark, tail);
      }
      PrefixAt(s, i, head, tail);
      CleanIsSettled(g, s, i + |head|, nodes[1..]);
      assert SegmentsOf(g, nodes)[1..] == SegmentsOf(g, nodes[1..]);
    }
  }

  lemma OneMark<T>(mark: T)
    ensures Marks([mark]) == [Marked(mark)]
  {}

  lemma SegmentIsRead<T(!new)>(g: Grammar<T>, node: Node<T>)
    requires Sound(g) && (node.Marked? ==> g.good(node.mark))
    ensures SegmentNodes(g)(SegmentOf(g, node)) == [node]
  {
    if node.Marked? {
      assert ReadsBack(g, node.mark, "");
      OneMark(node.mark);
    }
  }

  lemma {:induction false} NodesOfSegmentsOf<T(!new)>(g: Grammar<T>, nodes: seq<Node<T>>)
    requires Sound(g) && Clean(g, nodes)
    ensures NodesOf(g, SegmentsOf(g, nodes)) == nodes
  {
    if nodes != [] {
      SegmentIsRead(g, nodes[0]);
      NodesOfSegmentsOf(g, nodes[1..]);
      assert SegmentsOf(g, nodes)[1..] == SegmentsOf(g, nodes[1..]);
      assert nodes == [nodes[0]] + nodes[1..];
    }
  }

  /** Clean nodes are read back from what they write. */
  lemma CleanIsRead<T(!new)>(g: Grammar<T>, nodes: seq<Node<T>>)
    requires Sound(g) && Clean(g, nodes)
    ensures Read(g, Write(g, nodes)) == nodes
  {
    TokensAreBounded(g);
    CleanIsSettled(g, Write(g, nodes), 0, nodes);
    SettledIsSegments(TokenLength(g), Write(g, nodes), 0, SegmentsOf(g, nodes));
    NodesOfSegmentsOf(g, nodes);
  }

  ghost predicate ReadsFrom<T>(g: Grammar<T>, s: string, i: nat, nodes: seq<Node<T>>)
    requires i <= |s|
  {
    Write(g, nodes) == s[i..] && Clean(g, nodes)
  }

  lemma PrependMark<T>(g: Grammar<T>, s: string, i: nat, mark: T, rest: seq<Node<T>>)
    requires g.good(mark) && i + |g.wrap(mark)| <= |s|
    requires s[i..i + |g.wrap(mark)|] == g.wrap(mark) && ReadsFrom(g, s, i + |g.wrap(mark)|, rest)
    ensures ReadsFrom(g, s, i, [Marked(mark)] + rest)
  {
    assert ([Marked(mark)] + rest)[1..] == rest;
    assert s[i..] == g.wrap(mark) + s[i + |g.wrap(mark)|..];
  }

  lemma PrependPlain<T>(g: Grammar<T>, s: string, i: nat, text: string, rest: seq<Node<T>>)
    requires text != "" && i + |text| <= |s| && s[i..i + |text|] == text && ReadsFrom(g, s, i + |text|, rest)
    requires NoMatch(TokenLength(g), s, i, i + |text|) && (rest != [] ==> rest[0].Marked?)
    ensures ReadsFrom(g, s, i, [Plain(text)] + rest)
  {
    assert ([Plain(text)] + rest)[1..] == rest;
    assert s[i..] == text + s[i + |text|..];
    QuietAt(g, s, i, |text|);
  }

  lemma {:induction false} SettledIsClean<T(!new)>(g: Grammar<T>, s: string, i: nat, segments: seq<Segment>)
    requires Sound(g) && i <= |s| && Settled(TokenLength(g), s, i, segments)
    ensures ReadsFrom(g, s, i, NodesOf(g, segments))
    ensures NodesOf(g, segments) != [] <==> segments != []
    ensures segments != [] ==> (segments[0].Gap? <==> NodesOf(g, segments)[0].Plain?)
    decreases |segments|
  {
    if segments != [] {
      var rest := NodesOf(g, segments[1..]);
      SettledIsClean(g, s, i + |segments[0].text|, segments[1..]);
      if segments[0].Token? {
        var mark := TokenAt(g, s, i);
        OneMark(mark);
        PrependMark(g, s, i, mark, rest);
      } else {
        PrependPlain(g, s, i, segments[0].text, rest);
      }
    }
  }

  lemma ReadingIsClean<T(!new)>(g: Grammar<T>, text: string)
    requires Sound(g)
    ensures Write(g, Read(g, text)) == text && Clean(g, Read(g, text))
  {
    TokensAreBounded(g);
    SegmentsSettle(TokenLength(g), text, 0);
    SettledIsClean(g, text, 0, Segments(TokenLength(g), text, 0));
  }

  /** Reading and writing are inverse bijections between texts and clean node sequences. */
  lemma ReadingIsBijection<T(!new)>(g: Grammar<T>, text: string, nodes: seq<Node<T>>)
    requires Sound(g)
    ensures Read(g, text) == nodes <==> Clean(g, nodes) && Write(g, nodes) == text
  {
    ReadingIsClean(g, text);
    if Clean(g, nodes) {
      CleanIsRead(g, nodes);
    }
  }
}
