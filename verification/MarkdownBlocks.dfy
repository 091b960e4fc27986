/**
 * The block reader of assistant messages.
 *
 * The reader is stated over any way to tell fences, list items and blank lines apart, so that
 * nothing here depends on the line patterns. A line is read into a state of finished blocks, a
 * pending list and a pending code block; a printer writes blocks as lines, with a blank line
 * between two adjacent lists.
 *
 * Proved here: what is read is well formed, well-formed blocks survive printing and reading,
 * and on arbitrary lines every line is shown once, according to the fences before it.
 */
module MarkdownBlocks {
  import opened Wrappers
  import opened LinePatterns

  // What a single line is.
  datatype Kind = FenceLine(language: string) | ItemLine(item: string) | BlankLine | TextLine

  type Syntax = string -> Kind

  // A code block is displayed as its lines joined with line feeds.
  datatype Block =
    | Paragraph(text: string)
    | Bullets(items: seq<string>)
    | Code(language: string, lines: seq<string>)

  datatype Reader = Reader(blocks: seq<Block>, items: seq<string>, code: Option<seq<string>>, language: string) {

    function FlushList(): Reader {
      if items == [] then this else this.(blocks := blocks + [Bullets(items)], items := [])
    }

    function FlushCode(): Reader {
      if code.None? then this
      else this.(blocks := blocks + [Code(language, code.value)], code := None, language := "text")
    }

    function Read(kind: Syntax, line: string): Reader {
      match kind(line)
      case FenceLine(tag) =>
        if code.Some? then FlushCode() else FlushList().(code := Some([]), language := tag)
      case other =>
        if code.Some? then this.(code := Some(code.value + [line]))
        else match other
             case ItemLine(item) => this.(items := items + [item])
             case BlankLine => FlushList()
             case _ => FlushList().(blocks := FlushList().blocks + [Paragraph(line)])
    }

    function ReadAll(kind: Syntax, lines: seq<string>): Reader {
      if lines == [] then this else ReadAll(kind, lines[..|lines| - 1]).Read(kind, lines[|lines| - 1])
    }

    function Finish(): seq<Block> {
      FlushList().FlushCode().blocks
    }
  }

  const EMPTY: Reader := Reader([], [], None, "text")

  function Parse(kind: Syntax, lines: seq<string>): seq<Block> {
    EMPTY.ReadAll(kind, lines).Finish()
  }

  lemma {:induction false} ReadAllAppends(kind: Syntax, r: Reader, a: seq<string>, b: seq<string>)
    ensures r.ReadAll(kind, a + b) == r.ReadAll(kind, a).ReadAll(kind, b)
  {
    if b == [] {
      assert a + b == a;
    } else {
      assert (a + b)[..|a + b| - 1] == a + b[..|b| - 1];
      ReadAllAppends(kind, r, a, b[..|b| - 1]);
    }
  }

  lemma ReadOne(kind: Syntax, r: Reader, line: string)
    ensures r.ReadAll(kind, [line]) == r.Read(kind, line)
  {
    assert [line][..0] == [];
  }

  // What every block that comes out of the reader looks like.
  ghost predicate ItemOk(kind: Syntax, item: string) {
    '\n' !in item && kind("- " + item) == ItemLine(item)
  }

  ghost predicate LanguageOk(kind: Syntax, language: string) {
    '\n' !in language && kind(FENCE + language) == FenceLine(language)
  }

  ghost predicate CodeLineOk(kind: Syntax, line: string) {
    '\n' !in line && !kind(line).FenceLine?
  }

  ghost predicate CodeOk(kind: Syntax, lines: seq<string>) {
    forall i :: 0 <= i < |lines| ==> CodeLineOk(kind, lines[i])
  }

  ghost predicate ItemsOk(kind: Syntax, items: seq<string>) {
    forall i :: 0 <= i < |items| ==> ItemOk(kind, items[i])
  }

  ghost predicate BlockOk(kind: Syntax, block: Block) {
    match block
    case Paragraph(text) => '\n' !in text && kind(text) == TextLine
    case Bullets(items) => items != [] && ItemsOk(kind, items)
    case Code(language, lines) => LanguageOk(kind, language) && CodeOk(kind, lines)
  }

  ghost predicate WellFormed(kind: Syntax, blocks: seq<Block>) {
    forall i :: 0 <= i < |blocks| ==> BlockOk(kind, blocks[i])
  }

  // What the reader needs of a syntax: an item or a tag that was read can be printed and read again.
  ghost predicate Printable(kind: Syntax, line: string) {
    match kind(line)
    case FenceLine(language) => LanguageOk(kind, language)
    case ItemLine(item) => ItemOk(kind, item)
    case _ => true
  }

  ghost predicate AllPrintable(kind: Syntax) {
    forall line {:trigger Printable(kind, line)} :: '\n' !in line ==> Printable(kind, line)
  }

  ghost predicate Marks(kind: Syntax) {
    kind("") == BlankLine && kind(FENCE).FenceLine?
  }

  ghost predicate Sound(kind: Syntax) {
    Marks(kind) && AllPrintable(kind)
  }

  ghost predicate OneLiners(lines: seq<string>) {
    forall i :: 0 <= i < |lines| ==> '\n' !in lines[i]
  }

  ghost predicate ReaderOk(kind: Syntax, r: Reader) {
    && WellFormed(kind, r.blocks) && ItemsOk(kind, r.items)
    && (r.code.Some? ==> LanguageOk(kind, r.language) && CodeOk(kind, r.code.value) && r.items == [])
  }

  lemma ReadKeepsOk(kind: Syntax, r: Reader, line: string)
    requires Sound(kind) && ReaderOk(kind, r) && '\n' !in line
    ensures ReaderOk(kind, r.Read(kind, line))
  {
    assert Printable(kind, line);
    var flushed := r.FlushList();
    assert ReaderOk(kind, flushed);
  }

  lemma {:induction false} ReadAllKeepsOk(kind: Syntax, r: Reader, lines: seq<string>)
    requires Sound(kind) && ReaderOk(kind, r) && OneLiners(lines)
    ensures ReaderOk(kind, r.ReadAll(kind, lines))
  {
    if lines != [] {
      ReadAllKeepsOk(kind, r, lines[..|lines| - 1]);
      ReadKeepsOk(kind, r.ReadAll(kind, lines[..|lines| - 1]), lines[|lines| - 1]);
    }
  }

  lemma ParsedIsWellFormed(kind: Syntax, lines: seq<string>)
    requires Sound(kind) && OneLiners(lines)
    ensures WellFormed(kind, Parse(kind, lines))
  {
    ReadAllKeepsOk(kind, EMPTY, lines);
  }

  // The printer. A blank line keeps two adjacent lists apart.
  function PrintItems(items: seq<string>): seq<string> {
    if items == [] then [] else PrintItems(items[..|items| - 1]) + ["- " + items[|items| - 1]]
  }

  function PrintBlock(block: Block): seq<string> {
    match block
    case Paragraph(text) => [text]
    case Bullets(items) => PrintItems(items)
    case Code(language, lines) => [FENCE + language] + lines + [FENCE]
  }

  function Gap(blocks: seq<Block>): seq<string> {
    if |blocks| > 1 && blocks[0].Bullets? && blocks[1].Bullets? then [""] else []
  }

  function Print(blocks: seq<Block>): seq<string> {
    if blocks == [] then [] else PrintBlock(blocks[0]) + Gap(blocks) + Print(blocks[1..])
  }

  lemma {:induction false} ReadItems(kind: Syntax, r: Reader, items: seq<string>)
    requires r.code.None? && ItemsOk(kind, items)
    ensures r.ReadAll(kind, PrintItems(items)) == r.(items := r.items + items)
  {
    if items == [] {
      assert r.items + items == r.items;
    } else {
      var init, last := items[..|items| - 1], items[|items| - 1];
      ReadItems(kind, r, init);
      ReadAllAppends(kind, r, PrintItems(init), ["- " + last]);
      ReadOne(kind, r.ReadAll(kind, PrintItems(init)), "- " + last);
      assert ItemOk(kind, last);
      assert items == init + [last];
      assert r.items + items == r.items + init + [last];
    }
  }

  lemma {:induction false} ReadCode(kind: Syntax, r: Reader, lines: seq<string>)
    requires r.code.Some? && CodeOk(kind, lines)
    ensures r.ReadAll(kind, lines) == r.(code := Some(r.code.value + lines))
  {
    if lines == [] {
      assert r.code.value + lines == r.code.value;
    } else {
      ReadCode(kind, r, lines[..|lines| - 1]);
      assert CodeLineOk(kind, lines[|lines| - 1]);
      assert r.code.value + lines == r.code.value + lines[..|lines| - 1] + [lines[|lines| - 1]];
    }
  }

  lemma ReadFigure(kind: Syntax, r: Reader, language: string, lines: seq<string>)
    requires Marks(kind) && r.code.None? && LanguageOk(kind, language) && CodeOk(kind, lines)
    ensures r.ReadAll(kind, PrintBlock(Code(language, lines)))
         == Reader(r.FlushList().blocks + [Code(language, lines)], [], None, "text")
  {
    var started := r.Read(kind, FENCE + language);
    ReadOne(kind, r, FENCE + language);
    ReadAllAppends(kind, r, [FENCE + language], lines);
    ReadCode(kind, started, lines);
    assert started.code.value + lines == lines;
    ReadAllAppends(kind, r, [FENCE + language] + lines, [FENCE]);
    ReadOne(kind, r.ReadAll(kind, [FENCE + language] + lines), FENCE);
  }

  lemma BlankFlushes(kind: Syntax, r: Reader)
    requires Marks(kind) && r.code.None?
    ensures r.ReadAll(kind, [""]) == r.FlushList()
  {
    ReadOne(kind, r, "");
  }

  // A reader that printed blocks may follow: no list is pending in front of a list.
  ghost predicate Ready(r: Reader, blocks: seq<Block>) {
    r.code.None? && r.language == "text" && (blocks != [] && blocks[0].Bullets? ==> r.items == [])
  }

  lemma ReadBlock(kind: Syntax, r: Reader, blocks: seq<Block>)
    requires Marks(kind) && blocks != [] && Ready(r, blocks) && BlockOk(kind, blocks[0])
    ensures var next := r.ReadAll(kind, PrintBlock(blocks[0]) + Gap(blocks));
            Ready(next, blocks[1..]) && next.FlushList().blocks == r.FlushList().blocks + [blocks[0]]
  {
    var block := blocks[0];
    ReadAllAppends(kind, r, PrintBlock(block), Gap(blocks));
    match block
    case Paragraph(text) => ReadOne(kind, r, text);
    case Bullets(items) =>
      ReadItems(kind, r, items);
      assert r.items + items == items;
      BlankFlushes(kind, r.ReadAll(kind, PrintBlock(block)));
    case Code(language, lines) => ReadFigure(kind, r, language, lines);
  }

  lemma PrintsInTwoParts(kind: Syntax, r: Reader, blocks: seq<Block>)
    requires blocks != []
    ensures r.ReadAll(kind, Print(blocks)) == r.ReadAll(kind, PrintBlock(blocks[0]) + Gap(blocks)).ReadAll(kind, Print(blocks[1..]))
  {
    ReadAllAppends(kind, r, PrintBlock(blocks[0]) + Gap(blocks), Print(blocks[1..]));
  }

  lemma Joined<T>(a: seq<T>, b: seq<T>)
    requires b != []
    ensures a + [b[0]] + b[1..] == a + b
  {}

  lemma NothingToRead(kind: Syntax, r: Reader)
    requires r.code.None?
    ensures r.ReadAll(kind, Print([])).Finish() == r.FlushList().blocks
  {}

  lemma TailIsWellFormed(kind: Syntax, blocks: seq<Block>)
    requires WellFormed(kind, blocks) && blocks != []
    ensures BlockOk(kind, blocks[0]) && WellFormed(kind, blocks[1..])
  {}

  lemma {:induction false} ReadsPrinted(kind: Syntax, r: Reader, blocks: seq<Block>)
    requires Marks(kind) && WellFormed(kind, blocks) && Ready(r, blocks)
    ensures r.ReadAll(kind, Print(blocks)).Finish() == r.FlushList().blocks + blocks
    decreases |blocks|
  {
    if blocks == [] {
      NothingToRead(kind, r);
      assert r.FlushList().blocks + [] == r.FlushList().blocks;
    } else {
      var next := r.ReadAll(kind, PrintBlock(blocks[0]) + Gap(blocks));
      TailIsWellFormed(kind, blocks);
      ReadBlock(kind, r, blocks);
      PrintsInTwoParts(kind, r, blocks);
      ReadsPrinted(kind, next, blocks[1..]);
      Joined(r.FlushList().blocks, blocks);
    }
  }

  lemma EmptyIsReady(blocks: seq<Block>)
    ensures Ready(EMPTY, blocks) && EMPTY.FlushList().blocks + blocks == blocks
  {}

  lemma PrintedIsParsed(kind: Syntax, blocks: seq<Block>)
    requires Marks(kind) && WellFormed(kind, blocks)
    ensures Parse(kind, Print(blocks)) == blocks
  {
    EmptyIsReady(blocks);
    ReadsPrinted(kind, EMPTY, blocks);
  }

  lemma {:induction false} ItemsAreOneLiners(kind: Syntax, items: seq<string>)
    requires ItemsOk(kind, items)
    ensures OneLiners(PrintItems(items)) && |PrintItems(items)| == |items|
  {
    if items != [] {
      ItemsAreOneLiners(kind, items[..|items| - 1]);
      assert ItemOk(kind, items[|items| - 1]);
    }
  }

  lemma BlockIsOneLiners(kind: Syntax, block: Block)
    requires BlockOk(kind, block)
    ensures OneLiners(PrintBlock(block)) && PrintBlock(block) != []
  {
    match block
    case Paragraph(_) =>
    case Bullets(items) => ItemsAreOneLiners(kind, items);
    case Code(language, lines) =>
      assert '\n' !in FENCE + language;
      assert forall i :: 0 <= i < |lines| ==> CodeLineOk(kind, lines[i]);
  }

  lemma {:induction false} PrintedIsOneLiners(kind: Syntax, blocks: seq<Block>)
    requires WellFormed(kind, blocks)
    ensures OneLiners(Print(blocks)) && (blocks != [] ==> Print(blocks) != [])
  {
    if blocks != [] {
      BlockIsOneLiners(kind, blocks[0]);
      PrintedIsOneLiners(kind, blocks[1..]);
    }
  }

  // What is displayed, piece by piece.
  datatype Piece = CodeLine(text: string) | Item(text: string) | Prose(text: string)

  function Pieces(show: string -> Piece, texts: seq<string>): seq<Piece> {
    if texts == [] then [] else Pieces(show, texts[..|texts| - 1]) + [show(texts[|texts| - 1])]
  }

  function ShownItems(items: seq<string>): seq<Piece> {
    Pieces(t => Item(t), items)
  }

  function ShownCode(lines: seq<string>): seq<Piece> {
    Pieces(t => CodeLine(t), lines)
  }

  function Shown(block: Block): seq<Piece> {
    match block
    case Paragraph(text) => [Prose(text)]
    case Bullets(items) => ShownItems(items)
    case Code(_, lines) => ShownCode(lines)
  }

  function ShownAll(blocks: seq<Block>): seq<Piece> {
    if blocks == [] then [] else ShownAll(blocks[..|blocks| - 1]) + Shown(blocks[|blocks| - 1])
  }

  // The fence lines among the first n.
  function Fences(kind: Syntax, lines: seq<string>, n: nat): nat
    requires n <= |lines|
  {
    if n == 0 then 0 else Fences(kind, lines, n - 1) + if kind(lines[n - 1]).FenceLine? then 1 else 0
  }

  predicate InCode(kind: Syntax, lines: seq<string>, n: nat)
    requires n <= |lines|
  {
    Fences(kind, lines, n) % 2 == 1
  }

  lemma FenceTogglesCode(kind: Syntax, lines: seq<string>, n: nat)
    requires n < |lines|
    ensures InCode(kind, lines, n + 1) <==> (kind(lines[n]).FenceLine? <==> !InCode(kind, lines, n))
  {}

  function LineShows(kind: Kind, line: string, inCode: bool): seq<Piece> {
    match kind
    case FenceLine(_) => []
    case other =>
      if inCode then [CodeLine(line)]
      else match other
           case ItemLine(item) => [Item(item)]
           case BlankLine => []
           case _ => [Prose(line)]
  }

  // Each line on its own: code exactly when an odd number of fence lines precede it.
  function LinesShow(kind: Syntax, lines: seq<string>, n: nat): seq<Piece>
    requires n <= |lines|
  {
    if n == 0 then [] else LinesShow(kind, lines, n - 1) + LineShows(kind(lines[n - 1]), lines[n - 1], InCode(kind, lines, n - 1))
  }

  lemma ShownAllSnoc(blocks: seq<Block>, block: Block)
    ensures ShownAll(blocks + [block]) == ShownAll(blocks) + Shown(block)
  {
    assert (blocks + [block])[..|blocks|] == blocks;
  }

  // What has been read but not yet put into a block.
  function Pending(r: Reader): seq<Piece> {
    match r.code
    case Some(lines) => ShownCode(lines)
    case None => ShownItems(r.items)
  }

  ghost predicate OnePending(r: Reader) {
    r.code.Some? ==> r.items == []
  }

  // What a reader would display if it finished now.
  function ShownBy(r: Reader): seq<Piece> {
    ShownAll(r.blocks) + Pending(r)
  }

  lemma FlushShowsPending(r: Reader)
    requires OnePending(r)
    ensures ShownAll(r.Finish()) == ShownBy(r)
    ensures r.code.None? ==> ShownAll(r.FlushList().blocks) == ShownBy(r)
  {
    if r.code.Some? {
      ShownAllSnoc(r.blocks, Code(r.language, r.code.value));
    } else if r.items != [] {
      ShownAllSnoc(r.blocks, Bullets(r.items));
    }
  }

  lemma PiecesSnoc(show: string -> Piece, texts: seq<string>, text: string)
    ensures Pieces(show, texts + [text]) == Pieces(show, texts) + [show(text)]
  {
    assert (texts + [text])[..|texts|] == texts;
  }

  lemma CodeShows(r: Reader, line: string)
    requires r.code.Some?
    ensures ShownBy(r.(code := Some(r.code.value + [line]))) == ShownBy(r) + [CodeLine(line)]
  {
    PiecesSnoc(t => CodeLine(t), r.code.value, line);
  }

  lemma ItemShows(r: Reader, item: string)
    requires r.code.None?
    ensures ShownBy(r.(items := r.items + [item])) == ShownBy(r) + [Item(item)]
  {
    PiecesSnoc(t => Item(t), r.items, item);
  }

  lemma TextShows(r: Reader, line: string)
    requires r.code.None?
    ensures var flushed := r.FlushList();
            && ShownBy(flushed) == ShownBy(r)
            && ShownBy(flushed.(blocks := flushed.blocks + [Paragraph(line)])) == ShownBy(r) + [Prose(line)]
  {
    FlushShowsPending(r);
    ShownAllSnoc(r.FlushList().blocks, Paragraph(line));
  }

  lemma FenceShows(kind: Syntax, r: Reader, line: string)
    requires kind(line).FenceLine? && OnePending(r)
    ensures ShownBy(r.Read(kind, line)) == ShownBy(r)
  {
    FlushShowsPending(r);
  }

  lemma ReadShows(kind: Syntax, r: Reader, line: string)
    requires OnePending(r)
    ensures ShownBy(r.Read(kind, line)) == ShownBy(r) + LineShows(kind(line), line, r.code.Some?)
  {
    if kind(line).FenceLine? {
      FenceShows(kind, r, line);
    } else if r.code.Some? {
      CodeShows(r, line);
    } else if kind(line).ItemLine? {
      ItemShows(r, kind(line).item);
    } else {
      TextShows(r, line);
    }
  }

  lemma FencesToggle(kind: Syntax, r: Reader, line: string)
    requires OnePending(r)
    ensures var next := r.Read(kind, line);
            OnePending(next) && (next.code.Some? <==> (kind(line).FenceLine? <==> r.code.None?))
  {}

  lemma LinesShowNext(kind: Syntax, lines: seq<string>, n: nat)
    requires n < |lines|
    ensures LinesShow(kind, lines, n + 1) ==
            LinesShow(kind, lines, n) + LineShows(kind(lines[n]), lines[n], InCode(kind, lines, n))
  {}

  ghost predicate Showing(kind: Syntax, lines: seq<string>, n: nat, r: Reader)
    requires n <= |lines|
  {
    OnePending(r) && (r.code.Some? <==> InCode(kind, lines, n)) && ShownBy(r) == LinesShow(kind, lines, n)
  }

  lemma NextShows(kind: Syntax, lines: seq<string>, n: nat, r: Reader)
    requires n < |lines| && Showing(kind, lines, n, r)
    ensures Showing(kind, lines, n + 1, r.Read(kind, lines[n]))
  {
    ReadShows(kind, r, lines[n]);
    FencesToggle(kind, r, lines[n]);
    LinesShowNext(kind, lines, n);
    FenceTogglesCode(kind, lines, n);
  }

  lemma {:induction false} PrefixShows(kind: Syntax, lines: seq<string>, n: nat)
    requires n <= |lines|
    ensures Showing(kind, lines, n, EMPTY.ReadAll(kind, lines[..n]))
  {
    if n > 0 {
      PrefixShows(kind, lines, n - 1);
      assert lines[..n][..n - 1] == lines[..n - 1];
      NextShows(kind, lines, n - 1, EMPTY.ReadAll(kind, lines[..n - 1]));
    }
  }

  /** On any lines at all, the display is the lines in order, each shown according to the parity of the fences before it. */
  lemma EveryLineIsShownOnce(kind: Syntax, lines: seq<string>)
    ensures ShownAll(Parse(kind, lines)) == LinesShow(kind, lines, |lines|)
  {
    PrefixShows(kind, lines, |lines|);
    assert lines[..|lines|] == lines;
    FlushShowsPending(EMPTY.ReadAll(kind, lines));
  }
}
