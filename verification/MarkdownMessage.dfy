/**
 * The Markdown of an assistant message: which lines are what, and the component that displays
 * them.
 *
 * The patterns of the source tell the lines apart; the theorems about any such notion of lines
 * are then applied to them, from the text of a message to the blocks on screen.
 */
module MarkdownMessage {
  import opened Wrappers
  import opened MarkdownText
  import opened MarkdownBlocks

  function LineKind(line: string): Kind {
    if FenceLanguage(line).Some? then FenceLine(FenceLanguage(line).value)
    else if ListItem(line).Some? then ItemLine(ListItem(line).value)
    else if IsBlank(line) then BlankLine
    else TextLine
  }

  lemma BlankLineIsBlank()
    ensures LineKind("") == BlankLine
  {}

  /** A list item can be printed and read again exactly when it has no line break and starts with no space, or is one space. */
  lemma ReadableItems(item: string)
    ensures MarkdownBlocks.ItemOk(LineKind, item) <==> MarkdownText.ItemOk(item)
  {
    if MarkdownText.ItemOk(item) {
      PrintedItemIsRead(item);
      PrintedItemIsNoFence(item);
    }
    if MarkdownBlocks.ItemOk(LineKind, item) {
      ReadItemIsOk("- " + item);
    }
  }

  /** A language tag can be printed and read again exactly when it is non-empty and in lower case. */
  lemma ReadableLanguages(language: string)
    ensures MarkdownBlocks.LanguageOk(LineKind, language) <==> MarkdownText.LanguageOk(language)
  {
    if MarkdownText.LanguageOk(language) {
      PrintedFenceIsRead(language);
      assert '\n' !in language;
    }
    if MarkdownBlocks.LanguageOk(LineKind, language) {
      ReadLanguageIsOk("```" + language);
    }
  }

  lemma EveryLineIsPrintable(line: string)
    ensures Printable(LineKind, line)
  {
    if FenceLanguage(line).Some? {
      ReadLanguageIsOk(line);
      ReadableLanguages(FenceLanguage(line).value);
    } else if ListItem(line).Some? {
      ReadItemIsOk(line);
      ReadableItems(ListItem(line).value);
    }
  }

  lemma LinesAreMarked()
    ensures Marks(LineKind)
  {
    BlankLineIsBlank();
    BareFenceIsRead();
  }

  lemma LinesArePrintable()
    ensures AllPrintable(LineKind)
  {
    forall line: string ensures Printable(LineKind, line) {
      EveryLineIsPrintable(line);
    }
  }

  lemma LineKindIsSound()
    ensures Sound(LineKind)
  {
    LinesAreMarked();
    LinesArePrintable();
  }

  function Markdown(content: string): seq<Block> {
    Parse(LineKind, Split(content))
  }

  function Printed(blocks: seq<Block>): string {
    JoinLines(Print(blocks))
  }

  ghost predicate Displayable(blocks: seq<Block>) {
    WellFormed(LineKind, blocks)
  }

  /** Any displayable blocks survive printing and reading, from text to text. */
  lemma RoundTrip(blocks: seq<Block>)
    requires Displayable(blocks)
    ensures Markdown(Printed(blocks)) == blocks
  {
    LinesAreMarked();
    if blocks == [] {
      BlankFlushes(LineKind, EMPTY);
    } else {
      PrintedIsOneLiners(LineKind, blocks);
      SplitUndoesJoin(Print(blocks));
      PrintedIsParsed(LineKind, blocks);
    }
  }

  lemma MarkdownIsDisplayable(content: string)
    ensures Displayable(Markdown(content))
  {
    LineKindIsSound();
    ParsedIsWellFormed(LineKind, Split(content));
  }

  /** The displayable blocks are exactly what some message displays. */
  lemma DisplayableIsDisplayed(blocks: seq<Block>)
    ensures Displayable(blocks) <==> exists content :: Markdown(content) == blocks
  {
    if Displayable(blocks) {
      RoundTrip(blocks);
    }
    if content :| Markdown(content) == blocks {
      MarkdownIsDisplayable(content);
    }
  }

  /** Printing what a message displays gives a message that displays the same. */
  lemma PrintingIsNormalForm(content: string)
    ensures Markdown(Printed(Markdown(content))) == Markdown(content)
  {
    MarkdownIsDisplayable(content);
    RoundTrip(Markdown(content));
  }

  /** The state the component's nested functions share. */
  class BlockReader {
    var blocks: seq<Block>
    var listItems: seq<string>
    var codeLines: Option<seq<string>>
    var codeLanguage: string

    function View(): Reader
      reads this
    {
      Reader(blocks, listItems, codeLines, codeLanguage)
    }

    constructor ()
      ensures View() == EMPTY
    {
      blocks, listItems, codeLines, codeLanguage := [], [], None, "text";
    }

    method FlushList()
      modifies this
      ensures View() == old(View()).FlushList()
    {
      if |listItems| == 0 {
        return;
      }
      blocks := blocks + [Bullets(listItems)];
      listItems := [];
    }

    method FlushCode()
      modifies this
      ensures View() == old(View()).FlushCode()
    {
      if codeLines.None? {
        return;
      }
      blocks := blocks + [Code(codeLanguage, codeLines.value)];
      codeLines := None;
      codeLanguage := "text";
    }

    method ReadLine(line: string)
      modifies this
      ensures View() == old(View()).Read(LineKind, line)
    {
      var fence := FenceLanguage(line);
      if fence.Some? {
        if codeLines.Some? {
          FlushCode();
        } else {
          FlushList();
          codeLines := Some([]);
          codeLanguage := fence.value;
        }
        return;
      }
      if codeLines.Some? {
        codeLines := Some(codeLines.value + [line]);
        return;
      }
      var item := ListItem(line);
      if item.Some? {
        listItems := listItems + [item.value];
        return;
      }
      FlushList();
      if !IsBlank(line) {
        blocks := blocks + [Paragraph(line)];
      }
    }
  }

  method ReadLines(reader: BlockReader, lines: seq<string>)
    modifies reader
    ensures reader.View() == old(reader.View()).ReadAll(LineKind, lines)
  {
    for i := 0 to |lines|
      invariant reader.View() == old(reader.View()).ReadAll(LineKind, lines[..i])
    {
      assert lines[..i + 1][..i] == lines[..i];
      reader.ReadLine(lines[i]);
    }
    assert lines[..|lines|] == lines;
  }

  method Display(content: string) returns (blocks: seq<Block>)
    ensures blocks == Markdown(content)
  {
    var lines := Split(content);
    var reader := new BlockReader();
    ReadLines(reader, lines);
    reader.FlushList();
    reader.FlushCode();
    blocks := reader.blocks;
  }

  /** The display shows every line of the message in order, each according to the number of fences before it. */
  lemma EveryLineIsShown(content: string)
    ensures var lines := Split(content); ShownAll(Markdown(content)) == LinesShow(LineKind, lines, |lines|)
  {
    EveryLineIsShownOnce(LineKind, Split(content));
  }
}
