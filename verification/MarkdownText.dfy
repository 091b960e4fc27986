/**
 * The string operations that the Markdown reader applies.
 *
 * White space is what `trim` and `\s` accept, and `.` matches everything but the four line
 * terminators; both are handed to the line patterns. A language tag is matched without regard
 * to case, but only in ASCII.
 */
module MarkdownText {
  import opened Wrappers
  import opened LinePatterns

  // What `.` does not match, and what `\s` and `trim` treat as white space.
  const DOT: Class := c => c != '\n' && c != '\r' && c != '\U{2028}' && c != '\U{2029}'

  const SPACE: Class := c =>
    || '\t' <= c <= '\r' || c == ' ' || c == '\U{00A0}' || c == '\U{1680}'
    || '\U{2000}' <= c <= '\U{200A}' || c == '\U{2028}' || c == '\U{2029}'
    || c == '\U{202F}' || c == '\U{205F}' || c == '\U{3000}' || c == '\U{FEFF}'

  // The letters of a tag, with the pattern's ignore-case flag and without it.
  const TAG: Class := c => LOWER_TAG(c) || 'A' <= c <= 'Z'

  const LOWER_TAG: Class := c => 'a' <= c <= 'z' || '0' <= c <= '9' || c == '_' || c == '-'

  function Lower(s: string): (r: string)
    ensures |r| == |s|
    ensures All(TAG, s) ==> All(LOWER_TAG, r)
    ensures All(LOWER_TAG, s) ==> r == s
    ensures forall i :: 0 <= i < |s| ==>
              r[i] as int == s[i] as int + if 'A' <= s[i] <= 'Z' then 32 else 0
  {
    if s == "" then ""
    else
      assert All(TAG, s) ==> All(TAG, s[1..]);
      [if 'A' <= s[0] <= 'Z' then s[0] - 'A' + 'a' else s[0]] + Lower(s[1..])
  }

  function FenceLanguage(line: string): (language: Option<string>) {
    match FenceTag(SPACE, TAG, line)
    case None => None
    case Some(tag) => Some(if tag == "" then "text" else Lower(tag))
  }

  // A fence has the language of its tag, in lower case, and a bare one is plain text.
  lemma TagIsLanguage(line: string, tag: string)
    requires FenceTag(SPACE, TAG, line) == Some(tag)
    ensures FenceLanguage(line).Some?
    ensures var language := FenceLanguage(line).value;
            if tag == "" then language == "text"
            else |language| == |tag| && forall i :: 0 <= i < |tag| ==>
                   language[i] as int == tag[i] as int + if 'A' <= tag[i] <= 'Z' then 32 else 0
  {}

  predicate IsFence(line: string) {
    FenceTag(SPACE, TAG, line).Some?
  }

  function ListItem(line: string): (item: Option<string>) {
    FindItem(SPACE, DOT, line)
  }

  predicate IsBlank(line: string) {
    Trim(SPACE, line) == ""
  }

  ghost predicate ItemOk(item: string) {
    Readable(SPACE, DOT, item)
  }

  predicate LanguageOk(language: string) {
    language != "" && All(LOWER_TAG, language)
  }

  lemma MarkersAndSpace()
    ensures MarkersAreNoSpace(SPACE) && SPACE(' ')
  {}

  lemma ReadItemIsOk(line: string)
    requires ListItem(line).Some?
    ensures ItemOk(ListItem(line).value)
  {
    MarkersAndSpace();
    ItemsAreTheReadable(SPACE, DOT, ListItem(line).value);
  }

  lemma ReadLanguageIsOk(line: string)
    requires IsFence(line)
    ensures LanguageOk(FenceLanguage(line).value)
  {}

  lemma PrintedItemIsRead(item: string)
    requires ItemOk(item)
    ensures ListItem("- " + item) == Some(item)
  {
    MarkersAndSpace();
    PrintedItem(SPACE, DOT, item);
  }

  lemma PrintedItemIsNoFence(item: string)
    ensures !IsFence("- " + item)
  {
    assert !SPACE('-');
    OnlyBackticksOpenFences(SPACE, TAG, "- " + item);
  }

  lemma TagsAreNoSpace()
    ensures !SPACE('`') && forall c :: TAG(c) ==> !SPACE(c)
  {}

  lemma PrintedFenceIsRead(language: string)
    requires LanguageOk(language)
    ensures FenceLanguage(FENCE + language) == Some(language) && IsFence(FENCE + language)
  {
    TagsAreNoSpace();
    PrintedFence(SPACE, TAG, language);
  }

  lemma BareFenceIsRead()
    ensures IsFence(FENCE)
  {
    TagsAreNoSpace();
    PrintedFence(SPACE, TAG, "");
    assert FENCE + "" == FENCE;
  }

  /** `content.split(/\r?\n/)`. */
  function Split(s: string): (lines: seq<string>)
    ensures lines != []
    ensures forall i :: 0 <= i < |lines| ==> '\n' !in lines[i]
    decreases |s|
  {
    if s == "" then [""]
    else if s[0] == '\n' then [""] + Split(s[1..])
    else if |s| >= 2 && s[0] == '\r' && s[1] == '\n' then [""] + Split(s[2..])
    else var rest := Split(s[1..]); [[s[0]] + rest[0]] + rest[1..]
  }

  function JoinLines(lines: seq<string>): string {
    if lines == [] then ""
    else if |lines| == 1 then lines[0]
    else lines[0] + "\r\n" + JoinLines(lines[1..])
  }

  lemma {:induction false} SplitsAtBreak(line: string, rest: string)
    requires '\n' !in line
    ensures Split(line + "\r\n" + rest) == [line] + Split(rest)
  {
    var s := line + "\r\n" + rest;
    if line == "" {
      assert s[2..] == rest;
    } else {
      assert s[1..] == line[1..] + "\r\n" + rest;
      SplitsAtBreak(line[1..], rest);
      assert line == [line[0]] + line[1..];
    }
  }

  // A line feed alone ends a line too; a carriage return in front of it belongs to the break.
  lemma {:induction false} SplitsAtLineFeed(line: string, rest: string)
    requires '\n' !in line && (line != "" ==> line[|line| - 1] != '\r')
    ensures Split(line + "\n" + rest) == [line] + Split(rest)
  {
    var s := line + "\n" + rest;
    if line == "" {
      assert s[1..] == rest;
    } else {
      assert s[1..] == line[1..] + "\n" + rest;
      SplitsAtLineFeed(line[1..], rest);
      assert line == [line[0]] + line[1..];
    }
  }

  lemma {:induction false} OneLine(line: string)
    requires '\n' !in line
    ensures Split(line) == [line]
  {
    if line != "" {
      OneLine(line[1..]);
      assert line == [line[0]] + line[1..];
    }
  }

  lemma {:induction false} SplitUndoesJoin(lines: seq<string>)
    requires lines != [] && forall i :: 0 <= i < |lines| ==> '\n' !in lines[i]
    ensures Split(JoinLines(lines)) == lines
  {
    if |lines| == 1 {
      OneLine(lines[0]);
    } else {
      SplitUndoesJoin(lines[1..]);
      SplitsAtBreak(lines[0], JoinLines(lines[1..]));
    }
  }
}
