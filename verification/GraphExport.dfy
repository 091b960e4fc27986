module GraphExport {
  import opened Wrappers
  import opened Csv

  // The table export of the graph workspace, which keeps spreadsheets from seeing formulas.

  predicate IsBlank(c: char) {
    c == '\t' || c == '\r' || c == '\n' || c == ' '
  }

  predicate IsOperator(c: char) {
    c == '=' || c == '+' || c == '-' || c == '@'
  }

  // `[\t\r\n ]*[=+\-@]`
  predicate LeadsToOperator(s: string) {
    s != "" && (IsOperator(s[0]) || (IsBlank(s[0]) && LeadsToOperator(s[1..])))
  }

  predicate FormulaLike(s: string) {
    s != "" && ((IsBlank(s[0]) && s[0] != ' ') || LeadsToOperator(s))
  }

  function Guarded(raw: string): string {
    if FormulaLike(raw) then "'" + raw else raw
  }

  ghost predicate OperatorBehindBlanks(s: string, n: nat) {
    && n < |s| && (s[n] == '=' || s[n] == '+' || s[n] == '-' || s[n] == '@')
    && forall i :: 0 <= i < n ==> s[i] == '\t' || s[i] == '\r' || s[i] == '\n' || s[i] == ' '
  }

  lemma {:induction false} LeadsToOperatorIsItsPattern(s: string)
    ensures LeadsToOperator(s) <==> exists n: nat :: OperatorBehindBlanks(s, n)
  {
    if s != "" {
      if IsOperator(s[0]) {
        assert OperatorBehindBlanks(s, 0);
      } else {
        LeadsToOperatorIsItsPattern(s[1..]);
        if n: nat :| OperatorBehindBlanks(s, n) {
          assert OperatorBehindBlanks(s[1..], n - 1);
        }
        if n: nat :| IsBlank(s[0]) && OperatorBehindBlanks(s[1..], n) {
          BehindOneMore(s, n);
        }
      }
    }
  }

  lemma BehindOneMore(s: string, n: nat)
    requires s != "" && IsBlank(s[0]) && OperatorBehindBlanks(s[1..], n)
    ensures OperatorBehindBlanks(s, n + 1)
  {
    forall i | 0 <= i < n + 1 ensures IsBlank(s[i]) {
      if i > 0 { assert IsBlank(s[1..][i - 1]); }
    }
  }

  /** No exported cell looks like a formula, and guarding a guarded cell changes nothing. */
  lemma GuardingIsFinal(raw: string)
    ensures !FormulaLike(Guarded(raw))
    ensures Guarded(Guarded(raw)) == Guarded(raw)
  {}

  /** Guarding confuses two texts exactly when one is formula-like and the other is that text behind an apostrophe. */
  lemma GuardingConfuses(a: string, b: string)
    ensures Guarded(a) == Guarded(b) <==> a == b || (FormulaLike(a) && b == "'" + a) || (FormulaLike(b) && a == "'" + b)
  {
    if FormulaLike(a) && FormulaLike(b) && Guarded(a) == Guarded(b) {
      assert a == ("'" + a)[1..] && b == ("'" + b)[1..];
    }
  }

  // The exported columns of a node, in the string form of each value.
  datatype Node = Node(
    entityId: string, entityType: string, name: string, parentId: Option<string>, tier: string, score: string,
    domainId: Option<string>, businessId: Option<string>, status: string, health: string)

  const HEADER: seq<Option<string>> := [
    Some("entity_id"), Some("entity_type"), Some("display_name"), Some("parent_id"), Some("authority_tier"),
    Some("authority_score"), Some("domain_id"), Some("business_id"), Some("status"), Some("health")]

  function NodeCells(node: Node): seq<Option<string>> {
    [Some(node.entityId), Some(node.entityType), Some(node.name), node.parentId, Some(node.tier),
     Some(node.score), node.domainId, node.businessId, Some(node.status), Some(node.health)]
  }

  function Rows(nodes: seq<Node>): seq<seq<Option<string>>> {
    [HEADER] + seq(|nodes|, i requires 0 <= i < |nodes| => NodeCells(nodes[i]))
  }

  function GuardedRow(cells: seq<Option<string>>): Row {
    seq(|cells|, i requires 0 <= i < |cells| => Guarded(cells[i].GetOr("")))
  }

  function GuardedRows(rows: seq<seq<Option<string>>>): seq<Row> {
    seq(|rows|, i requires 0 <= i < |rows| => GuardedRow(rows[i]))
  }

  function Export(nodes: seq<Node>): string {
    WriteRows(GuardedRows(Rows(nodes)), "\r\n")
  }

  function GuardedTable(nodes: seq<Node>): seq<Row> {
    GuardedRows(Rows(nodes))
  }

  /** The export reads back as the guarded table, whatever the names and identifiers hold. */
  lemma ExportIsRead(nodes: seq<Node>)
    ensures Read(Export(nodes)) == Some(GuardedTable(nodes))
  {
    assert forall i :: 0 <= i < |GuardedTable(nodes)| ==> |GuardedTable(nodes)[i]| == 10;
    RoundTrip(GuardedTable(nodes), "\r\n");
  }

  lemma GuardedCell(nodes: seq<Node>, i: nat, column: nat)
    requires i < |Rows(nodes)| && column < 10
    ensures |GuardedTable(nodes)| == |nodes| + 1 && |GuardedTable(nodes)[i]| == 10
    ensures GuardedTable(nodes)[i][column] == Guarded(Rows(nodes)[i][column].GetOr(""))
  {}

  /** What a reader of the export finds: one line per node under the column names, in which no cell looks like a formula. */
  lemma ExportedCells(nodes: seq<Node>, i: nat, column: nat)
    requires i < |nodes| && column < 10
    ensures var table := Read(Export(nodes)).GetOr([]);
            && |table| == |nodes| + 1 && |table[i + 1]| == 10
            && table[i + 1][column] == Guarded(NodeCells(nodes[i])[column].GetOr(""))
            && !FormulaLike(table[i + 1][column])
  {
    ExportIsRead(nodes);
    GuardedCell(nodes, i + 1, column);
    GuardingIsFinal(NodeCells(nodes[i])[column].GetOr(""));
  }

  lemma LettersAreKept(s: string)
    requires s != "" && 'a' <= s[0] <= 'z'
    ensures Guarded(s) == s
  {}

  lemma ColumnNames(column: nat)
    requires column < 10
    ensures HEADER[column].Some? && HEADER[column].value != "" && 'a' <= HEADER[column].value[0] <= 'z'
  {}

  /** The guard leaves the column names alone. */
  lemma ExportedHeader(nodes: seq<Node>, column: nat)
    requires column < 10
    ensures var table := Read(Export(nodes)).GetOr([]);
            table != [] && |table[0]| == 10 && Some(table[0][column]) == HEADER[column]
  {
    ExportIsRead(nodes);
    GuardedCell(nodes, 0, column);
    ColumnNames(column);
    LettersAreKept(HEADER[column].value);
  }

  // What an exported cell is not: a text that starts with a tab or a line break, or with an operator behind blanks.
  ghost predicate Formula(s: string) {
    || (s != "" && (s[0] == '\t' || s[0] == '\r' || s[0] == '\n'))
    || exists n: nat :: OperatorBehindBlanks(s, n)
  }

  lemma FormulaLikeExactly(s: string)
    ensures FormulaLike(s) <==> Formula(s)
  {
    LeadsToOperatorIsItsPattern(s);
  }

  // A text as it is, or behind an apostrophe where it looks like a formula.
  ghost predicate Safe(raw: string, cell: string) {
    if Formula(raw) then cell == "'" + raw else cell == raw
  }

  // The column of this name holds this text.
  ghost predicate Holds(table: seq<Row>, line: nat, column: nat, name: string, raw: string)
    requires line < |table| && column < |table[0]| && column < |table[line]|
  {
    table[0][column] == name && Safe(raw, table[line][column])
  }

  lemma ExportedCell(nodes: seq<Node>, i: nat, column: nat)
    requires i < |nodes| && column < 10
    ensures var table := Read(Export(nodes)).GetOr([]);
            && |table| == |nodes| + 1 && |table[0]| == |table[i + 1]| == 10
            && Holds(table, i + 1, column, HEADER[column].GetOr(""), NodeCells(nodes[i])[column].GetOr(""))
  {
    ExportedCells(nodes, i, column);
    ExportedHeader(nodes, column);
    FormulaLikeExactly(NodeCells(nodes[i])[column].GetOr(""));
  }

  /** Under each column name of the export stands the field of the node it names, made safe for a spreadsheet, and nothing where the node has none. */
  lemma ExportedColumns(nodes: seq<Node>, i: nat)
    requires i < |nodes|
    ensures var table, line, node := Read(Export(nodes)).GetOr([]), i + 1, nodes[i];
            && |table| == |nodes| + 1 && |table[0]| == |table[line]| == 10
            && Holds(table, line, 0, "entity_id", node.entityId)
            && Holds(table, line, 1, "entity_type", node.entityType)
            && Holds(table, line, 2, "display_name", node.name)
            && Holds(table, line, 3, "parent_id", node.parentId.GetOr(""))
            && Holds(table, line, 4, "authority_tier", node.tier)
            && Holds(table, line, 5, "authority_score", node.score)
            && Holds(table, line, 6, "domain_id", node.domainId.GetOr(""))
            && Holds(table, line, 7, "business_id", node.businessId.GetOr(""))
            && Holds(table, line, 8, "status", node.status)
            && Holds(table, line, 9, "health", node.health)
  {
    ExportedCell(nodes, i, 0);
    ExportedCell(nodes, i, 1);
    ExportedCell(nodes, i, 2);
    ExportedCell(nodes, i, 3);
    ExportedCell(nodes, i, 4);
    ExportedCell(nodes, i, 5);
    ExportedCell(nodes, i, 6);
    ExportedCell(nodes, i, 7);
    ExportedCell(nodes, i, 8);
    ExportedCell(nodes, i, 9);
  }
}
