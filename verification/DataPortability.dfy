/** The table download of the data panel. */
module DataPortability {
  import opened Wrappers
  import opened Csv

  // A row object: its own keys in order, and the string form of each value, absent for null and undefined.
  datatype Item = Item(keys: seq<string>, values: map<string, Option<string>>)

  function CellText(item: Item, header: string): string {
    if header in item.values then item.values[header].GetOr("") else ""
  }

  function Cells(item: Item, headers: seq<string>): Row {
    seq(|headers|, i requires 0 <= i < |headers| => CellText(item, headers[i]))
  }

  function Lines(items: seq<Item>, headers: seq<string>): seq<Row> {
    seq(|items|, i requires 0 <= i < |items| => Cells(items[i], headers))
  }

  function Table(items: seq<Item>): seq<Row> {
    if items == [] then [] else [items[0].keys] + Lines(items, items[0].keys)
  }

  function ToCsv(items: seq<Item>): string {
    if |items| == 0 then "" else WriteRows([items[0].keys] + Lines(items, items[0].keys), "\n")
  }

  /** The download reads back as the table of the first row's keys, except when the first row has no keys at all. */
  lemma DownloadIsRead(items: seq<Item>)
    ensures Read(ToCsv(items)) == Some(Table(items)) <==> items == [] || items[0].keys != []
  {
    if items != [] {
      var headers := items[0].keys;
      RoundTripExactly(Table(items), "\n");
      assert Table(items)[0] == headers;
      assert forall i :: 0 < i < |Table(items)| ==> Table(items)[i] == Cells(items[i - 1], headers);
    }
  }

  // The text that belongs to an item under a header: empty where there is no value, or null or undefined.
  predicate Belongs(item: Item, header: string, text: string) {
    if header in item.values && item.values[header].Some? then text == item.values[header].value else text == ""
  }

  // The line of an item: one text per header, each under its own.
  predicate LineOf(item: Item, headers: seq<string>, line: Row) {
    |line| == |headers| && forall j :: 0 <= j < |headers| ==> Belongs(item, headers[j], line[j])
  }

  lemma CellsAreLine(item: Item, headers: seq<string>)
    ensures LineOf(item, headers, Cells(item, headers))
  {
    forall j | 0 <= j < |headers| ensures Belongs(item, headers[j], Cells(item, headers)[j]) {}
  }

  /** What a reader of the download finds: the keys of the first row, and under each of them what every row holds there. */
  lemma DownloadedCells(items: seq<Item>)
    requires items != [] && items[0].keys != []
    ensures Read(ToCsv(items)).Some?
    ensures var table := Read(ToCsv(items)).value;
            && |table| == |items| + 1 && table[0] == items[0].keys
            && forall i :: 0 <= i < |items| ==> LineOf(items[i], items[0].keys, table[i + 1])
  {
    DownloadIsRead(items);
    forall i | 0 <= i < |items| ensures LineOf(items[i], items[0].keys, Table(items)[i + 1]) {
      CellsAreLine(items[i], items[0].keys);
    }
  }
}
