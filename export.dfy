/**
 The two exports of the registry: the spreadsheet table (`download_xlsx`) and
 the lines of the printable document (`download_pdf`).
 */
module Export {
  import opened Wrappers
  import opened CommaText
  import opened Records

  /** How an export shows a record's items: joined with a comma and a space. */
  function JoinedItems(items: seq<string>): string
  {
    Join(items, ", ")
  }

  /** A row of the exported table: the record's three columns plus the added
      `Items` column. */
  datatype TableRow = TableRow(name: string, designation: string, itemsReceived: seq<string>, items: string)

  /** The table of an empty registry has no `items_received` column, so
      reading it fails (pandas raises KeyError). */
  datatype ExportError = MissingItemsColumn

  /** One table row per record, in registry order. */
  function TableRows(records: seq<Record>): (rows: seq<TableRow>)
    ensures |rows| == |records|
    ensures forall i :: 0 <= i < |records| ==>
      rows[i].name == records[i].name &&
      rows[i].designation == records[i].designation &&
      rows[i].itemsReceived == records[i].itemsReceived &&
      rows[i].items == JoinedItems(records[i].itemsReceived)
  {
    if records == [] then []
    else
      var r := records[0];
      [TableRow(r.name, r.designation, r.itemsReceived, JoinedItems(r.itemsReceived))] + TableRows(records[1..])
  }

  /** The spreadsheet export: fails exactly when the registry is empty. */
  function ExportTable(records: seq<Record>): (r: Result<seq<TableRow>, ExportError>)
    ensures r.Err? <==> records == []
    ensures r.Ok? ==> r.value == TableRows(records)
  {
    if records == [] then Err(MissingItemsColumn) else Ok(TableRows(records))
  }

  /** The heading line of the document. */
  const Heading: string := "Attendee List"

  /** The document line of one record. */
  function PdfLine(r: Record): string
  {
    r.name + " - " + r.designation + " - " + JoinedItems(r.itemsReceived)
  }

  /** Splitting the exported items text on ',' again, as an import would:
      for items without commas, the first piece is the first item and every
      later piece keeps the leading space of the ", " separator. */
  lemma SplitOfExportedItems(items: seq<string>)
    requires forall i :: 0 <= i < |items| ==> ',' !in items[i]
    ensures var r := Split(JoinedItems(items), ',');
            (items == [] ==> r == [""]) &&
            (items != [] ==> |r| == |items| && r[0] == items[0] &&
                             forall i :: 1 <= i < |items| ==> r[i] == " " + items[i])
  {
    if items != [] {
      assert ", " == "," + " ";
      JoinWiderSeparator(items, ",", " ");
      var parts := [items[0]] + Prefixed(items[1..], " ");
      assert forall i :: 1 <= i < |parts| ==> parts[i] == " " + items[i];
      JoinThenSplit(parts, ',');
    }
  }

  /** Because the export joins with ", " and the import splits on ',', the
      exported text of a list splits back into the same list exactly when the
      list is a single item without a comma. */
  lemma ExportedItemsReimportIff(items: seq<string>)
    ensures Split(JoinedItems(items), ',') == items <==> |items| == 1 && ',' !in items[0]
  {
    var r := Split(JoinedItems(items), ',');
    if |items| == 1 {
      assert JoinedItems(items) == items[0];
      if ',' !in items[0] {
        SplitWithoutSeparator(items[0], ',');
        assert items == [items[0]];
      } else {
        assert multiset(items[0])[','] > 0;
      }
    } else if forall k :: 0 <= k < |items| ==> ',' !in items[k] {
      SplitOfExportedItems(items);
      if |items| >= 2 {
        assert |r[1]| == |items[1]| + 1;
      }
    } else {
      var k :| 0 <= k < |items| && ',' in items[k];
      assert k >= |r| || r[k] != items[k];
    }
  }

  /** Reading exported items text back as a spreadsheet cell (a missing-value
      marker reads as blank) and parsing it as an import would: the list comes
      back exactly when it is empty, or a single comma-free item that is not a
      missing-value marker. */
  lemma ExportedCellReimportIff(items: seq<string>)
    ensures ItemsOf(CellAsRead(JoinedItems(items))) == Some(items)
            <==> (items == [] || (|items| == 1 && ',' !in items[0] && !ReadsAsBlank(items[0])))
  {
    var text := JoinedItems(items);
    if items == [] {
      assert ReadsAsBlank(text);
    } else if |items| == 1 {
      assert text == items[0];
      ExportedItemsReimportIff(items);
    } else {
      assert text == items[0] + ", " + Join(items[1..], ", ");
      assert text[|items[0]|] == ',';
      MarkersHaveNoComma();
      assert !ReadsAsBlank(text);
      ExportedItemsReimportIff(items);
    }
  }

  /** The same for a row of the exported table. */
  lemma TableReimportIff(records: seq<Record>, i: nat)
    requires i < |records|
    ensures var items := records[i].itemsReceived;
            ItemsOf(CellAsRead(TableRows(records)[i].items)) == Some(items)
            <==> (items == [] || (|items| == 1 && ',' !in items[0] && !ReadsAsBlank(items[0])))
  {
    ExportedCellReimportIff(records[i].itemsReceived);
  }
}
