/**
 The attendee registry: the process-wide, ordered list of attendee records
 that the upload, update and add handlers change and the exports read.
 */
module AttendeeRegistry {
  import opened Wrappers
  import opened CommaText
  import opened Records
  import opened Export

  /** Python's rule for `xs[index]` on a list of length `len`: an index in
      `[-len, len)` selects a position, counting from the end when negative;
      any other index raises IndexError. */
  function PythonIndex(index: int, len: nat): (r: Option<nat>)
    ensures r.Some? <==> -(len as int) <= index < len
    ensures r.Some? ==> r.value < len && r.value == index % len
  {
    if 0 <= index < len then Some(index)
    else if -(len as int) <= index < 0 then Some(len + index)
    else None
  }

  /** Import stops at the first row whose Items cell cannot be split. */
  datatype ImportError = ItemsNotText(row: nat)

  /** An update names a position the registry does not have. */
  datatype UpdateError = IndexOutOfRange

  class Registry {
    /** The records, in import and append order. */
    var records: seq<Record>

    /** The registry starts empty. */
    constructor ()
      ensures records == []
    {
      records := [];
    }

    /** `upload`: discard every record, then append one record per row in
        row order. A row whose Items cell is not text stops the import with
        the records of the rows before it already in place. On success the
        result is the new number of records. */
    method Import(rows: seq<Row>) returns (r: Result<nat, ImportError>)
      modifies this
      ensures r.Ok? <==> forall j :: 0 <= j < |rows| ==> !rows[j].items.NonText?
      ensures r.Ok? ==> r.value == |rows| == |records|
      ensures r.Err? ==> r.error.row == |records| < |rows| && rows[r.error.row].items.NonText?
      ensures |records| <= |rows|
      ensures forall j :: 0 <= j < |records| ==>
        records[j].name == rows[j].name &&
        records[j].designation == rows[j].designation &&
        Some(records[j].itemsReceived) == ItemsOf(rows[j].items)
    {
      records := [];
      var i := 0;
      while i < |rows|
        invariant 0 <= i <= |rows|
        invariant |records| == i
        invariant forall j :: 0 <= j < i ==> !rows[j].items.NonText?
        invariant forall j :: 0 <= j < i ==>
          records[j].name == rows[j].name &&
          records[j].designation == rows[j].designation &&
          Some(records[j].itemsReceived) == ItemsOf(rows[j].items)
      {
        var items := ItemsOf(rows[i].items);
        if items.None? {
          r := Err(ItemsNotText(i));
          return;
        }
        records := records + [Record(rows[i].name, rows[i].designation, items.value)];
        i := i + 1;
      }
      r := Ok(|records|);
    }

    /** `GET /attendees`: the records as they are. */
    method List() returns (r: seq<Record>)
      ensures r == records
    {
      r := records;
    }

    /** `POST /attendees`: replace the items of the record at `index`
        (Python indexing), leaving everything else as it was; an index
        outside `[-len, len)` fails and changes nothing. */
    method UpdateItems(index: int, items: seq<string>) returns (r: Result<(), UpdateError>)
      modifies this
      ensures r.Ok? <==> -|old(records)| <= index < |old(records)|
      ensures |records| == |old(records)|
      ensures r.Err? ==> records == old(records)
      ensures r.Ok? ==>
        var p := PythonIndex(index, |records|).value;
        records[p] == old(records[p]).(itemsReceived := items) &&
        forall j :: 0 <= j < |records| && j != p ==> records[j] == old(records[j])
    {
      var p := PythonIndex(index, |records|);
      if p.None? {
        r := Err(IndexOutOfRange);
        return;
      }
      records := records[p.value := records[p.value].(itemsReceived := items)];
      r := Ok(());
    }

    /** `POST /add`: put a record at the end; the result is the new count. */
    method Append(rec: Record) returns (count: nat)
      modifies this
      ensures records == old(records) + [rec]
      ensures count == |records| == |old(records)| + 1
    {
      records := records + [rec];
      count := |records|;
    }

    /** `download_pdf`: the heading, then one line per record in order. */
    method DownloadPdf() returns (lines: seq<string>)
      ensures |lines| == |records| + 1
      ensures lines[0] == Heading
      ensures forall i :: 0 <= i < |records| ==> lines[i + 1] == PdfLine(records[i])
    {
      lines := [Heading];
      for k := 0 to |records|
        invariant |lines| == k + 1 && lines[0] == Heading
        invariant forall i :: 0 <= i < k ==> lines[i + 1] == PdfLine(records[i])
      {
        lines := lines + [PdfLine(records[k])];
      }
    }

    /** `download_xlsx`: the table of the current records. */
    method DownloadXlsx() returns (r: Result<seq<TableRow>, ExportError>)
      ensures r == ExportTable(records)
    {
      r := ExportTable(records);
    }
  }

  /** Two rows imported: a blank Items cell, then "pen,mug". */
  method ImportScenario(pen: string, mug: string) returns (reg: Registry)
    requires ',' !in pen && ',' !in mug
    ensures fresh(reg)
    ensures reg.records == [Record("Alice", "Eng", []), Record("Bob", "Sales", [pen, mug])]
  {
    reg := new Registry();
    var cell := pen + "," + mug;
    assert Split(cell, ',') == [pen, mug] by {
      assert Join([pen, mug], ",") == cell;
      JoinThenSplit([pen, mug], ',');
    }
    var rows := [Row("Alice", "Eng", Blank), Row("Bob", "Sales", Text(cell))];
    var n := reg.Import(rows);
    assert n.Ok?;
    assert |reg.records| == 2;
  }

  /** The second attendee's items updated to `[pen]`, then exported. */
  method UpdateScenario(pen: string, mug: string)
    requires ',' !in pen && ',' !in mug
  {
    var reg := ImportScenario(pen, mug);
    var u := reg.UpdateItems(1, [pen]);
    assert u.Ok?;
    assert reg.records[1] == Record("Bob", "Sales", [pen]);
    var t := reg.DownloadXlsx();
    assert t.Ok? && t.value[1].items == pen;
  }

  /** Python indexing on a registry of two: 2 is out of range, -1 is the last. */
  method IndexingScenario(a: Record, b: Record)
  {
    var reg := new Registry();
    var n := reg.Append(a);
    n := reg.Append(b);
    assert n == 2;
    var bad := reg.UpdateItems(2, []);
    assert bad.Err? && reg.records == [a, b];
    var last := reg.UpdateItems(-1, ["Mug"]);
    assert reg.records == [a, b.(itemsReceived := ["Mug"])];
  }
}
