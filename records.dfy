/**
 The two shapes the registry deals in: a spreadsheet row as `upload` reads it,
 and the attendee record it stores.
 */
module Records {
  import opened Wrappers
  import opened CommaText

  /** The Items cell of a spreadsheet row: blank (pandas reads it as NaN),
      text, or some other value (a number, a date) that has no `split`. */
  datatype ItemsCell = Blank | Text(text: string) | NonText

  /** One spreadsheet row: its Name, Designation and Items cells. */
  datatype Row = Row(name: string, designation: string, items: ItemsCell)

  /** An attendee: exactly the keys `name`, `designation` and `items_received`.
      Its identity is its position in the registry. */
  datatype Record = Record(name: string, designation: string, itemsReceived: seq<string>)

  /** The items list built from an Items cell: a blank cell gives no items, a
      text cell is split on ',' without trimming, and any other value makes
      the import fail (Python raises AttributeError on `.split`). */
  function ItemsOf(cell: ItemsCell): (r: Option<seq<string>>)
    ensures r.None? <==> cell.NonText?
    ensures cell.Blank? ==> r == Some([])
    ensures cell.Text? ==> r.Some? && |r.value| == multiset(cell.text)[','] + 1
    ensures cell.Text? ==> r.Some? && Join(r.value, ",") == cell.text
    ensures r.Some? ==> forall i :: 0 <= i < |r.value| ==> ',' !in r.value[i]
  {
    match cell
    case Blank => Some([])
    case Text(s) => SplitThenJoin(s, ','); Some(Split(s, ','))
    case NonText => None
  }

  /** The texts that pandas' spreadsheet reader turns into NaN by default:
      the empty text and its default missing-value markers. */
  const MissingMarkers: set<string> :=
    {"", "#N/A", "#N/A N/A", "#NA", "-1.#IND", "-1.#QNAN", "-NaN", "-nan", "1.#IND", "1.#QNAN",
     "<NA>", "N/A", "NA", "NULL", "NaN", "None", "n/a", "nan", "null"}

  /** A cell holding this text is read back as blank. */
  predicate ReadsAsBlank(text: string)
  {
    text in MissingMarkers
  }

  /** No missing-value marker contains a comma. */
  lemma MarkersHaveNoComma()
    ensures forall m :: m in MissingMarkers ==> ',' !in m
  {
  }

  /** The Items cell that a spreadsheet reader gives back for text written
      into it: a missing-value marker reads as a blank cell, any other text
      reads as itself. */
  function CellAsRead(text: string): (cell: ItemsCell)
    ensures !cell.NonText?
    ensures cell.Blank? <==> ReadsAsBlank(text)
    ensures !ReadsAsBlank(text) ==> cell == Text(text)
  {
    if ReadsAsBlank(text) then Blank else Text(text)
  }
}
