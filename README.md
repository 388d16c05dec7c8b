# Attendee registry of the symposium attendee manager

This project models the core of a small event check-in service. The service keeps an in-memory,
ordered list of attendee records, the registry. Three request handlers change it:

- the spreadsheet upload replaces the whole list;
- the items update overwrites one record's `items_received`, chosen by position;
- the add handler appends a record.

Two exports read the list: a spreadsheet with a joined `Items` column, and a printable document
with one line per attendee.

Modules:

- `Wrappers` (`wrappers.dfy`): `Option` and `Result`.
- `CommaText` (`comma_text.dfy`): Python's `str.split` with a one-character separator and
  `str.join`, with the round-trip lemmas between them.
- `Records` (`records.dfy`): the spreadsheet row, the attendee record and the parsing of the
  Items cell.
- `Export` (`export.dfy`): the spreadsheet table, the document line, and what an import makes
  of exported text.
- `AttendeeRegistry` (`registry.dfy`): Python's list-index rule and the `Registry` class, whose
  `records` field is the module-level list. The class has one method per handler. Two client
  methods (`ImportScenario`, `UpdateScenario`) and `IndexingScenario` walk through a session.

The handlers read a global list. Here they are methods on one `Registry` object, and the exports
are functions of its `records`. The request body and the uploaded spreadsheet become method
parameters. A spreadsheet is a sequence of `Row` values.

## Behaviour of the code worth knowing

- A row whose Items cell is not text raises during the upload (main.py:21). By then the list has been cleared (main.py:19) and the records of the earlier rows appended, so the registry keeps exactly those records (`Registry.Import`).
- The update handler does not range-check its index (main.py:34); Python's list indexing decides. Indices from `-len` to `-1` count from the end. Any other index raises `IndexError` before anything changes (`PythonIndex`, `Registry.UpdateItems`).
- The spreadsheet export joins items with `", "` (main.py:42), and the upload splits the Items cell on `','` (main.py:21). For comma-free items, every item after the first therefore comes back with a leading space.
  - At the text level, a list comes back exactly when it is a single item without a comma. `""` splits into `[""]`, and an item holding a comma splits into several (`Export.ExportedItemsReimportIff`).
  - Read back as a spreadsheet cell, the empty text and pandas' default missing-value markers (`NA`, `N/A`, `NULL`, `None`, `nan`, `#N/A`, `<NA>` and the rest of that list) become a blank cell (`Records.CellAsRead`). So the list comes back exactly when it is empty, or when it is a single comma-free item that is not such a marker (`Export.ExportedCellReimportIff`, `Export.TableReimportIff`).
  - Re-uploading the exported file itself fails. Its headers are `name` and `designation`, not `Name` and `Designation`, so main.py:23 raises `KeyError` on the first row, after the list has been cleared.
- The spreadsheet export of an empty registry raises `KeyError`, because the empty table has no `items_received` column (main.py:41-42, `Export.ExportTable`). The document export of an empty registry is the heading alone.
- A stored record has only `name`, `designation` and `items_received` (main.py:22-26). No other column of the spreadsheet is read.

## Model

| member | source | states |
|---|---|---|
| `CommaText.Split` | main.py:21 | splitting on `','` gives one more piece than the text has commas, and no piece contains the separator |
| `CommaText.SplitThenJoin` | main.py:21 | re-joining the pieces with `','` reproduces the cell text exactly (no trimming) |
| `CommaText.JoinThenSplit` | main.py:21 | at least one comma-free piece, joined with `','`, splits back into the same pieces (no pieces join to `""`, which splits into `[""]`) |
| `CommaText.JoinWiderSeparator` | main.py:42 | joining with `", "` is joining with `","` after giving every item but the first a leading space |
| `Records.ItemsOf` | main.py:21 | a blank cell gives `[]`; a text cell gives (commas + 1) comma-free pieces that re-join to the text; a non-text cell fails |
| `Records.CellAsRead` | main.py:18-21 | the Items cell read back from written text: never non-text; blank exactly for the empty text and pandas' default missing-value markers (what `pd.notna` then rejects); otherwise the text itself |
| `Export.TableRows` | main.py:41-42 | one table row per record, in order, copying name, designation and items and adding the Items column `JoinedItems`, the items joined with `", "` |
| `Export.ExportTable` | main.py:41-42 | the spreadsheet export fails exactly when the registry is empty, and otherwise is the table rows |
| `Export.SplitOfExportedItems` | main.py:42 | for comma-free items, splitting the exported text on `','` gives `[""]` for no items; otherwise it gives the first item, then every later item with a leading space |
| `Export.ExportedItemsReimportIff` | main.py:42 | for every list, re-splitting its exported text on `','` gives the list back if and only if it is a single item without a comma |
| `Export.ExportedCellReimportIff` | main.py:21-42 | for every list, reading its exported text back as a spreadsheet cell and parsing it gives the list back if and only if the list is empty or a single comma-free item that is not a missing-value marker |
| `Export.TableReimportIff` | main.py:40-42 | the same for the Items column of any row of the exported table |
| `AttendeeRegistry.PythonIndex` | main.py:34 | an index selects a position exactly when `-len <= index < len`, and that position is `index mod len` |
| `AttendeeRegistry.Registry.constructor` | main.py:7 | the registry starts empty |
| `AttendeeRegistry.Registry.Import` | main.py:19-27 | earlier records are discarded. Record j has row j's name and designation and its parsed Items. With all cells parseable, there are N records and the count N is returned. Otherwise the import stops at the first bad row, with exactly the earlier rows' records in place |
| `AttendeeRegistry.Registry.List` | main.py:36 | the listing is the current records, in order |
| `AttendeeRegistry.Registry.UpdateItems` | main.py:34 | a valid index replaces only that record's `items_received`: the length, the other fields and the other records stay the same. Any other index fails and changes nothing |
| `AttendeeRegistry.Registry.Append` | main.py:64-65 | the new record goes last, earlier records stay the same, and the returned count is the new length |
| `AttendeeRegistry.Registry.DownloadPdf` | main.py:53-56 | the heading `Attendee List`, then exactly one line per record in registry order, each `PdfLine`: `name - designation - ` followed by `JoinedItems` of the items |
| `AttendeeRegistry.Registry.DownloadXlsx` | main.py:40-42 | the spreadsheet export of the current records |

## Left out

- HTTP routing, request parsing, `jsonify`, `send_file` and the greeting route (main.py:10-12): transport plumbing. Handler inputs are method parameters and handler results are return values.
- `pd.read_excel` and the spreadsheet file format: a spreadsheet is a sequence of `Row`. Name and Designation are typed as text. A blank or numeric Name or Designation, which the source stores unchanged, is not modelled. A missing column is not modelled either. In the source it raises `KeyError` on the first data row (main.py:21, main.py:23-24), after the list has been cleared at main.py:19, so the registry is left empty; with no data rows nothing is raised.
- Records.CellAsRead: models only pandas' default missing-value markers. Reader options that change them (`na_values`, `keep_default_na`) are not modelled. Whether the reader turns numeric-looking or boolean-looking text (`True`, `false`, ...) into a number or a boolean, which would make the cell non-text, is not modelled either.
- `DataFrame.to_excel`, and how it renders the `items_received` list column: a library call. The table keeps the list value itself.
- FPDF page setup, fonts, cell layout, character-encoding failures and `pdf.output`: layout and file I/O. Only the text lines are modelled.
- Writing `attendees.xlsx` and `attendees.pdf` to disk (main.py:44, main.py:57): side-effecting I/O.
- Records added through `/add` are arbitrary JSON in the source. Here they have the record type. A record without `items_received`, which would make both exports raise, cannot be expressed.
- UpdateItems: `items` is typed as a list of strings, but main.py:34 stores whatever JSON value the request carries. A plain string such as `"Pen"` would later be exported character by character, as `"P, e, n"`, and is not modelled.
- An update index that is not an integer (Python raises `TypeError`): the index is typed as an integer.
- `PORT` handling and `app.run` (main.py:68-70): process start-up.
- Concurrent requests on the shared list: the source has no locking, and each method here runs alone.
