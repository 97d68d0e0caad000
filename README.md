# Academic report builder: block store, table editing and plain-text export

The report builder in `JS/script.js` keeps the report as one ordered list of blocks.
Each block is one of nine kinds: header, title, subtitle, text, code, image, table,
reference or AI-use declaration. It is stored in the global `reportData`. The editor
changes this list only through a small set of functions:

- `addBlock` appends a block with defaults for its kind;
- `deleteBlock` filters the list by id;
- `moveBlock` splices a block out and back in;
- id-keyed setters write one property of the first block with a matching id;
- five table functions resize a table, write a cell, add a row, drop a row and set a
  table's caption.

`exportTXT` turns the list into a plain-text report: a banner, then one text template per
block. Figures, tables and references are numbered as they appear. Tables are drawn as
fixed-width text: columns 10 to 30 characters wide, a hard wrap of every cell, space
padding, rows as tall as their tallest cell, and `+-…-+-` separators.
`escapeAttr` escapes text for an HTML attribute.

The model has these modules:

- `Blocks`: the block record and the store and table operations as functions.
- `Store`: a class `Report` whose field `blocks` stands for `reportData`. Its methods
  mutate that field the way the JavaScript mutators do. Each method's contract gives the
  new store in terms of the old one, and keeps the invariant that every table has 1 to 6
  columns, at least one row, and rows exactly `columns` long. Every method also keeps
  block ids unique when they were unique before.
- `TableFormat`: the table formatter. Its loops are methods proved against specification
  functions, with lemmas about widths, wrapping and line geometry.
- `Export`: the export as a function of the block list, and the export loop as a method
  proved equal to it.
- `Escape`: `escapeAttr` as the replacement chain the source writes. It is proved equal to
  escaping character by character, free of raw `<>"'`, and undone by decoding the five
  entities.
- `Strings` and `Wrappers`: helpers. They provide repetition, concatenation, decimal
  rendering of counters (with its round trip), prefixes and suffixes, and `Option`.

## Model

| member | source | states |
|---|---|---|
| Blocks.NewBlockOk | JS/script.js:47-104 | a new block has the given id and kind and empty content, and is well formed; a new table has 3 columns and two rows of three `''`; a new reference is of type `web`; a new AI block is `no` |
| Blocks.BlankRow | JS/script.js:93-99 | the default and added table rows are `n` empty strings |
| Blocks.AppendFreshIdKeepsUnique | JS/script.js:47-104 | appending a block whose id is new keeps ids unique |
| Blocks.FirstIndex | JS/script.js:124-130 | the lookup `find(b => b.id === id)`: the first index with that id, and `None` exactly when no block has it |
| Blocks.FirstIndexUnique | JS/script.js:124-130 | with unique ids, the first match is the one block with that id |
| Blocks.WriteFirst | JS/script.js:124-130 | an id-keyed write changes only the first matching block and is a no-op when no block matches |
| Blocks.Without | JS/script.js:110-113 | deletion leaves as many blocks as there were, less those carrying the id |
| Blocks.WithoutMembers | JS/script.js:110-113 | a block survives deletion exactly when it was in the store and its id differs |
| Blocks.WithoutAppend | JS/script.js:110-113 | filtering distributes over concatenation, so the survivors keep their relative order |
| Blocks.WithoutKeepsUnique | JS/script.js:110-113 | deleting keeps ids unique |
| Blocks.DeleteRemovesOne | JS/script.js:110-113 | with unique ids, deleting a present id removes one block; deleting an absent id changes nothing |
| Blocks.WithoutAbsent | JS/script.js:110-113 | deleting an id no block has leaves the store as it was |
| Blocks.Moved | JS/script.js:1263-1268 | a move keeps the length and lands the moved block at `to`, or at the end when `to` is past it |
| Blocks.Landing | JS/script.js:1263-1268 | the landing position is always inside the store |
| Blocks.MovedAt | JS/script.js:1263-1268 | every position after the move holds the original block that the splice-out/splice-in puts there |
| Blocks.MovedPermutes | JS/script.js:1263-1268 | a move is a permutation of the blocks |
| Blocks.MoveBackRestores | JS/script.js:1263-1268 | moving from the destination back to the origin restores the original order |
| Blocks.MoveExample | JS/script.js:1263-1268 | `[A,B,C,D]` with `(0,2)` becomes `[B,C,A,D]` |
| Blocks.MovedKeepsOk | JS/script.js:1263-1268 | reordering keeps every block well formed |
| Blocks.MovedKeepsUnique | JS/script.js:1263-1268 | reordering keeps ids unique |
| Blocks.ClampColumns | JS/script.js:255-276 | the column count lands in [1,6]; 0 or a failed parse gives 3; in-range input is kept; larger input gives 6 and negative input gives 1 |
| Blocks.FitRow | JS/script.js:255-276 | a row cut or padded to exactly `n` cells; kept cells unchanged, new cells `''` |
| Blocks.ResizeTable | JS/script.js:255-276 | the row count is unchanged, every row is exactly `columns` long, retained cells are unchanged and new cells are `''` |
| Blocks.ResizeIdempotent | JS/script.js:255-276 | setting the column count twice equals setting it once |
| Blocks.ResizeTableOk | JS/script.js:255-276 | a resized table with a header row keeps the table invariant |
| Blocks.SetCell | JS/script.js:285-293 | writes exactly the one addressed cell and nothing else; a no-op unless row and column index an existing cell |
| Blocks.AddRow | JS/script.js:299-307 | appends exactly one row of `columns` empty cells and leaves the existing rows alone |
| Blocks.RemoveRow | JS/script.js:313-325 | refused, with the table unchanged, at one row or fewer; otherwise drops only the last row |
| Blocks.TableEditsKeepTableOk | JS/script.js:255-325 | all four table edits keep 1 to 6 columns, at least the header row and full rows |
| Blocks.AddThenRemoveRow | JS/script.js:299-325 | adding a row then removing one gives back the table |
| Blocks.SetHeaderFieldOnly | JS/script.js:138-144 | writing a header field sets it and leaves the other six fields unchanged |
| Blocks.SetRefFieldOnly | JS/script.js:165-174 | writing a reference field sets it and leaves the other four fields unchanged |
| Blocks.SetAIFieldOnly | JS/script.js:227-244 | writing a declaration field sets it and leaves the other six fields unchanged |
| Store.Report.constructor | JS/script.js:6 | the report starts empty and valid |
| Store.Report.AddBlock | JS/script.js:47-104 | the new store is the old one with the new block appended; validity is kept; ids stay unique when the new id is not in use |
| Store.Report.DeleteBlock | JS/script.js:110-113 | the new store is the old one without the blocks with that id; validity is kept; with unique ids, ids stay unique and a present id removes exactly one block |
| Store.Report.MoveBlock | JS/script.js:1263-1268 | the new store is the moved one; validity and unique ids are kept |
| Store.Report.UpdateContent | JS/script.js:124-130 | only the first matching block's content changes; a no-op without a match |
| Store.Report.UpdateHeader | JS/script.js:138-144 | only one header field of the first matching block changes, and only if it has header data |
| Store.Report.UpdateRefType | JS/script.js:151-157 | only the first matching block's reference type changes |
| Store.Report.UpdateRef | JS/script.js:165-174 | one reference field of the first matching block, whose data is created empty first if missing |
| Store.Report.UpdateCaption | JS/script.js:181-187 | only the first matching block's caption changes |
| Store.Report.UpdateAIUsed | JS/script.js:213-219 | only the first matching block's `aiUsed` changes |
| Store.Report.UpdateAI | JS/script.js:227-244 | one declaration field of the first matching block, whose data is created empty first if missing |
| Store.Report.UpdateTableColumns | JS/script.js:255-276 | the first matching table is resized; other blocks and non-tables are unchanged; validity is kept |
| Store.Report.UpdateTableCell | JS/script.js:285-293 | one existing cell of the first matching table is written; validity is kept |
| Store.Report.AddTableRow | JS/script.js:299-307 | the first matching table gets one blank row; validity is kept |
| Store.Report.RemoveTableRow | JS/script.js:313-325 | the first matching table loses its last row; the refusal is reported exactly when it has one row or fewer |
| Store.Report.UpdateTableCaption | JS/script.js:332-338 | only a matching table's caption changes; other kinds are left alone |
| TableFormat.ColumnWidth | JS/script.js:841-850 | each width is in [10,30], at least every cell's length capped at 30, and equal to 10 or to one of those capped lengths |
| TableFormat.WidthsBounds | JS/script.js:841-850 | one width per column, each in [10,30] and at least the longest cell of its column up to 30 |
| TableFormat.ColumnWidths | JS/script.js:841-850 | the measuring loop computes exactly those widths |
| TableFormat.PiecesConcat | JS/script.js:853-860 | the wrapped pieces concatenate back to the text |
| TableFormat.PiecesLengths | JS/script.js:853-860 | every piece is non-empty and at most `width` long; all but the last are exactly `width` |
| TableFormat.PiecesCount | JS/script.js:853-860 | the number of pieces is the number of `width` blocks needed to hold the text |
| TableFormat.WrapProps | JS/script.js:853-860 | `wrapText` pieces concatenate to the text, are at most `width` long, all but the last exactly `width`; there is at least one, and `''` gives `['']` |
| TableFormat.WrapText | JS/script.js:853-860 | the wrapping loop returns exactly those pieces |
| TableFormat.Pad | JS/script.js:863-865 | padding never truncates: its length is the larger of the text's length and `width`, the text is a prefix, the rest are spaces |
| TableFormat.WrappedRow | JS/script.js:870-877 | one wrapped cell per column |
| TableFormat.Height | JS/script.js:870-877 | `maxLinesInRow` is at least 1, at least every cell's line count, and equal to 1 or one of them |
| TableFormat.WrapRow | JS/script.js:870-877 | the wrapping loop of a row yields the wrapped cells and their height |
| TableFormat.ContentColumn | JS/script.js:880-886 | column `c` of a content line holds the padded cell line, followed by a vertical bar at the next border |
| TableFormat.ContentLineShape | JS/script.js:880-886 | a content line is `2 + Σ(width+3)` long with a vertical bar at every column border |
| TableFormat.RenderLine | JS/script.js:880-886 | the line loop builds the content line |
| TableFormat.RenderContentLines | JS/script.js:880-887 | the sub-line loop writes each content line followed by a newline |
| TableFormat.SeparatorColumn | JS/script.js:889-893 | column `c` of the separator ends in a `+` at the next border |
| TableFormat.SeparatorShape | JS/script.js:889-893 | the separator is `2 + Σ(width+3)` long with a `+` at every column border |
| TableFormat.RenderSeparator | JS/script.js:889-893 | the separator loop builds the separator |
| TableFormat.WrappedRowFits | JS/script.js:853-877 | every wrapped cell line fits its column |
| TableFormat.RowLinesShape | JS/script.js:868-894 | a row whose tallest cell has `k` pieces is written as `k` content lines and one separator, every line `2 + Σ(width+3)` long, with aligned borders |
| TableFormat.RowLinesWidth | JS/script.js:868-894 | every line of a row has the same width |
| TableFormat.TableLinesWidth | JS/script.js:868-894 | every line of the whole table has the same width `2 + Σ(width+3)` |
| TableFormat.RenderRow | JS/script.js:868-894 | one iteration of the row loop writes that row's lines |
| TableFormat.RenderRows | JS/script.js:868-894 | the row loop writes every row's lines in order |
| TableFormat.FormatTable | JS/script.js:836-895 | the formatter writes exactly the specified table text |
| Strings.Repeat | JS/script.js:779-782 | `c.repeat(n)` is `n` copies of `c` |
| Strings.OrElse | JS/script.js:826 | a string default: `s` unless it is empty, and then `d` |
| Strings.NatToString | JS/script.js:825-826 | a counter in a template is written as decimal digits without leading zeros |
| Strings.NatToStringRoundTrip | JS/script.js:825-826 | reading the written digits back gives the counter |
| Strings.NatToStringInjective | JS/script.js:825-826 | different counters are written differently |
| Export.Tick | JS/script.js:824-906 | an image bumps the figure count, a table the table count, and a reference the reference count only when it has data |
| Export.CountersCount | JS/script.js:775-906 | after `n` blocks the counters equal the number of images, of tables and of references with data among them |
| Export.HeaderTermAlways | JS/script.js:786-798 | the course line is written with the term even when the term is empty |
| Export.CaptionText | JS/script.js:827 | the caption when non-empty, otherwise `Sin descripción` |
| Export.RefLine | JS/script.js:908-914 | every reference line starts with `author, "title`; a book closes the quotes before `. source, `; a web reference closes them before `, source, ` and ends with its URL |
| Export.FirstHeader | JS/script.js:922-923 | the first header block, and `None` exactly when there is none |
| Export.BlockTexts | JS/script.js:784-960 | one text per block, in order |
| Export.ExportStartsWithBanner | JS/script.js:779-782 | every export starts with the banner |
| Export.EmptyExport | JS/script.js:774-782 | an empty report exports just the banner |
| Export.FigureNumbering | JS/script.js:824-826 | image `i` is numbered one plus the images before it |
| Export.TableNumbering | JS/script.js:831-833 | table `i` is numbered one plus the tables before it, independently of the figures |
| Export.RefNumbering | JS/script.js:902-907 | a reference with data is numbered one plus the references with data before it; one without data does not advance the count |
| Export.FigureLabel | JS/script.js:824-826 | image `i`'s text starts with `[FIGURA k]`, where `k` is its position among the images |
| Export.MissingDataWritesNothing | JS/script.js:786-959 | a header, reference or AI block without its data writes nothing |
| Export.DeclarantName | JS/script.js:922-931 | the declarant is the declared name; without one, the name in the first header block; the placeholder when there is no header block or the first one has no data, even if a later header has data |
| Export.WriteBlock | JS/script.js:784-960 | one iteration of the export loop advances the counters and writes the block's template |
| Export.ExportTXT | JS/script.js:774-961 | the export loop builds exactly the specified text |
| Escape.EscapeAttrEmpty | JS/script.js:17-25 | escaping the empty string gives the empty string |
| Escape.ReplaceCharAppend | JS/script.js:17-25 | a global one-character replacement distributes over concatenation |
| Escape.ChainOnChar | JS/script.js:17-25 | the replacement chain turns one character into its entity |
| Escape.ChainAppend | JS/script.js:17-25 | the whole chain distributes over concatenation, for all inputs including empty ones |
| Escape.EscapeAttrIsEscapeEach | JS/script.js:17-25 | replacing `&` first makes the chain equal to escaping character by character, with no double escaping |
| Escape.EscapeAttrNoSpecial | JS/script.js:17-25 | the output contains no raw `<`, `>`, `"` or `'` |
| Escape.UnescapeEntity | JS/script.js:17-25 | decoding consumes exactly one entity at the front |
| Escape.UnescapeEscapeAttr | JS/script.js:17-25 | decoding the five entities recovers the input |

## Left out

- The DOM: `render`, `renderEditor`, every editor renderer, `renderPreview`, and with them
  the HTML form of references and the preview's conditional term. This is user interface.
  The preview writes the web reference's comma inside the quotes; the export, modelled
  here, writes it outside.
- `escapeHtml`: it goes through the browser's own serializer.
- `handleImage`, `loadJSON`, `saveJSON`, local storage and the theme functions: file, JSON
  and storage I/O.
- The drag-and-drop event wiring: only the `moveBlock` splice it calls is modelled.
- `Date.now()`: the new block's id is a parameter of `AddBlock`.
- `toUpperCase` on titles: the `upper` parameter of the export stands for it, left
  uninterpreted.
- The Blob and download tail of the export (JS/script.js:963-969).
- The re-render after every change, and the `console.log` of `moveBlock`. The alert of
  `removeTableRow` is the `refused` result.
- Unique block ids are not a store invariant, because the ids come from `Date.now()` and
  the clock can repeat a value. Every store method keeps ids unique when they were
  unique before. `AddBlock` does so when the new id is not already in use.
- Store.Report.MoveBlock: requires `from` to index a block. Drag indices always do, and
  with an out-of-range index the JavaScript splices `undefined` into the list.
- Blocks.ClampColumns: `parseInt` is modelled by its result, `None` for NaN.
- Field names are closed enumerations, and block kinds the nine the editor offers. A
  setter called with an unknown field name is not modelled.
- String lengths count characters, not UTF-16 code units.
