/** The report's block records and the value-level operations behind the mutators of
    JS/script.js: block defaults (addBlock), lookup by id (`reportData.find`), deletion
    (`filter`), reordering (`moveBlock`) and the table edits. */
module Blocks {
  import opened Wrappers

  /** The `type` tag a block is created with; it is never changed afterwards. */
  datatype Kind = Header | Title | Subtitle | Text | Code | Image | Table | Ref | AI

  /** `hData` of a header block. */
  datatype HeaderData = HeaderData(
    name: string, group: string, subject: string, prof: string,
    inst: string, term: string, date: string)

  /** The keys the header editor writes through `updateHeader`. */
  datatype HeaderField = Name | Group | Subject | Prof | Inst | Term | Date

  /** `refData` of a reference block. */
  datatype RefData = RefData(author: string, title: string, source: string, year: string, url: string)

  /** The keys the reference editor writes through `updateRef`. */
  datatype RefField = Author | Title | Source | Year | Url

  /** `aiData` of an AI-use declaration. */
  datatype AIData = AIData(
    name: string, aiTool: string, date: string, purpose: string,
    prompt: string, attachments: string, rawResponse: string)

  /** The keys the declaration editor writes through `updateAI`. */
  datatype AIField = Name | AITool | Date | Purpose | Prompt | Attachments | RawResponse

  /** `columns` and `tableData` of a table block: rows of cell strings, row 0 the header row. */
  datatype TableData = TableData(columns: nat, rows: seq<seq<string>>)

  /** A block: the JavaScript object with its always-present `id`, `type` and `content`,
      and the optional properties that addBlock or a setter may have put on it. */
  datatype Block = Block(
    id: int,
    kind: Kind,
    content: string,
    hData: Option<HeaderData>,
    caption: Option<string>,
    refType: Option<string>,
    refData: Option<RefData>,
    aiUsed: Option<string>,
    aiData: Option<AIData>,
    table: Option<TableData>)

  const EmptyHeader := HeaderData("", "", "", "", "", "", "")
  const EmptyRef := RefData("", "", "", "", "")
  const EmptyAI := AIData("", "", "", "", "", "", "")

  /** Fewest and most columns a table may have. */
  const MinColumns := 1
  const MaxColumns := 6
  /** Column count used when the requested count is 0 or not a number. */
  const DefaultColumns := 3

  // ---------------------------------------------------------------------------
  // Invariants

  /** What every table keeps: a column count in [1,6], at least the header row,
      and every row exactly `columns` cells long. */
  ghost predicate TableOk(t: TableData)
  {
    && MinColumns <= t.columns <= MaxColumns
    && |t.rows| >= 1
    && forall r :: 0 <= r < |t.rows| ==> |t.rows[r]| == t.columns
  }

  /** A block carries table data exactly when it is a table, and that data is well formed. */
  ghost predicate BlockOk(b: Block)
  {
    && (b.kind == Table <==> b.table.Some?)
    && (b.table.Some? ==> TableOk(b.table.value))
  }

  ghost predicate UniqueIds(blocks: seq<Block>)
  {
    forall i, j :: 0 <= i < j < |blocks| ==> blocks[i].id != blocks[j].id
  }

  // ---------------------------------------------------------------------------
  // Block factory (addBlock)

  /** A row of `n` empty cells: `Array(n).fill('')`. */
  function BlankRow(n: nat): (r: seq<string>)
    ensures |r| == n && forall i :: 0 <= i < n ==> r[i] == ""
  {
    seq(n, _ => "")
  }

  /** The record addBlock builds for `kind`, with the id the clock supplied. */
  function NewBlock(kind: Kind, id: int): Block
  {
    Block(
      id, kind, "",
      if kind == Header then Some(EmptyHeader) else None,
      if kind == Image || kind == Table then Some("") else None,
      if kind == Ref then Some("web") else None,
      if kind == Ref then Some(EmptyRef) else None,
      if kind == AI then Some("no") else None,
      if kind == AI then Some(EmptyAI) else None,
      if kind == Table then Some(TableData(DefaultColumns, [BlankRow(3), BlankRow(3)])) else None)
  }

  /** A new block is well formed, empty, and a new table is 3 columns by two blank rows. */
  lemma NewBlockOk(kind: Kind, id: int)
    ensures BlockOk(NewBlock(kind, id))
    ensures NewBlock(kind, id).id == id && NewBlock(kind, id).kind == kind
    ensures NewBlock(kind, id).content == ""
    ensures kind == Table ==>
      && NewBlock(kind, id).table.value.columns == 3
      && NewBlock(kind, id).table.value.rows == [["", "", ""], ["", "", ""]]
    ensures kind == Ref ==> NewBlock(kind, id).refType == Some("web")
    ensures kind == AI ==> NewBlock(kind, id).aiUsed == Some("no")
  {
    if kind == Table {
      assert BlankRow(3) == ["", "", ""];
    }
  }

  /** Appending a block whose id no block has keeps ids unique. */
  lemma AppendFreshIdKeepsUnique(blocks: seq<Block>, b: Block)
    requires UniqueIds(blocks)
    requires forall i :: 0 <= i < |blocks| ==> blocks[i].id != b.id
    ensures UniqueIds(blocks + [b])
  {
  }

  // ---------------------------------------------------------------------------
  // Lookup (`reportData.find(b => b.id === id)`)

  /** Index of the first block with this id, if any. */
  function FirstIndex(blocks: seq<Block>, id: int): (r: Option<nat>)
    ensures r.Some? ==>
      && r.value < |blocks|
      && blocks[r.value].id == id
      && forall j :: 0 <= j < r.value ==> blocks[j].id != id
    ensures r.None? <==> forall j :: 0 <= j < |blocks| ==> blocks[j].id != id
  {
    if blocks == [] then None
    else if blocks[0].id == id then Some(0)
    else match FirstIndex(blocks[1..], id)
      case None => None
      case Some(k) => Some(k + 1)
  }

  /** With unique ids, the first match is the only match. */
  lemma FirstIndexUnique(blocks: seq<Block>, id: int, i: nat)
    requires UniqueIds(blocks)
    requires i < |blocks| && blocks[i].id == id
    ensures FirstIndex(blocks, id) == Some(i)
  {
  }

  /** The store after writing `f` into the first block whose id matches; unchanged when none does. */
  function WriteFirst(blocks: seq<Block>, id: int, f: Block -> Block): (r: seq<Block>)
    ensures |r| == |blocks|
    ensures FirstIndex(blocks, id).None? ==> r == blocks
    ensures FirstIndex(blocks, id).Some? ==>
      var i := FirstIndex(blocks, id).value;
      r[i] == f(blocks[i]) && forall j :: 0 <= j < |blocks| && j != i ==> r[j] == blocks[j]
  {
    match FirstIndex(blocks, id)
    case None => blocks
    case Some(i) => blocks[i := f(blocks[i])]
  }

  // ---------------------------------------------------------------------------
  // Deletion (`reportData.filter(block => block.id !== id)`)

  function CountId(blocks: seq<Block>, id: int): nat
  {
    if blocks == [] then 0 else (if blocks[0].id == id then 1 else 0) + CountId(blocks[1..], id)
  }

  /** The blocks whose id differs from `id`, in their original order. */
  function Without(blocks: seq<Block>, id: int): (r: seq<Block>)
    ensures |r| == |blocks| - CountId(blocks, id)
  {
    if blocks == [] then []
    else if blocks[0].id == id then Without(blocks[1..], id)
    else [blocks[0]] + Without(blocks[1..], id)
  }

  /** A block survives deletion exactly when it was in the store and has a different id. */
  lemma {:induction false} WithoutMembers(blocks: seq<Block>, id: int)
    ensures forall b :: b in Without(blocks, id) <==> b in blocks && b.id != id
  {
    if blocks != [] {
      WithoutMembers(blocks[1..], id);
      assert blocks == [blocks[0]] + blocks[1..];
    }
  }

  /** Filtering distributes over concatenation, so relative order is kept. */
  lemma {:induction false} WithoutAppend(a: seq<Block>, b: seq<Block>, id: int)
    ensures Without(a + b, id) == Without(a, id) + Without(b, id)
  {
    if a == [] {
      assert a + b == b;
    } else {
      assert (a + b)[0] == a[0] && (a + b)[1..] == a[1..] + b;
      WithoutAppend(a[1..], b, id);
    }
  }

  /** Filtering keeps ids unique: the survivors are a subsequence of the store. */
  lemma {:induction false} WithoutKeepsUnique(blocks: seq<Block>, id: int)
    requires UniqueIds(blocks)
    ensures UniqueIds(Without(blocks, id))
  {
    if blocks != [] {
      var rest := blocks[1..];
      assert UniqueIds(rest) by {
        forall i, j | 0 <= i < j < |rest| ensures rest[i].id != rest[j].id {
          assert rest[i] == blocks[i + 1] && rest[j] == blocks[j + 1];
        }
      }
      WithoutKeepsUnique(rest, id);
      if blocks[0].id != id {
        var tail := Without(rest, id);
        WithoutMembers(rest, id);
        forall b | b in tail ensures b.id != blocks[0].id {
          var k :| 0 <= k < |rest| && rest[k] == b;
          assert blocks[k + 1] == b;
        }
        var r := [blocks[0]] + tail;
        forall i, j | 0 <= i < j < |r| ensures r[i].id != r[j].id {
          if i == 0 {
            assert r[j] == tail[j - 1] && r[j] in tail;
          } else {
            assert r[i] == tail[i - 1] && r[j] == tail[j - 1];
          }
        }
      }
    }
  }

  lemma {:induction false} CountIdUnique(blocks: seq<Block>, id: int, i: nat)
    requires UniqueIds(blocks)
    requires i < |blocks| && blocks[i].id == id
    ensures CountId(blocks, id) == 1
  {
    if i == 0 {
      CountIdAbsent(blocks[1..], id);
    } else {
      CountIdUnique(blocks[1..], id, i - 1);
    }
  }

  lemma {:induction false} CountIdAbsent(blocks: seq<Block>, id: int)
    requires forall j :: 0 <= j < |blocks| ==> blocks[j].id != id
    ensures CountId(blocks, id) == 0
  {
    if blocks != [] {
      CountIdAbsent(blocks[1..], id);
    }
  }

  /** With unique ids, deleting a present id removes exactly one block, and deleting an
      absent id changes nothing. */
  lemma DeleteRemovesOne(blocks: seq<Block>, id: int)
    requires UniqueIds(blocks)
    ensures FirstIndex(blocks, id).Some? ==> |Without(blocks, id)| == |blocks| - 1
    ensures FirstIndex(blocks, id).None? ==> Without(blocks, id) == blocks
  {
    match FirstIndex(blocks, id)
    case Some(i) => CountIdUnique(blocks, id, i);
    case None => WithoutAbsent(blocks, id);
  }

  lemma {:induction false} WithoutAbsent(blocks: seq<Block>, id: int)
    requires forall j :: 0 <= j < |blocks| ==> blocks[j].id != id
    ensures Without(blocks, id) == blocks
  {
    if blocks != [] {
      WithoutAbsent(blocks[1..], id);
      assert blocks == [blocks[0]] + blocks[1..];
    }
  }

  // ---------------------------------------------------------------------------
  // Reordering (`moveBlock`: splice out at `from`, splice in at `to`)

  /** `splice(from, 1)` followed by `splice(to, 0, moved)`; an insertion index past the end
      of the shortened store appends, as `splice` does. */
  function Moved(blocks: seq<Block>, from: nat, to: nat): (r: seq<Block>)
    requires from < |blocks|
    ensures |r| == |blocks|
    ensures r[Landing(blocks, to)] == blocks[from]
  {
    var rest := blocks[..from] + blocks[from + 1..];
    var k := if to <= |rest| then to else |rest|;
    rest[..k] + [blocks[from]] + rest[k..]
  }

  /** Where the moved block ends up: `to`, or the last position when `to` is past the end. */
  function Landing(blocks: seq<Block>, to: nat): (k: nat)
    requires |blocks| > 0
    ensures k < |blocks|
  {
    if to < |blocks| then to else |blocks| - 1
  }

  /** The position in the original store of the block at position `i` after moving the block
      at `from` so that it lands at `k`. */
  function MovedSource(from: nat, k: nat, i: nat): nat
  {
    if i < k then (if i < from then i else i + 1)
    else if i == k then from
    else if i - 1 < from then i - 1
    else i
  }

  /** Every block of the reordered store is the original block at `MovedSource`. */
  lemma MovedAt(blocks: seq<Block>, from: nat, to: nat, i: nat)
    requires from < |blocks| && i < |blocks|
    ensures MovedSource(from, Landing(blocks, to), i) < |blocks|
    ensures Moved(blocks, from, to)[i] == blocks[MovedSource(from, Landing(blocks, to), i)]
  {
    var rest := blocks[..from] + blocks[from + 1..];
    var k := Landing(blocks, to);
    assert Moved(blocks, from, to) == rest[..k] + [blocks[from]] + rest[k..];
    if i != k {
      var j := if i < k then i else i - 1;
      assert rest[j] == blocks[if j < from then j else j + 1];
    }
  }

  /** Reordering is a permutation: the same blocks, each as often as before. */
  lemma MovedPermutes(blocks: seq<Block>, from: nat, to: nat)
    requires from < |blocks|
    ensures multiset(Moved(blocks, from, to)) == multiset(blocks)
  {
    var rest := blocks[..from] + blocks[from + 1..];
    var k := Landing(blocks, to);
    assert blocks == blocks[..from] + [blocks[from]] + blocks[from + 1..];
    assert multiset(blocks) == multiset(rest) + multiset{blocks[from]};
    assert rest == rest[..k] + rest[k..];
    assert multiset(rest) == multiset(rest[..k]) + multiset(rest[k..]);
  }

  /** Moving back from the destination to the origin restores the original order. */
  lemma MoveBackRestores(blocks: seq<Block>, from: nat, to: nat)
    requires from < |blocks| && to < |blocks|
    ensures Moved(Moved(blocks, from, to), to, from) == blocks
  {
    var rest := blocks[..from] + blocks[from + 1..];
    var m := Moved(blocks, from, to);
    assert m == rest[..to] + [blocks[from]] + rest[to..];
    assert m[..to] + m[to + 1..] == rest;
    assert rest[..from] + [blocks[from]] + rest[from..] == blocks;
  }

  /** Dragging the first of four blocks onto the third: [A,B,C,D] becomes [B,C,A,D]. */
  lemma MoveExample(a: Block, b: Block, c: Block, d: Block)
    ensures Moved([a, b, c, d], 0, 2) == [b, c, a, d]
  {
    var s := [a, b, c, d];
    assert s[..0] + s[1..] == [b, c, d];
  }

  /** Reordering keeps ids unique. */
  lemma MovedKeepsUnique(blocks: seq<Block>, from: nat, to: nat)
    requires from < |blocks| && UniqueIds(blocks)
    ensures UniqueIds(Moved(blocks, from, to))
  {
    var r := Moved(blocks, from, to);
    var k := Landing(blocks, to);
    forall i, j | 0 <= i < j < |r| ensures r[i].id != r[j].id {
      MovedAt(blocks, from, to, i);
      MovedAt(blocks, from, to, j);
      var si, sj := MovedSource(from, k, i), MovedSource(from, k, j);
      assert si != sj;
      if si < sj {
        assert blocks[si].id != blocks[sj].id;
      } else {
        assert blocks[sj].id != blocks[si].id;
      }
    }
  }

  /** Reordering keeps every block well formed: it only moves blocks around. */
  lemma MovedKeepsOk(blocks: seq<Block>, from: nat, to: nat)
    requires from < |blocks|
    requires forall i :: 0 <= i < |blocks| ==> BlockOk(blocks[i])
    ensures forall i :: 0 <= i < |blocks| ==> BlockOk(Moved(blocks, from, to)[i])
  {
    forall i | 0 <= i < |blocks| ensures BlockOk(Moved(blocks, from, to)[i]) {
      MovedAt(blocks, from, to, i);
    }
  }

  // ---------------------------------------------------------------------------
  // Table edits

  /** `Math.max(1, Math.min(6, parseInt(cols) || 3))`, where `None` stands for a NaN parse. */
  function ClampColumns(cols: Option<int>): (n: nat)
    ensures MinColumns <= n <= MaxColumns
    ensures cols == None || cols == Some(0) ==> n == DefaultColumns
    ensures cols.Some? && MinColumns <= cols.value <= MaxColumns ==> n == cols.value
    ensures cols.Some? && cols.value > MaxColumns ==> n == MaxColumns
    ensures cols.Some? && cols.value < 0 ==> n == MinColumns
  {
    var parsed := match cols case None => DefaultColumns case Some(v) => if v == 0 then DefaultColumns else v;
    if parsed > MaxColumns then MaxColumns else if parsed < MinColumns then MinColumns else parsed
  }

  /** One row cut or padded with `''` to exactly `n` cells. */
  function FitRow(row: seq<string>, n: nat): (r: seq<string>)
    ensures |r| == n
    ensures forall i :: 0 <= i < n && i < |row| ==> r[i] == row[i]
    ensures forall i :: |row| <= i < n ==> r[i] == ""
  {
    if |row| > n then row[..n]
    else if |row| < n then row + BlankRow(n - |row|)
    else row
  }

  /** updateTableColumns on the table: clamp the count and fit every row to it. */
  function ResizeTable(t: TableData, cols: Option<int>): (r: TableData)
    ensures r.columns == ClampColumns(cols)
    ensures |r.rows| == |t.rows|
    ensures forall i :: 0 <= i < |r.rows| ==> |r.rows[i]| == r.columns
    ensures forall i, j :: 0 <= i < |r.rows| && 0 <= j < r.columns && j < |t.rows[i]| ==>
      r.rows[i][j] == t.rows[i][j]
    ensures forall i, j :: 0 <= i < |r.rows| && |t.rows[i]| <= j < r.columns ==> r.rows[i][j] == ""
  {
    var n := ClampColumns(cols);
    TableData(n, seq(|t.rows|, i requires 0 <= i < |t.rows| => FitRow(t.rows[i], n)))
  }

  /** Setting the same column count twice is the same as setting it once. */
  lemma ResizeIdempotent(t: TableData, cols: Option<int>)
    ensures ResizeTable(ResizeTable(t, cols), cols) == ResizeTable(t, cols)
  {
    var r1 := ResizeTable(t, cols);
    var r2 := ResizeTable(r1, cols);
    assert forall i :: 0 <= i < |r2.rows| ==> r2.rows[i] == r1.rows[i];
  }

  /** A resized table with at least the header row satisfies the table invariant. */
  lemma ResizeTableOk(t: TableData, cols: Option<int>)
    requires |t.rows| >= 1
    ensures TableOk(ResizeTable(t, cols))
  {
  }

  /** updateTableCell on the table: write the cell only if row and column index an existing cell. */
  function SetCell(t: TableData, row: int, col: int, value: string): (r: TableData)
    ensures r.columns == t.columns && |r.rows| == |t.rows|
    ensures forall i :: 0 <= i < |t.rows| ==> |r.rows[i]| == |t.rows[i]|
    ensures 0 <= row < |t.rows| && 0 <= col < |t.rows[row]| ==> r.rows[row][col] == value
    ensures forall i, j :: 0 <= i < |t.rows| && 0 <= j < |t.rows[i]| && (i, j) != (row, col) ==>
      r.rows[i][j] == t.rows[i][j]
    ensures !(0 <= row < |t.rows| && 0 <= col < |t.rows[row]|) ==> r == t
  {
    if 0 <= row < |t.rows| && 0 <= col < |t.rows[row]| then
      t.(rows := t.rows[row := t.rows[row][col := value]])
    else t
  }

  /** addTableRow on the table: one more row of `columns` empty cells at the bottom. */
  function AddRow(t: TableData): (r: TableData)
    ensures r.columns == t.columns
    ensures |r.rows| == |t.rows| + 1 && r.rows[..|t.rows|] == t.rows
    ensures r.rows[|t.rows|] == BlankRow(t.columns)
  {
    t.(rows := t.rows + [BlankRow(t.columns)])
  }

  /** removeTableRow on the table: refused (false) while only the header row is left,
      otherwise drops the last row. */
  function RemoveRow(t: TableData): (r: (TableData, bool))
    ensures r.1 <==> |t.rows| > 1
    ensures !r.1 ==> r.0 == t
    ensures r.1 ==> r.0.columns == t.columns && r.0.rows == t.rows[..|t.rows| - 1]
    ensures |r.0.rows| >= 1 || |t.rows| == 0
  {
    if |t.rows| <= 1 then (t, false) else (t.(rows := t.rows[..|t.rows| - 1]), true)
  }

  /** Every table edit keeps the table invariant. */
  lemma TableEditsKeepTableOk(t: TableData, cols: Option<int>, row: int, col: int, value: string)
    requires TableOk(t)
    ensures TableOk(ResizeTable(t, cols))
    ensures TableOk(SetCell(t, row, col, value))
    ensures TableOk(AddRow(t))
    ensures TableOk(RemoveRow(t).0)
  {
  }

  /** Adding a row and then removing one gives back the table. */
  lemma AddThenRemoveRow(t: TableData)
    requires |t.rows| >= 1
    ensures RemoveRow(AddRow(t)) == (t, true)
  {
  }

  // ---------------------------------------------------------------------------
  // Field writes

  function SetHeaderField(d: HeaderData, field: HeaderField, value: string): HeaderData
  {
    match field
    case Name => d.(name := value)
    case Group => d.(group := value)
    case Subject => d.(subject := value)
    case Prof => d.(prof := value)
    case Inst => d.(inst := value)
    case Term => d.(term := value)
    case Date => d.(date := value)
  }

  function SetRefField(d: RefData, field: RefField, value: string): RefData
  {
    match field
    case Author => d.(author := value)
    case Title => d.(title := value)
    case Source => d.(source := value)
    case Year => d.(year := value)
    case Url => d.(url := value)
  }

  function SetAIField(d: AIData, field: AIField, value: string): AIData
  {
    match field
    case Name => d.(name := value)
    case AITool => d.(aiTool := value)
    case Date => d.(date := value)
    case Purpose => d.(purpose := value)
    case Prompt => d.(prompt := value)
    case Attachments => d.(attachments := value)
    case RawResponse => d.(rawResponse := value)
  }

  function HeaderValue(d: HeaderData, field: HeaderField): string
  {
    match field
    case Name => d.name
    case Group => d.group
    case Subject => d.subject
    case Prof => d.prof
    case Inst => d.inst
    case Term => d.term
    case Date => d.date
  }

  function RefValue(d: RefData, field: RefField): string
  {
    match field
    case Author => d.author
    case Title => d.title
    case Source => d.source
    case Year => d.year
    case Url => d.url
  }

  function AIValue(d: AIData, field: AIField): string
  {
    match field
    case Name => d.name
    case AITool => d.aiTool
    case Date => d.date
    case Purpose => d.purpose
    case Prompt => d.prompt
    case Attachments => d.attachments
    case RawResponse => d.rawResponse
  }

  /** Writing a header field sets that field and leaves the other six as they were. */
  lemma SetHeaderFieldOnly(d: HeaderData, field: HeaderField, value: string)
    ensures HeaderValue(SetHeaderField(d, field, value), field) == value
    ensures forall f :: f != field ==> HeaderValue(SetHeaderField(d, field, value), f) == HeaderValue(d, f)
  {
  }

  /** Writing a reference field sets that field and leaves the other four as they were. */
  lemma SetRefFieldOnly(d: RefData, field: RefField, value: string)
    ensures RefValue(SetRefField(d, field, value), field) == value
    ensures forall f :: f != field ==> RefValue(SetRefField(d, field, value), f) == RefValue(d, f)
  {
  }

  /** Writing a declaration field sets that field and leaves the other six as they were. */
  lemma SetAIFieldOnly(d: AIData, field: AIField, value: string)
    ensures AIValue(SetAIField(d, field, value), field) == value
    ensures forall f :: f != field ==> AIValue(SetAIField(d, field, value), f) == AIValue(d, f)
  {
  }
}
