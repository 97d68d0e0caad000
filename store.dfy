/** The global `reportData` of JS/script.js and the functions that mutate it in place.
    Each method finds the first block with the given id (`reportData.find`) and, if there is
    one, writes one property of it; the re-render that follows every change is not modelled. */
module Store {
  import opened Wrappers
  import opened Blocks

  class Report {
    /** `reportData`: the blocks in document order. */
    var blocks: seq<Block>

    /** Every block carries table data exactly when it is a table, and every table keeps its invariant. */
    ghost predicate Valid()
      reads this
    {
      forall i :: 0 <= i < |blocks| ==> BlockOk(blocks[i])
    }

    /** `let reportData = [];` */
    constructor ()
      ensures Valid() && blocks == []
    {
      blocks := [];
    }

    /** addBlock: append a block of `kind` with its defaults; `id` is the clock reading. */
    method AddBlock(kind: Kind, id: int)
      requires Valid()
      modifies this
      ensures Valid()
      ensures blocks == old(blocks) + [NewBlock(kind, id)]
      ensures UniqueIds(old(blocks)) && (forall i :: 0 <= i < |old(blocks)| ==> old(blocks)[i].id != id) ==>
        UniqueIds(blocks)
    {
      NewBlockOk(kind, id);
      blocks := blocks + [NewBlock(kind, id)];
    }

    /** deleteBlock: keep the blocks whose id differs, in order. */
    method DeleteBlock(id: int)
      requires Valid()
      modifies this
      ensures Valid()
      ensures blocks == Without(old(blocks), id)
      ensures UniqueIds(old(blocks)) ==> UniqueIds(blocks)
      ensures UniqueIds(old(blocks)) && FirstIndex(old(blocks), id).Some? ==> |blocks| == |old(blocks)| - 1
    {
      WithoutMembers(blocks, id);
      if UniqueIds(blocks) {
        WithoutKeepsUnique(blocks, id);
        DeleteRemovesOne(blocks, id);
      }
      blocks := Without(blocks, id);
    }

    /** moveBlock: take out the block at `from` and insert it at `to`. */
    method MoveBlock(from: nat, to: nat)
      requires Valid()
      requires from < |blocks|
      modifies this
      ensures Valid()
      ensures blocks == Moved(old(blocks), from, to)
      ensures UniqueIds(old(blocks)) ==> UniqueIds(blocks)
    {
      var moved := blocks[from];
      var rest := blocks[..from] + blocks[from + 1..];
      var k := if to <= |rest| then to else |rest|;
      var reordered := rest[..k] + [moved] + rest[k..];
      assert reordered == Moved(blocks, from, to);
      MovedKeepsOk(blocks, from, to);
      if UniqueIds(blocks) {
        MovedKeepsUnique(blocks, from, to);
      }
      blocks := reordered;
    }

    /** updateContent: any block's `content`. */
    method UpdateContent(id: int, value: string)
      requires Valid()
      modifies this
      ensures Valid()
      ensures UniqueIds(old(blocks)) ==> UniqueIds(blocks)
      ensures blocks == WriteFirst(old(blocks), id, (b: Block) => b.(content := value))
    {
      match FirstIndex(blocks, id)
      case None =>
      case Some(i) =>
        blocks := blocks[i := blocks[i].(content := value)];
    }

    /** updateHeader: one field of `hData`, only on a block that has `hData`. */
    method UpdateHeader(id: int, field: HeaderField, value: string)
      requires Valid()
      modifies this
      ensures Valid()
      ensures UniqueIds(old(blocks)) ==> UniqueIds(blocks)
      ensures blocks == WriteFirst(old(blocks), id, (b: Block) =>
        match b.hData
        case None => b
        case Some(d) => b.(hData := Some(SetHeaderField(d, field, value))))
    {
      match FirstIndex(blocks, id)
      case None =>
      case Some(i) =>
        match blocks[i].hData
        case None =>
        case Some(d) =>
          blocks := blocks[i := blocks[i].(hData := Some(SetHeaderField(d, field, value)))];
    }

    /** updateRefType: any block's `refType`. */
    method UpdateRefType(id: int, refType: string)
      requires Valid()
      modifies this
      ensures Valid()
      ensures UniqueIds(old(blocks)) ==> UniqueIds(blocks)
      ensures blocks == WriteFirst(old(blocks), id, (b: Block) => b.(refType := Some(refType)))
    {
      match FirstIndex(blocks, id)
      case None =>
      case Some(i) =>
        blocks := blocks[i := blocks[i].(refType := Some(refType))];
    }

    /** updateRef: one field of `refData`, which is first created empty if the block has none. */
    method UpdateRef(id: int, field: RefField, value: string)
      requires Valid()
      modifies this
      ensures Valid()
      ensures UniqueIds(old(blocks)) ==> UniqueIds(blocks)
      ensures blocks == WriteFirst(old(blocks), id, (b: Block) =>
        var d := match b.refData case None => EmptyRef case Some(d) => d;
        b.(refData := Some(SetRefField(d, field, value))))
    {
      match FirstIndex(blocks, id)
      case None =>
      case Some(i) =>
        var d := match blocks[i].refData case None => EmptyRef case Some(d) => d;
        blocks := blocks[i := blocks[i].(refData := Some(SetRefField(d, field, value)))];
    }

    /** updateCaption: any block's `caption`. */
    method UpdateCaption(id: int, value: string)
      requires Valid()
      modifies this
      ensures Valid()
      ensures UniqueIds(old(blocks)) ==> UniqueIds(blocks)
      ensures blocks == WriteFirst(old(blocks), id, (b: Block) => b.(caption := Some(value)))
    {
      match FirstIndex(blocks, id)
      case None =>
      case Some(i) =>
        blocks := blocks[i := blocks[i].(caption := Some(value))];
    }

    /** updateAIUsed: any block's `aiUsed`. */
    method UpdateAIUsed(id: int, value: string)
      requires Valid()
      modifies this
      ensures Valid()
      ensures UniqueIds(old(blocks)) ==> UniqueIds(blocks)
      ensures blocks == WriteFirst(old(blocks), id, (b: Block) => b.(aiUsed := Some(value)))
    {
      match FirstIndex(blocks, id)
      case None =>
      case Some(i) =>
        blocks := blocks[i := blocks[i].(aiUsed := Some(value))];
    }

    /** updateAI: one field of `aiData`, which is first created empty if the block has none. */
    method UpdateAI(id: int, field: AIField, value: string)
      requires Valid()
      modifies this
      ensures Valid()
      ensures UniqueIds(old(blocks)) ==> UniqueIds(blocks)
      ensures blocks == WriteFirst(old(blocks), id, (b: Block) =>
        var d := match b.aiData case None => EmptyAI case Some(d) => d;
        b.(aiData := Some(SetAIField(d, field, value))))
    {
      match FirstIndex(blocks, id)
      case None =>
      case Some(i) =>
        var d := match blocks[i].aiData case None => EmptyAI case Some(d) => d;
        blocks := blocks[i := blocks[i].(aiData := Some(SetAIField(d, field, value)))];
    }

    /** The store after applying a table edit to the first block with this id, when that
        block is a table; unchanged otherwise. */
    ghost function EditTable(before: seq<Block>, id: int, edit: TableData -> TableData): seq<Block>
    {
      WriteFirst(before, id, (b: Block) =>
        if b.kind == Table && b.table.Some? then b.(table := Some(edit(b.table.value))) else b)
    }

    /** updateTableColumns: clamp the count to [1,6] and fit every row to it; tables only. */
    method UpdateTableColumns(id: int, cols: Option<int>)
      requires Valid()
      modifies this
      ensures Valid()
      ensures UniqueIds(old(blocks)) ==> UniqueIds(blocks)
      ensures blocks == EditTable(old(blocks), id, t => ResizeTable(t, cols))
    {
      match FirstIndex(blocks, id)
      case None =>
      case Some(i) =>
        if blocks[i].kind == Table && blocks[i].table.Some? {
          var t := blocks[i].table.value;
          ResizeTableOk(t, cols);
          blocks := blocks[i := blocks[i].(table := Some(ResizeTable(t, cols)))];
        }
    }

    /** updateTableCell: write one existing cell of a table; nothing if the cell does not exist. */
    method UpdateTableCell(id: int, row: int, col: int, value: string)
      requires Valid()
      modifies this
      ensures Valid()
      ensures UniqueIds(old(blocks)) ==> UniqueIds(blocks)
      ensures blocks == EditTable(old(blocks), id, t => SetCell(t, row, col, value))
    {
      match FirstIndex(blocks, id)
      case None =>
      case Some(i) =>
        if blocks[i].kind == Table && blocks[i].table.Some? {
          var t := blocks[i].table.value;
          blocks := blocks[i := blocks[i].(table := Some(SetCell(t, row, col, value)))];
        }
    }

    /** addTableRow: push a row of `columns` empty cells onto a table. */
    method AddTableRow(id: int)
      requires Valid()
      modifies this
      ensures Valid()
      ensures UniqueIds(old(blocks)) ==> UniqueIds(blocks)
      ensures blocks == EditTable(old(blocks), id, AddRow)
    {
      match FirstIndex(blocks, id)
      case None =>
      case Some(i) =>
        if blocks[i].kind == Table && blocks[i].table.Some? {
          var t := blocks[i].table.value;
          blocks := blocks[i := blocks[i].(table := Some(AddRow(t)))];
        }
    }

    /** removeTableRow: pop the last row of a table; `refused` is the alert shown when only
        the header row is left, in which case nothing changes. */
    method RemoveTableRow(id: int) returns (refused: bool)
      requires Valid()
      modifies this
      ensures Valid()
      ensures UniqueIds(old(blocks)) ==> UniqueIds(blocks)
      ensures blocks == EditTable(old(blocks), id, t => RemoveRow(t).0)
      ensures refused <==>
        match FirstIndex(old(blocks), id)
        case None => false
        case Some(i) => old(blocks)[i].kind == Table && |old(blocks)[i].table.value.rows| <= 1
    {
      refused := false;
      match FirstIndex(blocks, id)
      case None =>
      case Some(i) =>
        if blocks[i].kind == Table && blocks[i].table.Some? {
          var t := blocks[i].table.value;
          var (t', ok) := RemoveRow(t);
          refused := !ok;
          blocks := blocks[i := blocks[i].(table := Some(t'))];
        }
    }

    /** updateTableCaption: a table's `caption`; other blocks are left alone. */
    method UpdateTableCaption(id: int, value: string)
      requires Valid()
      modifies this
      ensures Valid()
      ensures UniqueIds(old(blocks)) ==> UniqueIds(blocks)
      ensures blocks == WriteFirst(old(blocks), id, (b: Block) =>
        if b.kind == Table then b.(caption := Some(value)) else b)
    {
      match FirstIndex(blocks, id)
      case None =>
      case Some(i) =>
        if blocks[i].kind == Table {
          blocks := blocks[i := blocks[i].(caption := Some(value))];
        }
    }
  }
}
