/** The fixed-width plain-text table that exportTXT writes for a table block
    (JS/script.js:836-895): column widths clamped to [10,30], a hard character wrap of every
    cell, space padding, rows that grow to their tallest cell, and `+-…-+-` separators. */
module TableFormat {
  import opened Strings

  /** Narrowest and widest a column is drawn (`maxWidth` starts at 10; MAX_COL_WIDTH is 30). */
  const MinWidth := 10
  const MaxWidth := 30

  // ---------------------------------------------------------------------------
  // Column widths

  /** `String(tableData[r][c] || '')`: a cell the row does not have reads as the empty string. */
  function Cell(rows: seq<seq<string>>, r: nat, c: nat): string
    requires r < |rows|
  {
    if c < |rows[r]| then rows[r][c] else ""
  }

  /** The width of column `c` once the first `n` rows have been measured. */
  function ColumnWidth(rows: seq<seq<string>>, c: nat, n: nat): (w: nat)
    requires n <= |rows|
    ensures MinWidth <= w <= MaxWidth
    ensures forall r :: 0 <= r < n ==> w >= Min(|Cell(rows, r, c)|, MaxWidth)
    ensures w == MinWidth || exists r :: 0 <= r < n && w == Min(|Cell(rows, r, c)|, MaxWidth)
  {
    if n == 0 then MinWidth
    else Max(ColumnWidth(rows, c, n - 1), Min(|Cell(rows, n - 1, c)|, MaxWidth))
  }

  /** `colWidths`: one width per column, every row measured. */
  function Widths(rows: seq<seq<string>>, cols: nat): seq<nat>
  {
    seq(cols, c requires 0 <= c < cols => ColumnWidth(rows, c, |rows|))
  }

  predicate Positive(widths: seq<nat>)
  {
    forall c :: 0 <= c < |widths| ==> widths[c] > 0
  }

  /** Every column width lies in [10,30] and is at least as wide as the longest cell of the
      column, up to 30. */
  lemma WidthsBounds(rows: seq<seq<string>>, cols: nat)
    ensures |Widths(rows, cols)| == cols && Positive(Widths(rows, cols))
    ensures forall c :: 0 <= c < cols ==> MinWidth <= Widths(rows, cols)[c] <= MaxWidth
    ensures forall c, r :: 0 <= c < cols && 0 <= r < |rows| ==>
      Widths(rows, cols)[c] >= Min(|Cell(rows, r, c)|, MaxWidth)
  {
  }

  /** The measuring loop: for every column, the longest cell length clamped to [10,30]. */
  method ColumnWidths(rows: seq<seq<string>>, cols: nat) returns (widths: seq<nat>)
    ensures widths == Widths(rows, cols)
  {
    widths := [];
    var col := 0;
    while col < cols
      invariant 0 <= col <= cols
      invariant widths == Widths(rows, col)
    {
      var maxWidth := MinWidth;
      var row := 0;
      while row < |rows|
        invariant 0 <= row <= |rows|
        invariant maxWidth == ColumnWidth(rows, col, row)
      {
        var cellContent := if col < |rows[row]| then rows[row][col] else "";
        maxWidth := Max(maxWidth, Min(|cellContent|, MaxWidth));
        row := row + 1;
      }
      widths := widths + [maxWidth];
      col := col + 1;
    }
  }

  // ---------------------------------------------------------------------------
  // wrapText and pad

  /** Consecutive `width`-character pieces of `s`, the last one possibly shorter. */
  function Pieces(s: string, width: nat): seq<string>
    requires width > 0
    decreases |s|
  {
    if s == [] then []
    else if |s| <= width then [s]
    else [s[..width]] + Pieces(s[width..], width)
  }

  /** `wrapText(text, width)`: a hard wrap every `width` characters; no text gives one empty line. */
  function Wrap(s: string, width: nat): seq<string>
    requires width > 0
  {
    if s == [] then [""] else Pieces(s, width)
  }

  /** The pieces put back together give the text. */
  lemma {:induction false} PiecesConcat(s: string, width: nat)
    requires width > 0
    ensures Concat(Pieces(s, width)) == s
    decreases |s|
  {
    if |s| > width {
      var head, tail := s[..width], s[width..];
      var rest := Pieces(tail, width);
      assert Pieces(s, width) == [head] + rest;
      PiecesConcat(tail, width);
      ConcatSingle(head);
      ConcatAppend([head], rest);
      assert s == head + tail;
    } else if s != [] {
      ConcatSingle(s);
    }
  }

  /** Every piece is non-empty and at most `width` long; all but the last are exactly `width`. */
  lemma {:induction false} PiecesLengths(s: string, width: nat)
    requires width > 0
    ensures forall i :: 0 <= i < |Pieces(s, width)| ==> 0 < |Pieces(s, width)[i]| <= width
    ensures forall i :: 0 <= i < |Pieces(s, width)| - 1 ==> |Pieces(s, width)[i]| == width
    decreases |s|
  {
    if |s| > width {
      var rest := Pieces(s[width..], width);
      PiecesLengths(s[width..], width);
      assert Pieces(s, width) == [s[..width]] + rest;
    }
  }

  /** There are as many pieces as `width`-character blocks needed to hold the text. */
  lemma {:induction false} PiecesCount(s: string, width: nat)
    requires width > 0
    ensures |Pieces(s, width)| * width >= |s| > (|Pieces(s, width)| - 1) * width
    decreases |s|
  {
    if |s| > width {
      var k := |Pieces(s[width..], width)|;
      PiecesCount(s[width..], width);
      assert |Pieces(s, width)| == k + 1;
      assert (k + 1) * width == k * width + width;
      assert k * width == (k - 1) * width + width;
    }
  }

  /** wrapText's pieces put back together give the text; each is at most `width` long, all but
      the last exactly `width`; there is always at least one, and an empty text gives `['']`. */
  lemma WrapProps(s: string, width: nat)
    requires width > 0
    ensures Concat(Wrap(s, width)) == s
    ensures |Wrap(s, width)| >= 1
    ensures forall i :: 0 <= i < |Wrap(s, width)| ==> |Wrap(s, width)[i]| <= width
    ensures forall i :: 0 <= i < |Wrap(s, width)| - 1 ==> |Wrap(s, width)[i]| == width
    ensures s == "" ==> Wrap(s, width) == [""]
    ensures s != "" ==> |Wrap(s, width)| * width >= |s| > (|Wrap(s, width)| - 1) * width
  {
    PiecesConcat(s, width);
    PiecesLengths(s, width);
    PiecesCount(s, width);
    if s == [] {
      assert Concat([""]) == Concat([]) + "";
    }
  }

  /** The wrapping loop: push `str.substring(i, i + width)` for `i = 0, width, 2*width, …`. */
  method WrapText(text: string, width: nat) returns (lines: seq<string>)
    requires width > 0
    ensures lines == Wrap(text, width)
  {
    lines := [];
    var i := 0;
    while i < |text|
      invariant 0 <= i
      invariant lines + Pieces(text[Min(i, |text|)..], width) == Pieces(text, width)
    {
      var end := Min(i + width, |text|);
      var piece := text[i..end];
      assert Pieces(text[i..], width) == [piece] + Pieces(text[end..], width) by {
        var t := text[i..];
        if |t| <= width {
          assert t == piece && text[end..] == [];
        } else {
          assert t[..width] == piece && t[width..] == text[end..];
        }
      }
      lines := lines + [piece];
      i := i + width;
    }
    assert text[Min(i, |text|)..] == [];
    if |lines| == 0 {
      lines := [""];
    }
  }

  /** `pad(str, width)`: `str` followed by spaces up to `width`; never cut. */
  function Pad(s: string, width: nat): (r: string)
    ensures |r| == Max(|s|, width)
    ensures r[..|s|] == s
    ensures forall i :: |s| <= i < |r| ==> r[i] == ' '
  {
    s + Repeat(' ', if width > |s| then width - |s| else 0)
  }

  // ---------------------------------------------------------------------------
  // Row rendering

  /** `cellLines[col][l] || ''`: a cell that has run out of lines shows blank. */
  function CellLine(lines: seq<string>, l: nat): string
  {
    if l < |lines| then lines[l] else ""
  }

  /** `cellLines` of row `r`: every cell of the row wrapped to its column's width. */
  function WrappedRow(rows: seq<seq<string>>, r: nat, widths: seq<nat>): (cells: seq<seq<string>>)
    requires r < |rows| && Positive(widths)
    ensures |cells| == |widths|
  {
    seq(|widths|, c requires 0 <= c < |widths| => Wrap(Cell(rows, r, c), widths[c]))
  }

  /** `maxLinesInRow`: at least 1, and the tallest wrapped cell. */
  function Height(cells: seq<seq<string>>): (h: nat)
    ensures h >= 1
    ensures forall c :: 0 <= c < |cells| ==> h >= |cells[c]|
    ensures h == 1 || exists c :: 0 <= c < |cells| && h == |cells[c]|
  {
    if cells == [] then 1 else Max(Height(cells[..|cells| - 1]), |cells[|cells| - 1]|)
  }

  /** The pieces of physical line `l` of a row, one per column: the padded content and ` | `. */
  function ContentSegments(cells: seq<seq<string>>, widths: seq<nat>, l: nat): (segs: seq<string>)
    requires |cells| == |widths|
    ensures |segs| == |widths|
  {
    seq(|widths|, c requires 0 <= c < |widths| => Pad(CellLine(cells[c], l), widths[c]) + " | ")
  }

  function ContentLine(cells: seq<seq<string>>, widths: seq<nat>, l: nat): string
    requires |cells| == |widths|
  {
    "| " + Concat(ContentSegments(cells, widths, l))
  }

  /** The pieces of the separator after the leading `+-`: dashes over the column and `-+-`. */
  function SeparatorSegments(widths: seq<nat>): (segs: seq<string>)
    ensures |segs| == |widths|
  {
    seq(|widths|, c requires 0 <= c < |widths| => Repeat('-', widths[c]) + "-+-")
  }

  function Separator(widths: seq<nat>): string
  {
    "+-" + Concat(SeparatorSegments(widths))
  }

  /** The first `n` content lines of a row. */
  function ContentLines(cells: seq<seq<string>>, widths: seq<nat>, n: nat): (lines: seq<string>)
    requires |cells| == |widths|
    ensures |lines| == n
  {
    if n == 0 then [] else ContentLines(cells, widths, n - 1) + [ContentLine(cells, widths, n - 1)]
  }

  lemma {:induction false} ContentLinesAt(cells: seq<seq<string>>, widths: seq<nat>, n: nat, l: nat)
    requires |cells| == |widths| && l < n
    ensures ContentLines(cells, widths, n)[l] == ContentLine(cells, widths, l)
  {
    if l < n - 1 {
      ContentLinesAt(cells, widths, n - 1, l);
    }
  }

  /** The physical lines written for row `r`: one per line of its tallest cell, then the separator. */
  function RowLines(rows: seq<seq<string>>, r: nat, widths: seq<nat>): seq<string>
    requires r < |rows| && Positive(widths)
  {
    var cells := WrappedRow(rows, r, widths);
    ContentLines(cells, widths, Height(cells)) + [Separator(widths)]
  }

  /** The physical lines of every row, row by row. */
  function AllRowLines(rows: seq<seq<string>>, widths: seq<nat>): (groups: seq<seq<string>>)
    requires Positive(widths)
    ensures |groups| == |rows|
  {
    seq(|rows|, r requires 0 <= r < |rows| => RowLines(rows, r, widths))
  }

  /** All the lines written for the table. */
  function TableLines(rows: seq<seq<string>>, widths: seq<nat>): seq<string>
    requires Positive(widths)
  {
    Flatten(AllRowLines(rows, widths))
  }

  /** The text the formatter appends for a non-empty `tableData` drawn with `cols` columns. */
  function TableText(rows: seq<seq<string>>, cols: nat): string
  {
    WidthsBounds(rows, cols);
    Unlines(TableLines(rows, Widths(rows, cols)))
  }

  // ---------------------------------------------------------------------------
  // Geometry

  /** Where the border before column `k` sits: the widths of the first `k` columns, each
      with its three border characters. */
  function Offset(widths: seq<nat>, k: nat): nat
    requires k <= |widths|
  {
    if k == 0 then 0 else Offset(widths, k - 1) + widths[k - 1] + 3
  }

  /** Length of every line of a table with these column widths: `2 + Σ(width[c] + 3)`. */
  function LineWidth(widths: seq<nat>): nat
  {
    2 + Offset(widths, |widths|)
  }

  lemma {:induction false} ConcatPrefixLength(segs: seq<string>, widths: seq<nat>, k: nat)
    requires |segs| == |widths| && k <= |segs|
    requires forall c :: 0 <= c < |segs| ==> |segs[c]| == widths[c] + 3
    ensures |Concat(segs[..k])| == Offset(widths, k)
  {
    if k > 0 {
      ConcatPrefixLength(segs, widths, k - 1);
      assert segs[..k][..k - 1] == segs[..k - 1];
    }
  }

  /** In a concatenation of segments of known widths, segment `c` starts at `Offset(widths, c)`. */
  lemma ConcatAt(segs: seq<string>, widths: seq<nat>, c: nat)
    requires |segs| == |widths| && c < |segs|
    requires forall j :: 0 <= j < |segs| ==> |segs[j]| == widths[j] + 3
    ensures |Concat(segs)| == Offset(widths, |widths|)
    ensures Offset(widths, c + 1) <= |Concat(segs)|
    ensures Concat(segs)[Offset(widths, c)..Offset(widths, c + 1)] == segs[c]
  {
    ConcatPrefixLength(segs, widths, |segs|);
    ConcatPrefixLength(segs, widths, c);
    assert segs[..|segs|] == segs;
    assert segs == segs[..c + 1] + segs[c + 1..];
    ConcatAppend(segs[..c + 1], segs[c + 1..]);
    assert segs[..c + 1][..c] == segs[..c];
    OffsetMonotone(widths, c + 1, |widths|);
  }

  lemma {:induction false} OffsetMonotone(widths: seq<nat>, i: nat, j: nat)
    requires i <= j <= |widths|
    ensures Offset(widths, i) <= Offset(widths, j)
    decreases j
  {
    if i < j {
      OffsetMonotone(widths, i, j - 1);
    }
  }

  /** Every cell line fits its column. */
  predicate Fits(cells: seq<seq<string>>, widths: seq<nat>)
    requires |cells| == |widths|
  {
    forall c, l :: 0 <= c < |cells| && 0 <= l < |cells[c]| ==> |cells[c][l]| <= widths[c]
  }

  lemma SegmentsWidths(cells: seq<seq<string>>, widths: seq<nat>, l: nat)
    requires |cells| == |widths| && Fits(cells, widths)
    ensures forall c :: 0 <= c < |widths| ==> |ContentSegments(cells, widths, l)[c]| == widths[c] + 3
  {
    var segs := ContentSegments(cells, widths, l);
    forall c | 0 <= c < |widths| ensures |segs[c]| == widths[c] + 3 {
      assert |CellLine(cells[c], l)| <= widths[c];
    }
  }

  /** A line made of a two-character head and segments of known widths: it is `LineWidth`
      long, the first `widths[c]` characters of segment `c` start at `Offset(c) + 2`, and its
      next-to-last character is the one at `Offset(c + 1)`. */
  lemma SegmentInLine(head: string, segs: seq<string>, widths: seq<nat>, c: nat)
    requires |head| == 2 && |segs| == |widths| && c < |segs|
    requires forall j :: 0 <= j < |segs| ==> |segs[j]| == widths[j] + 3
    ensures |head + Concat(segs)| == LineWidth(widths)
    ensures Offset(widths, c + 1) == Offset(widths, c) + widths[c] + 3
    ensures Offset(widths, c + 1) < |head + Concat(segs)|
    ensures (head + Concat(segs))[Offset(widths, c) + 2..Offset(widths, c) + 2 + widths[c]] == segs[c][..widths[c]]
    ensures (head + Concat(segs))[Offset(widths, c + 1)] == segs[c][widths[c] + 1]
  {
    ConcatAt(segs, widths, c);
    var body := Concat(segs);
    var o := Offset(widths, c);
    var w := widths[c];
    assert body[o..o + w + 3] == segs[c];
    assert (head + body)[o + 2..o + 2 + w] == body[o..o + w] == segs[c][..w];
    assert (head + body)[o + w + 3] == body[o + w + 1] == segs[c][w + 1];
  }

  /** Column `c` of a content line: its padded line, then the border `|` of column `c + 1`. */
  lemma ContentColumn(cells: seq<seq<string>>, widths: seq<nat>, l: nat, c: nat)
    requires |cells| == |widths| && Fits(cells, widths) && c < |widths|
    ensures |ContentLine(cells, widths, l)| == LineWidth(widths)
    ensures Offset(widths, c + 1) < |ContentLine(cells, widths, l)|
    ensures ContentLine(cells, widths, l)[Offset(widths, c) + 2..Offset(widths, c) + 2 + widths[c]]
      == Pad(CellLine(cells[c], l), widths[c])
    ensures ContentLine(cells, widths, l)[Offset(widths, c + 1)] == '|'
  {
    var segs := ContentSegments(cells, widths, l);
    var w := widths[c];
    var p := Pad(CellLine(cells[c], l), w);
    SegmentsWidths(cells, widths, l);
    SegmentInLine("| ", segs, widths, c);
    assert segs[c] == p + " | ";
    assert segs[c][..w] == p;
  }

  lemma ContentLineStart(cells: seq<seq<string>>, widths: seq<nat>, l: nat)
    requires |cells| == |widths| && Fits(cells, widths)
    ensures |ContentLine(cells, widths, l)| == LineWidth(widths)
    ensures ContentLine(cells, widths, l)[0] == '|'
  {
    if |widths| == 0 {
      assert ContentSegments(cells, widths, l) == [];
    } else {
      ContentColumn(cells, widths, l, 0);
    }
  }

  /** A content line is `LineWidth` long and has a `|` at every column border. */
  lemma ContentLineShape(cells: seq<seq<string>>, widths: seq<nat>, l: nat)
    requires |cells| == |widths| && Fits(cells, widths)
    ensures |ContentLine(cells, widths, l)| == LineWidth(widths)
    ensures forall k :: 0 <= k <= |widths| ==>
      Offset(widths, k) < |ContentLine(cells, widths, l)| && ContentLine(cells, widths, l)[Offset(widths, k)] == '|'
  {
    var line := ContentLine(cells, widths, l);
    ContentLineStart(cells, widths, l);
    forall k | 0 <= k <= |widths| ensures Offset(widths, k) < |line| && line[Offset(widths, k)] == '|' {
      if k > 0 {
        ContentColumn(cells, widths, l, k - 1);
      }
    }
  }

  /** Column `c` of the separator ends in the `+` of the border of column `c + 1`. */
  lemma SeparatorColumn(widths: seq<nat>, c: nat)
    requires c < |widths|
    ensures |Separator(widths)| == LineWidth(widths)
    ensures Offset(widths, c + 1) < |Separator(widths)|
    ensures Separator(widths)[Offset(widths, c + 1)] == '+'
  {
    var segs := SeparatorSegments(widths);
    SegmentInLine("+-", segs, widths, c);
    assert segs[c] == Repeat('-', widths[c]) + "-+-";
  }

  /** The separator is `LineWidth` long and has a `+` at every column border. */
  lemma SeparatorShape(widths: seq<nat>)
    ensures |Separator(widths)| == LineWidth(widths)
    ensures forall k :: 0 <= k <= |widths| ==>
      Offset(widths, k) < |Separator(widths)| && Separator(widths)[Offset(widths, k)] == '+'
  {
    var line := Separator(widths);
    if |widths| == 0 {
      assert SeparatorSegments(widths) == [];
    } else {
      SeparatorColumn(widths, 0);
    }
    forall k | 0 <= k <= |widths| ensures Offset(widths, k) < |line| && line[Offset(widths, k)] == '+' {
      if k > 0 {
        SeparatorColumn(widths, k - 1);
      }
    }
  }

  lemma WrappedRowFits(rows: seq<seq<string>>, r: nat, widths: seq<nat>)
    requires r < |rows| && Positive(widths)
    ensures Fits(WrappedRow(rows, r, widths), widths)
  {
    var cells := WrappedRow(rows, r, widths);
    forall c | 0 <= c < |cells| ensures forall l :: 0 <= l < |cells[c]| ==> |cells[c][l]| <= widths[c] {
      WrapProps(Cell(rows, r, c), widths[c]);
    }
  }

  /** A row whose tallest wrapped cell has `k` pieces is written as `k` content lines and one
      separator; all of them are `LineWidth` long and have their borders in the same places,
      `|` on content lines and `+` on the separator. */
  lemma RowLinesShape(rows: seq<seq<string>>, r: nat, widths: seq<nat>)
    requires r < |rows| && Positive(widths)
    ensures var lines := RowLines(rows, r, widths);
      && |lines| == Height(WrappedRow(rows, r, widths)) + 1
      && lines[|lines| - 1] == Separator(widths)
      && (forall i :: 0 <= i < |lines| ==> |lines[i]| == LineWidth(widths))
      && (forall i, k :: 0 <= i < |lines| - 1 && 0 <= k <= |widths| ==>
            Offset(widths, k) < |lines[i]| && lines[i][Offset(widths, k)] == '|')
      && (forall k :: 0 <= k <= |widths| ==>
            Offset(widths, k) < |lines[|lines| - 1]| && lines[|lines| - 1][Offset(widths, k)] == '+')
  {
    var cells := WrappedRow(rows, r, widths);
    var lines := RowLines(rows, r, widths);
    WrappedRowFits(rows, r, widths);
    SeparatorShape(widths);
    forall i | 0 <= i < |lines| - 1
      ensures |lines[i]| == LineWidth(widths)
      ensures forall k :: 0 <= k <= |widths| ==> Offset(widths, k) < |lines[i]| && lines[i][Offset(widths, k)] == '|'
    {
      ContentLinesAt(cells, widths, Height(cells), i);
      assert lines[i] == ContentLine(cells, widths, i);
      ContentLineShape(cells, widths, i);
    }
  }

  /** All lines of `lines` are `w` characters long. */
  predicate SameWidth(lines: seq<string>, w: nat)
  {
    forall i :: 0 <= i < |lines| ==> |lines[i]| == w
  }

  lemma SameWidthAppend(a: seq<string>, b: seq<string>, w: nat)
    requires SameWidth(a, w) && SameWidth(b, w)
    ensures SameWidth(a + b, w)
  {
    forall i | 0 <= i < |a + b| ensures |(a + b)[i]| == w {
      if i >= |a| {
        assert (a + b)[i] == b[i - |a|];
      }
    }
  }

  lemma RowLinesWidth(rows: seq<seq<string>>, r: nat, widths: seq<nat>)
    requires r < |rows| && Positive(widths)
    ensures SameWidth(RowLines(rows, r, widths), LineWidth(widths))
  {
    var cells := WrappedRow(rows, r, widths);
    var lines := RowLines(rows, r, widths);
    WrappedRowFits(rows, r, widths);
    SeparatorShape(widths);
    forall i | 0 <= i < |lines| ensures |lines[i]| == LineWidth(widths) {
      if i < |lines| - 1 {
        ContentLinesAt(cells, widths, Height(cells), i);
        ContentLineStart(cells, widths, i);
      }
    }
  }

  lemma {:induction false} FlattenSameWidth(groups: seq<seq<string>>, w: nat)
    requires forall g :: 0 <= g < |groups| ==> SameWidth(groups[g], w)
    ensures SameWidth(Flatten(groups), w)
  {
    if groups != [] {
      var n := |groups| - 1;
      FlattenSameWidth(groups[..n], w);
      SameWidthAppend(Flatten(groups[..n]), groups[n], w);
    }
  }

  /** Every line of the formatted table has the same length, `2 + Σ(width[c] + 3)`. */
  lemma TableLinesWidth(rows: seq<seq<string>>, widths: seq<nat>)
    requires Positive(widths)
    ensures SameWidth(TableLines(rows, widths), LineWidth(widths))
  {
    var groups := AllRowLines(rows, widths);
    forall r | 0 <= r < |groups| ensures SameWidth(groups[r], LineWidth(widths)) {
      RowLinesWidth(rows, r, widths);
    }
    FlattenSameWidth(groups, LineWidth(widths));
  }

  // ---------------------------------------------------------------------------
  // The formatting loops

  lemma WrappedRowStep(rows: seq<seq<string>>, r: nat, widths: seq<nat>, col: nat)
    requires r < |rows| && Positive(widths) && col < |widths|
    ensures WrappedRow(rows, r, widths)[..col + 1]
      == WrappedRow(rows, r, widths)[..col] + [Wrap(Cell(rows, r, col), widths[col])]
  {
  }

  lemma HeightSnoc(cells: seq<seq<string>>, cell: seq<string>)
    ensures Height(cells + [cell]) == Max(Height(cells), |cell|)
  {
    assert (cells + [cell])[..|cells|] == cells;
  }

  /** Wrap every cell of row `r` (`cellLines`) and track the tallest (`maxLinesInRow`). */
  method WrapRow(rows: seq<seq<string>>, r: nat, widths: seq<nat>)
    returns (cellLines: seq<seq<string>>, maxLinesInRow: nat)
    requires r < |rows| && Positive(widths)
    ensures cellLines == WrappedRow(rows, r, widths)
    ensures maxLinesInRow == Height(cellLines)
  {
    cellLines := [];
    maxLinesInRow := 1;
    var col := 0;
    while col < |widths|
      invariant 0 <= col <= |widths|
      invariant cellLines == WrappedRow(rows, r, widths)[..col]
      invariant maxLinesInRow == Height(cellLines)
    {
      var cellContent := if col < |rows[r]| then rows[r][col] else "";
      var wrapped := WrapText(cellContent, widths[col]);
      WrappedRowStep(rows, r, widths, col);
      HeightSnoc(cellLines, wrapped);
      cellLines := cellLines + [wrapped];
      maxLinesInRow := Max(maxLinesInRow, |wrapped|);
      col := col + 1;
    }
    assert WrappedRow(rows, r, widths)[..|widths|] == WrappedRow(rows, r, widths);
  }

  lemma ContentPrefixStep(cells: seq<seq<string>>, widths: seq<nat>, l: nat, col: nat)
    requires |cells| == |widths| && col < |widths|
    ensures "| " + Concat(ContentSegments(cells, widths, l)[..col + 1])
      == "| " + Concat(ContentSegments(cells, widths, l)[..col]) + (Pad(CellLine(cells[col], l), widths[col]) + " | ")
  {
    var segs := ContentSegments(cells, widths, l);
    assert segs[..col + 1][..col] == segs[..col];
  }

  /** One physical line: `'| '`, then every column's padded piece followed by `' | '`. */
  method RenderLine(cellLines: seq<seq<string>>, widths: seq<nat>, l: nat) returns (line: string)
    requires |cellLines| == |widths|
    ensures line == ContentLine(cellLines, widths, l)
  {
    line := "| ";
    var col := 0;
    while col < |widths|
      invariant 0 <= col <= |widths|
      invariant line == "| " + Concat(ContentSegments(cellLines, widths, l)[..col])
    {
      var content := CellLine(cellLines[col], l);
      ContentPrefixStep(cellLines, widths, l, col);
      line := line + (Pad(content, widths[col]) + " | ");
      col := col + 1;
    }
    assert ContentSegments(cellLines, widths, l)[..|widths|] == ContentSegments(cellLines, widths, l);
  }

  lemma SeparatorPrefixStep(widths: seq<nat>, col: nat)
    requires col < |widths|
    ensures "+-" + Concat(SeparatorSegments(widths)[..col + 1])
      == "+-" + Concat(SeparatorSegments(widths)[..col]) + (Repeat('-', widths[col]) + "-+-")
  {
    var segs := SeparatorSegments(widths);
    assert segs[..col + 1][..col] == segs[..col];
  }

  /** The separator: `'+-'`, then dashes over every column followed by `'-+-'`. */
  method RenderSeparator(widths: seq<nat>) returns (separator: string)
    ensures separator == Separator(widths)
  {
    separator := "+-";
    var col := 0;
    while col < |widths|
      invariant 0 <= col <= |widths|
      invariant separator == "+-" + Concat(SeparatorSegments(widths)[..col])
    {
      SeparatorPrefixStep(widths, col);
      separator := separator + (Repeat('-', widths[col]) + "-+-");
      col := col + 1;
    }
    assert SeparatorSegments(widths)[..|widths|] == SeparatorSegments(widths);
  }

  lemma ContentLinesStep(cells: seq<seq<string>>, widths: seq<nat>, l: nat)
    requires |cells| == |widths|
    ensures Unlines(ContentLines(cells, widths, l + 1))
      == Unlines(ContentLines(cells, widths, l)) + ContentLine(cells, widths, l) + "\n"
  {
    var done := ContentLines(cells, widths, l);
    assert (done + [ContentLine(cells, widths, l)])[..l] == done;
  }

  lemma RowLinesText(rows: seq<seq<string>>, r: nat, widths: seq<nat>, cells: seq<seq<string>>)
    requires r < |rows| && Positive(widths) && cells == WrappedRow(rows, r, widths)
    ensures Unlines(RowLines(rows, r, widths))
      == Unlines(ContentLines(cells, widths, Height(cells))) + Separator(widths) + "\n"
  {
    var done := ContentLines(cells, widths, Height(cells));
    var all := done + [Separator(widths)];
    assert RowLines(rows, r, widths) == all;
    assert all[..|all| - 1] == done && all[|all| - 1] == Separator(widths);
  }

  /** The sub-lines of one row: `maxLinesInRow` content lines, each ended by a newline. */
  method RenderContentLines(cellLines: seq<seq<string>>, widths: seq<nat>, maxLinesInRow: nat)
    returns (text: string)
    requires |cellLines| == |widths|
    ensures text == Unlines(ContentLines(cellLines, widths, maxLinesInRow))
  {
    text := "";
    var l := 0;
    while l < maxLinesInRow
      invariant 0 <= l <= maxLinesInRow
      invariant text == Unlines(ContentLines(cellLines, widths, l))
    {
      var line := RenderLine(cellLines, widths, l);
      ContentLinesStep(cellLines, widths, l);
      text := text + line + "\n";
      l := l + 1;
    }
  }

  /** One row: wrap its cells, write as many lines as the tallest cell needs, then the separator. */
  method RenderRow(rows: seq<seq<string>>, r: nat, widths: seq<nat>) returns (text: string)
    requires r < |rows| && Positive(widths)
    ensures text == Unlines(RowLines(rows, r, widths))
  {
    var cellLines, maxLinesInRow := WrapRow(rows, r, widths);
    text := RenderContentLines(cellLines, widths, maxLinesInRow);
    var separator := RenderSeparator(widths);
    RowLinesText(rows, r, widths, cellLines);
    text := text + separator + "\n";
  }

  /** The text of the first `row + 1` rows is that of the first `row` rows, then row `row`'s. */
  lemma RowsStep(rows: seq<seq<string>>, widths: seq<nat>, row: nat)
    requires row < |rows| && Positive(widths)
    ensures Unlines(Flatten(AllRowLines(rows, widths)[..row + 1]))
      == Unlines(Flatten(AllRowLines(rows, widths)[..row])) + Unlines(RowLines(rows, row, widths))
  {
    var groups := AllRowLines(rows, widths);
    assert groups[..row + 1][..row] == groups[..row];
    UnlinesAppend(Flatten(groups[..row]), groups[row]);
  }

  /** The row loop: every row's lines, in order. */
  method RenderRows(rows: seq<seq<string>>, colWidths: seq<nat>) returns (text: string)
    requires Positive(colWidths)
    ensures text == Unlines(TableLines(rows, colWidths))
  {
    text := "";
    var row := 0;
    while row < |rows|
      invariant 0 <= row <= |rows|
      invariant text == Unlines(Flatten(AllRowLines(rows, colWidths)[..row]))
    {
      var rowText := RenderRow(rows, row, colWidths);
      RowsStep(rows, colWidths, row);
      text := text + rowText;
      row := row + 1;
    }
    assert AllRowLines(rows, colWidths)[..|rows|] == AllRowLines(rows, colWidths);
  }

  /** The table formatter: measure the columns, then write every row. */
  method FormatTable(rows: seq<seq<string>>, cols: nat) returns (text: string)
    ensures text == TableText(rows, cols)
  {
    var colWidths := ColumnWidths(rows, cols);
    WidthsBounds(rows, cols);
    text := RenderRows(rows, colWidths);
  }
}
