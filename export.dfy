/** The text export of JS/script.js (exportTXT, lines 774-961): a banner, then every block
    through its plain-text template, with running counters for figures, tables and
    references. The download of the finished text is not modelled. */
module Export {
  import opened Wrappers
  import opened Strings
  import opened Blocks
  import opened TableFormat

  /** `figureCount`, `tableCount` and `refCount`. */
  datatype Counters = Counters(figures: nat, tables: nat, refs: nat)

  const NoCounters := Counters(0, 0, 0)

  /** The three lines every export starts with. */
  const Banner: string :=
    Repeat('=', 60) + "\n" + "REPORTE ACADÉMICO - EXPORTACIÓN TXT\n" + Repeat('=', 60) + "\n\n"

  /** Shown where an image or table has no caption (`block.caption || 'Sin descripción'`). */
  const NoCaption := "Sin descripción"

  /** Used in the AI declaration when there is no header block with data. */
  const NoStudent := "[Nombre del estudiante]"

  // ---------------------------------------------------------------------------
  // Counters

  /** The counters after visiting `b`: an image bumps the figures, a table the tables, and a
      reference the references only when it has `refData`. */
  function Tick(b: Block, c: Counters): (r: Counters)
    ensures r.figures == c.figures + (if b.kind == Image then 1 else 0)
    ensures r.tables == c.tables + (if b.kind == Table then 1 else 0)
    ensures r.refs == c.refs + (if b.kind == Ref && b.refData.Some? then 1 else 0)
  {
    match b.kind
    case Image => c.(figures := c.figures + 1)
    case Table => c.(tables := c.tables + 1)
    case Ref => if b.refData.Some? then c.(refs := c.refs + 1) else c
    case _ => c
  }

  /** The counters once the first `n` blocks have been written. */
  function CountersAfter(blocks: seq<Block>, n: nat): Counters
    requires n <= |blocks|
  {
    if n == 0 then NoCounters else Tick(blocks[n - 1], CountersAfter(blocks, n - 1))
  }

  /** Reference definition: how many blocks of `kind` there are. */
  function CountKind(blocks: seq<Block>, kind: Kind): nat
  {
    if blocks == [] then 0 else (if blocks[0].kind == kind then 1 else 0) + CountKind(blocks[1..], kind)
  }

  /** Reference definition: how many reference blocks carry data. */
  function CountRefs(blocks: seq<Block>): nat
  {
    if blocks == [] then 0
    else (if blocks[0].kind == Ref && blocks[0].refData.Some? then 1 else 0) + CountRefs(blocks[1..])
  }

  lemma {:induction false} CountKindSnoc(blocks: seq<Block>, b: Block, kind: Kind)
    ensures CountKind(blocks + [b], kind) == CountKind(blocks, kind) + (if b.kind == kind then 1 else 0)
  {
    if blocks != [] {
      assert (blocks + [b])[1..] == blocks[1..] + [b];
      CountKindSnoc(blocks[1..], b, kind);
    } else {
      assert [b][1..] == [];
    }
  }

  lemma {:induction false} CountRefsSnoc(blocks: seq<Block>, b: Block)
    ensures CountRefs(blocks + [b]) == CountRefs(blocks) + (if b.kind == Ref && b.refData.Some? then 1 else 0)
  {
    if blocks != [] {
      assert (blocks + [b])[1..] == blocks[1..] + [b];
      CountRefsSnoc(blocks[1..], b);
    } else {
      assert [b][1..] == [];
    }
  }

  /** After the first `n` blocks the counters hold the number of images, tables and
      references with data among them. */
  lemma {:induction false} CountersCount(blocks: seq<Block>, n: nat)
    requires n <= |blocks|
    ensures CountersAfter(blocks, n)
      == Counters(CountKind(blocks[..n], Image), CountKind(blocks[..n], Table), CountRefs(blocks[..n]))
  {
    if n > 0 {
      CountersCount(blocks, n - 1);
      assert blocks[..n] == blocks[..n - 1] + [blocks[n - 1]];
      CountKindSnoc(blocks[..n - 1], blocks[n - 1], Image);
      CountKindSnoc(blocks[..n - 1], blocks[n - 1], Table);
      CountRefsSnoc(blocks[..n - 1], blocks[n - 1]);
    }
  }

  // ---------------------------------------------------------------------------
  // Block templates

  /** The student data of a header block. */
  function HeaderText(d: HeaderData): string
  {
    "DATOS DEL ESTUDIANTE\n" + Repeat('-', 40) + "\n"
    + "Institución: " + d.inst + "\n"
    + "Materia: " + d.subject + " (" + d.term + "° Cuatrimestre)\n"
    + "Profesor: " + d.prof + "\n"
    + "Alumno: " + d.name + " | Grupo: " + d.group + "\n"
    + "Fecha: " + d.date + "\n"
    + "\n"
  }

  /** The course line carries the term even when it is empty: the export does not test it. */
  lemma HeaderTermAlways(d: HeaderData)
    ensures StartsWith(HeaderText(d),
      "DATOS DEL ESTUDIANTE\n" + Repeat('-', 40) + "\n" + "Institución: " + d.inst + "\n"
      + "Materia: " + d.subject + " (" + d.term + "° Cuatrimestre)\n")
  {
    var head := "DATOS DEL ESTUDIANTE\n" + Repeat('-', 40) + "\n" + "Institución: " + d.inst + "\n"
      + "Materia: " + d.subject + " (" + d.term + "° Cuatrimestre)\n";
    assert head[..|head|] == head;
    StartsWithExtend(head, head, "Profesor: ");
    StartsWithExtend(head + "Profesor: ", head, d.prof);
    StartsWithExtend(head + "Profesor: " + d.prof, head, "\n");
    StartsWithExtend(head + "Profesor: " + d.prof + "\n", head, "Alumno: ");
    StartsWithExtend(head + "Profesor: " + d.prof + "\n" + "Alumno: ", head, d.name);
    StartsWithExtend(head + "Profesor: " + d.prof + "\n" + "Alumno: " + d.name, head, " | Grupo: ");
    StartsWithExtend(head + "Profesor: " + d.prof + "\n" + "Alumno: " + d.name + " | Grupo: ", head, d.group);
    StartsWithExtend(head + "Profesor: " + d.prof + "\n" + "Alumno: " + d.name + " | Grupo: " + d.group, head, "\n");
    StartsWithExtend(head + "Profesor: " + d.prof + "\n" + "Alumno: " + d.name + " | Grupo: " + d.group + "\n",
      head, "Fecha: ");
    StartsWithExtend(head + "Profesor: " + d.prof + "\n" + "Alumno: " + d.name + " | Grupo: " + d.group + "\n"
      + "Fecha: ", head, d.date);
    StartsWithExtend(head + "Profesor: " + d.prof + "\n" + "Alumno: " + d.name + " | Grupo: " + d.group + "\n"
      + "Fecha: " + d.date, head, "\n");
    StartsWithExtend(head + "Profesor: " + d.prof + "\n" + "Alumno: " + d.name + " | Grupo: " + d.group + "\n"
      + "Fecha: " + d.date + "\n", head, "\n");
  }

  /** A title between two `=` rules; `upper` is the `toUpperCase` the title goes through. */
  function TitleText(content: string, upper: string -> string): string
  {
    "\n" + Repeat('=', 60) + "\n" + upper(content) + "\n" + Repeat('=', 60) + "\n\n"
  }

  function SubtitleText(content: string): string
  {
    "\n" + Repeat('-', 40) + "\n" + content + "\n" + Repeat('-', 40) + "\n\n"
  }

  function ParagraphText(content: string): string
  {
    content + "\n\n"
  }

  function CodeText(content: string): string
  {
    "\n[INICIO DE CÓDIGO]\n" + Repeat('-', 40) + "\n" + content + "\n" + Repeat('-', 40) + "\n"
    + "[FIN DE CÓDIGO]\n\n"
  }

  /** `block.caption || 'Sin descripción'`. */
  function CaptionText(caption: Option<string>): (r: string)
    ensures caption.Some? && caption.value != "" ==> r == caption.value
    ensures caption.None? || caption == Some("") ==> r == NoCaption
  {
    OrElse(match caption case None => "" case Some(c) => c, NoCaption)
  }

  function ImageText(n: nat, caption: Option<string>): string
  {
    "\n[FIGURA " + NatToString(n) + "]\n"
    + "Descripción: " + CaptionText(caption) + "\n"
    + "(La imagen no puede ser exportada a formato TXT)\n\n"
  }

  /** `block.columns || block.tableData[0].length`: the column count the table is drawn with. */
  function DrawnColumns(t: TableData): nat
    requires |t.rows| > 0
  {
    if t.columns != 0 then t.columns else |t.rows[0]|
  }

  /** The formatted rows, present only when the table has data with at least one row. */
  function TableBody(table: Option<TableData>): string
  {
    match table
    case None => ""
    case Some(t) => if |t.rows| > 0 then TableText(t.rows, DrawnColumns(t)) else ""
  }

  function TableOpening(n: nat): string
  {
    "\n[TABLA " + NatToString(n) + "]\n" + Repeat('-', 60) + "\n"
  }

  function TableClosing(caption: Option<string>): string
  {
    Repeat('-', 60) + "\n" + "Descripción: " + CaptionText(caption) + "\n\n"
  }

  /** A table: its number, a rule, the formatted rows, a rule and the caption. */
  function TableSection(n: nat, table: Option<TableData>, caption: Option<string>): string
  {
    TableOpening(n) + TableBody(table) + TableClosing(caption)
  }

  /** The reference line written by the export (JS/script.js:908-914): the book form closes
      the title's quotes before `.`, the web and generic forms before `,`. */
  function RefLine(refType: Option<string>, d: RefData): (r: string)
    ensures StartsWith(r, d.author + ", \"" + d.title)
    ensures refType == Some("book") ==> StartsWith(r, d.author + ", \"" + d.title + "\". " + d.source + ", ")
    ensures refType == Some("web") ==> StartsWith(r, d.author + ", \"" + d.title + "\", " + d.source + ", ")
    ensures refType == Some("web") ==> EndsWith(r, d.url)
  {
    if refType == Some("book") then
      d.author + ", \"" + d.title + "\". " + d.source + ", " + d.year + "."
    else if refType == Some("web") then
      d.author + ", \"" + d.title + "\", " + d.source + ", " + d.year + ". [En línea]. Disponible: " + d.url
    else
      d.author + ", \"" + d.title + "\", " + d.source + ", " + d.year + "."
  }

  function RefText(n: nat, refType: Option<string>, d: RefData): string
  {
    "\n[" + NatToString(n) + "] " + RefLine(refType, d) + "\n"
  }

  /** `reportData.find(b => b.type === 'header')`: the first header block, if any. */
  function FirstHeader(blocks: seq<Block>): (r: Option<nat>)
    ensures r.Some? ==> r.value < |blocks| && blocks[r.value].kind == Header
    ensures r.Some? ==> forall j :: 0 <= j < r.value ==> blocks[j].kind != Header
    ensures r.None? ==> forall j :: 0 <= j < |blocks| ==> blocks[j].kind != Header
  {
    if blocks == [] then None
    else if blocks[0].kind == Header then Some(0)
    else match FirstHeader(blocks[1..]) case None => None case Some(i) => Some(i + 1)
  }

  /** `studentName`: the name in the first header block, when that block has data. */
  function StudentName(blocks: seq<Block>): string
  {
    match FirstHeader(blocks)
    case None => NoStudent
    case Some(i) => match blocks[i].hData case None => NoStudent case Some(d) => d.name
  }

  const AIHeading: string :=
    "\n" + Repeat('=', 60) + "\n" + "DECLARACIÓN DE USO DE INTELIGENCIA ARTIFICIAL\n" + Repeat('=', 60) + "\n\n"

  /** The declaration that no AI tool was used, signed by `declarant`. */
  function NoAIText(declarant: string): string
  {
    "Yo, " + declarant + ", declaro que NO he utilizado herramientas de\n"
    + "Inteligencia Artificial para la elaboración de este trabajo académico.\n\n"
    + "Afirmo que cuento con evidencias físicas y/o digitales que demuestran\n"
    + "mi autoría, incluyendo: documentos manuscritos, materiales impresos con\n"
    + "anotaciones o subrayado, historial de versiones de documentos electrónicos,\n"
    + "o commits en repositorios de código.\n\n"
    + "Reconozco que el profesor se reserva el derecho de solicitar dichas\n"
    + "evidencias cuando existan sospechas o se detecten conductas que atenten\n"
    + "contra la integridad académica.\n\n"
  }

  /** The record of an AI tool's use; the attachments line only when there are attachments. */
  function AIUseText(ai: AIData, declarant: string): string
  {
    "Estudiante: " + declarant + "\n"
    + "IA utilizada: " + ai.aiTool + "\n"
    + "Fecha: " + ai.date + "\n"
    + "Propósito: " + ai.purpose + "\n\n"
    + "Prompt utilizado:\n" + Repeat('-', 40) + "\n" + ai.prompt + "\n" + Repeat('-', 40) + "\n\n"
    + (if ai.attachments != "" then "Archivos suministrados: " + ai.attachments + "\n\n" else "")
    + "Respuesta en crudo:\n" + Repeat('-', 40) + "\n" + ai.rawResponse + "\n" + Repeat('-', 40) + "\n\n"
  }

  /** The AI section: the declarant is `ai.name || studentName`. */
  function AIText(aiUsed: Option<string>, ai: AIData, studentName: string): string
  {
    var declarant := OrElse(ai.name, studentName);
    AIHeading + (if aiUsed == Some("no") then NoAIText(declarant) else AIUseText(ai, declarant))
  }

  /** What the export writes for block `b`; `c` holds the counters after `b` was counted. */
  function BlockText(b: Block, c: Counters, studentName: string, upper: string -> string): string
  {
    match b.kind
    case Header => (match b.hData case None => "" case Some(d) => HeaderText(d))
    case Title => TitleText(b.content, upper)
    case Subtitle => SubtitleText(b.content)
    case Text => ParagraphText(b.content)
    case Code => CodeText(b.content)
    case Image => ImageText(c.figures, b.caption)
    case Table => TableSection(c.tables, b.table, b.caption)
    case Ref => (match b.refData case None => "" case Some(d) => RefText(c.refs, b.refType, d))
    case AI => (match b.aiData case None => "" case Some(ai) => AIText(b.aiUsed, ai, studentName))
  }

  /** The text each block contributes, in document order. */
  function BlockTexts(blocks: seq<Block>, studentName: string, upper: string -> string): (texts: seq<string>)
    ensures |texts| == |blocks|
  {
    seq(|blocks|, i requires 0 <= i < |blocks| => BlockText(blocks[i], CountersAfter(blocks, i + 1), studentName, upper))
  }

  /** The whole exported text: the banner, then every block's text. */
  function ExportText(blocks: seq<Block>, upper: string -> string): string
  {
    Banner + Concat(BlockTexts(blocks, StudentName(blocks), upper))
  }

  // ---------------------------------------------------------------------------
  // Properties of the export

  lemma ExportStartsWithBanner(blocks: seq<Block>, upper: string -> string)
    ensures StartsWith(ExportText(blocks, upper), Banner)
  {
    var rest := Concat(BlockTexts(blocks, StudentName(blocks), upper));
    assert (Banner + rest)[..|Banner|] == Banner;
  }

  /** An empty report exports as the banner alone. */
  lemma EmptyExport(upper: string -> string)
    ensures ExportText([], upper) == Banner
  {
    assert BlockTexts([], StudentName([]), upper) == [];
  }

  /** Figures are numbered 1, 2, 3, … in document order: an image is labelled with one more
      than the number of images before it. */
  lemma FigureNumbering(blocks: seq<Block>, i: nat)
    requires i < |blocks| && blocks[i].kind == Image
    ensures CountersAfter(blocks, i + 1).figures == CountKind(blocks[..i], Image) + 1
  {
    CountersCount(blocks, i);
  }

  /** Tables are numbered the same way, independently of the figures. */
  lemma TableNumbering(blocks: seq<Block>, i: nat)
    requires i < |blocks| && blocks[i].kind == Table
    ensures CountersAfter(blocks, i + 1).tables == CountKind(blocks[..i], Table) + 1
  {
    CountersCount(blocks, i);
  }

  /** References are numbered among the references that carry data; one without data is
      skipped and does not use up a number. */
  lemma RefNumbering(blocks: seq<Block>, i: nat)
    requires i < |blocks| && blocks[i].kind == Ref
    ensures blocks[i].refData.Some? ==> CountersAfter(blocks, i + 1).refs == CountRefs(blocks[..i]) + 1
    ensures blocks[i].refData.None? ==> CountersAfter(blocks, i + 1).refs == CountRefs(blocks[..i])
  {
    CountersCount(blocks, i);
  }

  /** The label of image `i` is `[FIGURA k]`, `k` its position among the images. */
  lemma FigureLabel(blocks: seq<Block>, i: nat, studentName: string, upper: string -> string)
    requires i < |blocks| && blocks[i].kind == Image
    ensures StartsWith(BlockText(blocks[i], CountersAfter(blocks, i + 1), studentName, upper),
      "\n[FIGURA " + NatToString(CountKind(blocks[..i], Image) + 1) + "]\n")
  {
    FigureNumbering(blocks, i);
    var tag := "\n[FIGURA " + NatToString(CountKind(blocks[..i], Image) + 1) + "]\n";
    var caption := CaptionText(blocks[i].caption);
    assert tag[..|tag|] == tag;
    StartsWithExtend(tag, tag, "Descripción: ");
    StartsWithExtend(tag + "Descripción: ", tag, caption);
    StartsWithExtend(tag + "Descripción: " + caption, tag, "\n");
    StartsWithExtend(tag + "Descripción: " + caption + "\n", tag, "(La imagen no puede ser exportada a formato TXT)\n\n");
  }

  /** Blocks without the data their template needs write nothing. */
  lemma MissingDataWritesNothing(b: Block, c: Counters, studentName: string, upper: string -> string)
    requires || (b.kind == Header && b.hData.None?) || (b.kind == Ref && b.refData.None?) || (b.kind == AI && b.aiData.None?)
    ensures BlockText(b, c, studentName, upper) == ""
  {
  }

  /** The declarant of an AI section is the name typed in the declaration, or else the name
      of the first header block, or else the placeholder. */
  lemma DeclarantName(blocks: seq<Block>, ai: AIData)
    ensures ai.name != "" ==> OrElse(ai.name, StudentName(blocks)) == ai.name
    ensures ai.name == "" && FirstHeader(blocks).None? ==> OrElse(ai.name, StudentName(blocks)) == NoStudent
    ensures ai.name == "" && FirstHeader(blocks).Some? && blocks[FirstHeader(blocks).value].hData.Some? ==>
      OrElse(ai.name, StudentName(blocks)) == blocks[FirstHeader(blocks).value].hData.value.name
    ensures ai.name == "" && FirstHeader(blocks).Some? && blocks[FirstHeader(blocks).value].hData.None? ==>
      OrElse(ai.name, StudentName(blocks)) == NoStudent
  {
  }

  // ---------------------------------------------------------------------------
  // The export loop

  /** One turn of the `forEach`: bump the counter the block's kind uses and write its text. */
  method WriteBlock(block: Block, counters: Counters, studentName: string, upper: string -> string)
    returns (blockText: string, next: Counters)
    ensures next == Tick(block, counters)
    ensures blockText == BlockText(block, next, studentName, upper)
  {
    next := counters;
    match block.kind {
      case Image =>
        next := next.(figures := next.figures + 1);
        blockText := ImageText(next.figures, block.caption);
      case Table =>
        next := next.(tables := next.tables + 1);
        var formatted := "";
        if block.table.Some? && |block.table.value.rows| > 0 {
          var t := block.table.value;
          formatted := FormatTable(t.rows, DrawnColumns(t));
        }
        blockText := TableOpening(next.tables) + formatted + TableClosing(block.caption);
      case Ref =>
        if block.refData.Some? {
          next := next.(refs := next.refs + 1);
        }
        blockText := BlockText(block, next, studentName, upper);
      case _ =>
        blockText := BlockText(block, next, studentName, upper);
    }
  }

  /** exportTXT: the banner, then every block through its template, counting figures,
      tables and references as it goes. */
  method ExportTXT(reportData: seq<Block>, upper: string -> string) returns (textContent: string)
    ensures textContent == ExportText(reportData, upper)
  {
    var studentName := StudentName(reportData);
    ghost var texts := BlockTexts(reportData, studentName, upper);
    textContent := Banner;
    var counters := NoCounters;
    var i := 0;
    while i < |reportData|
      invariant 0 <= i <= |reportData|
      invariant counters == CountersAfter(reportData, i)
      invariant textContent == Banner + Concat(texts[..i])
    {
      var blockText;
      blockText, counters := WriteBlock(reportData[i], counters, studentName, upper);
      ConcatStep(Banner, texts, i);
      textContent := textContent + blockText;
      i := i + 1;
    }
    assert texts[..|reportData|] == texts;
  }
}
