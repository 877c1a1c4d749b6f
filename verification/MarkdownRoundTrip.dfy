/** Reading documents back through the event fold: an encoder of simple documents as parser
    events, and exactly which documents the fold returns unchanged. */
module MarkdownRoundTrip {
  import opened Text
  import opened Wrappers
  import M = MarkdownFold

  /** One inline piece of a block. A run of text may be cut into any number of `Word`s. */
  datatype Piece = Word(text: string) | Soft | Hard | Verbatim(text: string)

  datatype Doc =
    | Para(pieces: seq<Piece>)
    | Fence(language: Option<string>, texts: seq<string>)
    | Head(level: nat, pieces: seq<Piece>)
    | Items(ordered: bool, items: seq<seq<Piece>>)
    | Quote(pieces: seq<Piece>)
    | Grid(head: seq<seq<Piece>>, rows: seq<seq<seq<Piece>>>)

  // -- Encoding -------------------------------------------------------

  function PieceEvent(p: Piece): M.Event {
    match p
    case Word(t) => M.Event.Text(t)
    case Soft => M.SoftBreak
    case Hard => M.HardBreak
    case Verbatim(t) => M.Span(t)
  }

  function Inline(pieces: seq<Piece>): seq<M.Event> {
    if pieces == [] then [] else [PieceEvent(pieces[0])] + Inline(pieces[1..])
  }

  function Words(texts: seq<string>): seq<Piece> {
    if texts == [] then [] else [Word(texts[0])] + Words(texts[1..])
  }

  function Wrap(tag: M.Tag, inner: seq<M.Event>): seq<M.Event> {
    [M.Start(tag)] + inner + [M.End(tag)]
  }

  function ItemEvents(items: seq<seq<Piece>>): seq<M.Event> {
    if items == [] then [] else Wrap(M.ItemTag, Inline(items[0])) + ItemEvents(items[1..])
  }

  function CellEvents(cells: seq<seq<Piece>>): seq<M.Event> {
    if cells == [] then [] else Wrap(M.TableCellTag, Inline(cells[0])) + CellEvents(cells[1..])
  }

  function RowEvents(rows: seq<seq<seq<Piece>>>): seq<M.Event> {
    if rows == [] then [] else Wrap(M.TableRowTag, CellEvents(rows[0])) + RowEvents(rows[1..])
  }

  function Kind(language: Option<string>): M.CodeKind {
    if language.Some? then M.Fenced(language.value) else M.Indented
  }

  function Encode(d: Doc): seq<M.Event> {
    match d
    case Para(pieces) => Wrap(M.ParagraphTag, Inline(pieces))
    case Fence(language, texts) => Wrap(M.CodeTag(Kind(language)), Inline(Words(texts)))
    case Head(level, pieces) => Wrap(M.HeadingTag(level), Inline(pieces))
    case Items(ordered, items) => Wrap(M.ListTag(ordered), ItemEvents(items))
    case Quote(pieces) => Wrap(M.QuoteTag, Wrap(M.ParagraphTag, Inline(pieces)))
    case Grid(head, rows) =>
      Wrap(M.TableTag, Wrap(M.TableHeadTag, CellEvents(head)) + RowEvents(rows))
  }

  function EncodeAll(docs: seq<Doc>): seq<M.Event> {
    if docs == [] then [] else Encode(docs[0]) + EncodeAll(docs[1..])
  }

  // -- What a document means ------------------------------------------

  function PieceText(p: Piece): string {
    match p
    case Word(t) => t
    case Soft => " "
    case Hard => "\n"
    case Verbatim(t) => "`" + t + "`"
  }

  function Render(pieces: seq<Piece>): string {
    if pieces == [] then "" else PieceText(pieces[0]) + Render(pieces[1..])
  }

  function RenderEach(cells: seq<seq<Piece>>): seq<string> {
    if cells == [] then [] else [Render(cells[0])] + RenderEach(cells[1..])
  }

  function RenderRows(rows: seq<seq<seq<Piece>>>): seq<seq<string>> {
    if rows == [] then [] else [RenderEach(rows[0])] + RenderRows(rows[1..])
  }

  /** The blocks a document stands for; a paragraph without text stands for none. */
  function Meaning(d: Doc): seq<M.Block> {
    match d
    case Para(pieces) => if Render(pieces) == "" then [] else [M.Paragraph(Render(pieces))]
    case Fence(language, texts) => [M.Code(language, Flatten(texts))]
    case Head(level, pieces) => [M.Heading(level, Render(pieces))]
    case Items(ordered, items) => [M.List(ordered, RenderEach(items))]
    case Quote(pieces) => [M.Blockquote(Render(pieces))]
    case Grid(head, rows) => [M.Table(RenderEach(head), RenderRows(rows))]
  }

  function MeaningAll(docs: seq<Doc>): seq<M.Block> {
    if docs == [] then [] else Meaning(docs[0]) + MeaningAll(docs[1..])
  }

  // -- What the fold makes of it --------------------------------------

  /** Headings keep the text of a code span without its marks and have no hard breaks. */
  function HeadingPiece(p: Piece): string {
    match p
    case Word(t) => t
    case Soft => " "
    case Hard => ""
    case Verbatim(t) => t
  }

  function HeadingText(pieces: seq<Piece>): string {
    if pieces == [] then "" else HeadingPiece(pieces[0]) + HeadingText(pieces[1..])
  }

  /** The text of the `Word`s alone. */
  function WordText(pieces: seq<Piece>): string {
    if pieces == [] then "" else WordOf(pieces[0]) + WordText(pieces[1..])
  }

  function WordOf(p: Piece): string { if p.Word? then p.text else "" }

  /** The text of everything but the `Word`s. */
  function Residue(pieces: seq<Piece>): string {
    if pieces == [] then "" else OtherOf(pieces[0]) + Residue(pieces[1..])
  }

  function OtherOf(p: Piece): string { if p.Word? then "" else PieceText(p) }

  function WordCells(cells: seq<seq<Piece>>): seq<string> {
    if cells == [] then [] else [WordText(cells[0])] + WordCells(cells[1..])
  }

  function WordRows(rows: seq<seq<seq<Piece>>>): seq<seq<string>> {
    if rows == [] then [] else [WordCells(rows[0])] + WordRows(rows[1..])
  }

  /** List entries keep the text of a code span without its marks. */
  function ItemPiece(p: Piece): string { if p.Verbatim? then p.text else PieceText(p) }

  function ItemText(pieces: seq<Piece>): string {
    if pieces == [] then "" else ItemPiece(pieces[0]) + ItemText(pieces[1..])
  }

  /** List entries after pieces arrive: only a word begins an entry, and there is never a second one. */
  function Joined(entries: seq<string>, pieces: seq<Piece>): seq<string>
    decreases |pieces|
  {
    if pieces == [] then entries
    else
      var p := pieces[0];
      Joined(if entries == [] && p.Word? then [p.text] else M.ToLast(entries, ItemPiece(p)), pieces[1..])
  }

  function Actual(d: Doc): seq<M.Block> {
    match d
    case Para(pieces) => if Render(pieces) == "" then [] else [M.Paragraph(Render(pieces))]
    case Fence(language, texts) => [M.Code(M.CodeLanguage(Kind(language)), Flatten(texts))]
    case Head(level, pieces) => [M.Heading(level, HeadingText(pieces))]
    case Items(ordered, items) => [M.List(ordered, Joined([], Flatten(items)))]
    case Quote(pieces) =>
      (if Residue(pieces) == "" then [] else [M.Paragraph(Residue(pieces))])
      + [M.Blockquote(WordText(pieces))]
    case Grid(head, rows) => [M.Table(WordCells(head), WordRows(rows))]
  }

  function ActualAll(docs: seq<Doc>): seq<M.Block> {
    if docs == [] then [] else Actual(docs[0]) + ActualAll(docs[1..])
  }

  // -- The fold inside one block --------------------------------------

  lemma FoldWrap(a: M.Acc, tag: M.Tag, inner: seq<M.Event>)
    ensures M.Fold(a, Wrap(tag, inner)) == M.OnEnd(M.Fold(M.OnStart(a, tag), inner), tag)
  {
    hide M.OnStart;
    hide M.OnEnd;
    M.FoldConcat(a, [M.Start(tag)] + inner, [M.End(tag)]);
    M.FoldConcat(a, [M.Start(tag)], inner);
    FoldSingle(a, M.Start(tag));
    FoldSingle(M.Fold(M.OnStart(a, tag), inner), M.End(tag));
  }

  lemma FoldSingle(a: M.Acc, e: M.Event)
    ensures M.Fold(a, [e]) == M.Step(a, e)
  {
    hide M.Step;
    assert [e][1..] == [];
  }

  lemma FoldInlineStep(a: M.Acc, pieces: seq<Piece>)
    requires pieces != []
    ensures M.Fold(a, Inline(pieces)) == M.Fold(M.Step(a, PieceEvent(pieces[0])), Inline(pieces[1..]))
  {
    hide M.Step;
    assert Inline(pieces)[1..] == Inline(pieces[1..]);
  }

  lemma FoldNothing(a: M.Acc)
    ensures M.Fold(a, Inline([])) == a
    ensures a == a.(paragraph := a.paragraph + "") == a.(quote := a.quote + "", paragraph := a.paragraph + "")
    ensures a == a.(heading := a.heading.(text := a.heading.text + ""))
    ensures a == a.(table := a.table.(cell := a.table.cell + ""))
  {
    assert a.paragraph + "" == a.paragraph && a.quote + "" == a.quote;
    assert a.heading.text + "" == a.heading.text && a.table.cell + "" == a.table.cell;
  }

  lemma StepInParagraph(a: M.Acc, p: Piece)
    requires a.on == M.OFF.(paragraph := true)
    ensures M.Step(a, PieceEvent(p)) == a.(paragraph := a.paragraph + PieceText(p))
  {
  }

  lemma {:induction false} InlineInParagraph(a: M.Acc, pieces: seq<Piece>)
    requires a.on == M.OFF.(paragraph := true)
    ensures M.Fold(a, Inline(pieces)) == a.(paragraph := a.paragraph + Render(pieces))
    decreases |pieces|
  {
    if pieces == [] {
      FoldNothing(a);
    } else {
      var first, rest := PieceText(pieces[0]), pieces[1..];
      assert Render(pieces) == first + Render(rest);
      hide *;
      FoldInlineStep(a, pieces);
      StepInParagraph(a, pieces[0]);
      InlineInParagraph(a.(paragraph := a.paragraph + first), rest);
      ConcatAssoc(a.paragraph, first, Render(rest));
    }
  }

  lemma {:induction false} TextsInCode(a: M.Acc, texts: seq<string>)
    requires a.on == M.OFF.(code := true)
    ensures M.Fold(a, Inline(Words(texts))) == a.(code := a.code.(content := a.code.content + Flatten(texts)))
    decreases |texts|
  {
    if texts == [] {
      assert a.code.content + "" == a.code.content;
    } else {
      FoldInlineStep(a, Words(texts));
      hide M.Fold;
      hide Inline;
      var b := a.(code := a.code.(content := a.code.content + texts[0]));
      assert Words(texts)[1..] == Words(texts[1..]);
      assert M.Step(a, PieceEvent(Words(texts)[0])) == b;
      TextsInCode(b, texts[1..]);
      assert b.code.content + Flatten(texts[1..]) == a.code.content + Flatten(texts);
    }
  }

  lemma StepInHeading(a: M.Acc, p: Piece)
    requires a.on == M.OFF.(heading := true)
    ensures M.Step(a, PieceEvent(p)) == a.(heading := a.heading.(text := a.heading.text + HeadingPiece(p)))
  {
    assert a.heading.text + "" == a.heading.text;
  }

  lemma {:induction false} InlineInHeading(a: M.Acc, pieces: seq<Piece>)
    requires a.on == M.OFF.(heading := true)
    ensures M.Fold(a, Inline(pieces)) == a.(heading := a.heading.(text := a.heading.text + HeadingText(pieces)))
    decreases |pieces|
  {
    if pieces == [] {
      FoldNothing(a);
    } else {
      var first, rest := HeadingPiece(pieces[0]), pieces[1..];
      assert HeadingText(pieces) == first + HeadingText(rest);
      hide *;
      FoldInlineStep(a, pieces);
      StepInHeading(a, pieces[0]);
      InlineInHeading(a.(heading := a.heading.(text := a.heading.text + first)), rest);
      ConcatAssoc(a.heading.text, first, HeadingText(rest));
    }
  }

  lemma StepInQuote(a: M.Acc, p: Piece)
    requires a.on == M.OFF.(quote := true, paragraph := true)
    ensures M.Step(a, PieceEvent(p)) == a.(quote := a.quote + WordOf(p), paragraph := a.paragraph + OtherOf(p))
  {
    assert a.quote + "" == a.quote && a.paragraph + "" == a.paragraph;
  }

  lemma {:induction false} InlineInQuote(a: M.Acc, pieces: seq<Piece>)
    requires a.on == M.OFF.(quote := true, paragraph := true)
    ensures M.Fold(a, Inline(pieces))
         == a.(quote := a.quote + WordText(pieces), paragraph := a.paragraph + Residue(pieces))
    decreases |pieces|
  {
    if pieces == [] {
      FoldNothing(a);
    } else {
      var word, other, rest := WordOf(pieces[0]), OtherOf(pieces[0]), pieces[1..];
      assert WordText(pieces) == word + WordText(rest) && Residue(pieces) == other + Residue(rest);
      hide *;
      FoldInlineStep(a, pieces);
      StepInQuote(a, pieces[0]);
      InlineInQuote(a.(quote := a.quote + word, paragraph := a.paragraph + other), rest);
      ConcatAssoc(a.quote, word, WordText(rest));
      ConcatAssoc(a.paragraph, other, Residue(rest));
    }
  }

  lemma StepInCell(a: M.Acc, p: Piece)
    requires a.on == M.OFF.(table := true)
    ensures M.Step(a, PieceEvent(p)) == a.(table := a.table.(cell := a.table.cell + WordOf(p)))
  {
    assert a.table.cell + "" == a.table.cell;
  }

  lemma {:induction false} InlineInCell(a: M.Acc, pieces: seq<Piece>)
    requires a.on == M.OFF.(table := true)
    ensures M.Fold(a, Inline(pieces)) == a.(table := a.table.(cell := a.table.cell + WordText(pieces)))
    decreases |pieces|
  {
    if pieces == [] {
      FoldNothing(a);
    } else {
      var first, rest := WordOf(pieces[0]), pieces[1..];
      assert WordText(pieces) == first + WordText(rest);
      hide *;
      FoldInlineStep(a, pieces);
      StepInCell(a, pieces[0]);
      InlineInCell(a.(table := a.table.(cell := a.table.cell + first)), rest);
      ConcatAssoc(a.table.cell, first, WordText(rest));
    }
  }

  lemma StepInItem(a: M.Acc, p: Piece)
    requires a.on == M.OFF.(list := true, item := true)
    ensures
      M.Step(a, PieceEvent(p))
      == a.(list := a.list.(items := if a.list.items == [] && p.Word? then [p.text]
                                     else M.ToLast(a.list.items, ItemPiece(p))))
  {
    hide M.ToLast;
  }

  lemma {:induction false} InlineInItem(a: M.Acc, pieces: seq<Piece>)
    requires a.on == M.OFF.(list := true, item := true)
    ensures M.Fold(a, Inline(pieces)) == a.(list := a.list.(items := Joined(a.list.items, pieces)))
    decreases |pieces|
  {
    hide M.Step; hide M.ToLast; hide PieceEvent; hide ItemPiece;
    if pieces != [] {
      FoldInlineStep(a, pieces);
      hide M.Fold; hide Inline;
      StepInItem(a, pieces[0]);
      InlineInItem(M.Step(a, PieceEvent(pieces[0])), pieces[1..]);
    }
  }

  lemma {:induction false} JoinedConcat(entries: seq<string>, s: seq<Piece>, t: seq<Piece>)
    ensures Joined(entries, s + t) == Joined(Joined(entries, s), t)
    decreases |s|
  {
    hide M.ToLast; hide ItemPiece;
    if s == [] {
      assert s + t == t;
    } else {
      var p := s[0];
      assert (s + t)[0] == p && (s + t)[1..] == s[1..] + t;
      JoinedConcat(if entries == [] && p.Word? then [p.text] else M.ToLast(entries, ItemPiece(p)), s[1..], t);
    }
  }

  lemma OneItem(a: M.Acc, item: seq<Piece>)
    requires a.on == M.OFF.(list := true)
    ensures
      M.Fold(a, Wrap(M.ItemTag, Inline(item))) == a.(list := a.list.(items := Joined(a.list.items, item)))
  {
    FoldWrap(a, M.ItemTag, Inline(item));
    InlineInItem(M.OnStart(a, M.ItemTag), item);
    hide M.Fold; hide Inline; hide Wrap; hide Joined;
  }

  lemma {:induction false} FoldItems(a: M.Acc, items: seq<seq<Piece>>)
    requires a.on == M.OFF.(list := true)
    ensures M.Fold(a, ItemEvents(items)) == a.(list := a.list.(items := Joined(a.list.items, Flatten(items))))
    decreases |items|
  {
    hide Inline; hide Wrap;
    if items != [] {
      var head, tail := Wrap(M.ItemTag, Inline(items[0])), ItemEvents(items[1..]);
      hide M.Fold;
      M.FoldConcat(a, head, tail);
      OneItem(a, items[0]);
      var b := a.(list := a.list.(items := Joined(a.list.items, items[0])));
      FoldItems(b, items[1..]);
      JoinedConcat(a.list.items, items[0], Flatten(items[1..]));
      hide Joined;
    }
  }

  lemma OneCell(a: M.Acc, cell: seq<Piece>)
    requires a.on == M.OFF.(table := true)
    ensures
      M.Fold(a, Wrap(M.TableCellTag, Inline(cell)))
      == a.(table := a.table.(row := a.table.row + [WordText(cell)], cell := ""))
  {
    FoldWrap(a, M.TableCellTag, Inline(cell));
    InlineInCell(M.OnStart(a, M.TableCellTag), cell);
    hide M.Fold; hide Inline; hide Wrap; hide WordText;
    assert "" + WordText(cell) == WordText(cell);
  }

  lemma {:induction false} FoldCells(a: M.Acc, cells: seq<seq<Piece>>)
    requires a.on == M.OFF.(table := true)
    ensures
      var b := M.Fold(a, CellEvents(cells));
      b == a.(table := a.table.(row := a.table.row + WordCells(cells), cell := b.table.cell))
    decreases |cells|
  {
    hide Inline; hide Wrap; hide WordText;
    if cells == [] {
      assert a.table.row + [] == a.table.row;
    } else {
      hide M.Fold;
      var b := a.(table := a.table.(row := a.table.row + [WordText(cells[0])], cell := ""));
      M.FoldConcat(a, Wrap(M.TableCellTag, Inline(cells[0])), CellEvents(cells[1..]));
      OneCell(a, cells[0]);
      FoldCells(b, cells[1..]);
      ConcatAssoc(a.table.row, [WordText(cells[0])], WordCells(cells[1..]));
    }
  }

  lemma OneRow(a: M.Acc, row: seq<seq<Piece>>)
    requires a.on == M.OFF.(table := true)
    ensures
      var b := M.Fold(a, Wrap(M.TableRowTag, CellEvents(row)));
      b == a.(table := a.table.(rows := a.table.rows + [WordCells(row)], row := [], cell := b.table.cell))
  {
    FoldWrap(a, M.TableRowTag, CellEvents(row));
    FoldCells(M.OnStart(a, M.TableRowTag), row);
    hide M.Fold; hide Inline; hide Wrap; hide WordCells;
    assert [] + WordCells(row) == WordCells(row);
  }

  lemma {:induction false} FoldRows(a: M.Acc, rows: seq<seq<seq<Piece>>>)
    requires a.on == M.OFF.(table := true)
    ensures
      var b := M.Fold(a, RowEvents(rows));
      b == a.(table := a.table.(rows := a.table.rows + WordRows(rows), row := b.table.row, cell := b.table.cell))
    decreases |rows|
  {
    hide Inline; hide Wrap; hide WordCells; hide CellEvents;
    if rows == [] {
      assert a.table.rows + [] == a.table.rows;
    } else {
      hide M.Fold;
      var b := M.Fold(a, Wrap(M.TableRowTag, CellEvents(rows[0])));
      M.FoldConcat(a, Wrap(M.TableRowTag, CellEvents(rows[0])), RowEvents(rows[1..]));
      OneRow(a, rows[0]);
      FoldRows(b, rows[1..]);
      ConcatAssoc(a.table.rows, [WordCells(rows[0])], WordRows(rows[1..]));
    }
  }

  // -- One document, from rest to rest --------------------------------

  /** Nothing is open and no paragraph text is waiting. */
  predicate AtRest(a: M.Acc) {
    a.on == M.OFF && a.paragraph == ""
  }

  /** After a document the fold is at rest again, with the document's blocks added. */
  ghost predicate Reads(a: M.Acc, d: Doc) {
    var b := M.Fold(a, Encode(d));
    AtRest(b) && b.blocks == a.blocks + Actual(d)
  }

  lemma ReadsParagraph(a: M.Acc, pieces: seq<Piece>)
    requires AtRest(a)
    ensures Reads(a, Para(pieces))
  {
    FoldWrap(a, M.ParagraphTag, Inline(pieces));
    InlineInParagraph(M.OnStart(a, M.ParagraphTag), pieces);
    assert "" + Render(pieces) == Render(pieces) && a.blocks + [] == a.blocks;
  }

  lemma ReadsFence(a: M.Acc, language: Option<string>, texts: seq<string>)
    requires AtRest(a)
    ensures Reads(a, Fence(language, texts))
  {
    FoldWrap(a, M.CodeTag(Kind(language)), Inline(Words(texts)));
    TextsInCode(M.OnStart(a, M.CodeTag(Kind(language))), texts);
    assert "" + Flatten(texts) == Flatten(texts);
  }

  lemma ReadsHeading(a: M.Acc, level: nat, pieces: seq<Piece>)
    requires AtRest(a)
    ensures Reads(a, Head(level, pieces))
  {
    FoldWrap(a, M.HeadingTag(level), Inline(pieces));
    InlineInHeading(M.OnStart(a, M.HeadingTag(level)), pieces);
    assert "" + HeadingText(pieces) == HeadingText(pieces);
  }

  lemma ReadsItems(a: M.Acc, ordered: bool, items: seq<seq<Piece>>)
    requires AtRest(a)
    ensures Reads(a, Items(ordered, items))
  {
    FoldWrap(a, M.ListTag(ordered), ItemEvents(items));
    FoldItems(M.OnStart(a, M.ListTag(ordered)), items);
  }

  lemma ReadsQuote(a: M.Acc, pieces: seq<Piece>)
    requires AtRest(a)
    ensures Reads(a, Quote(pieces))
  {
    var b := M.OnStart(a, M.QuoteTag);
    FoldWrap(a, M.QuoteTag, Wrap(M.ParagraphTag, Inline(pieces)));
    FoldWrap(b, M.ParagraphTag, Inline(pieces));
    InlineInQuote(M.OnStart(b, M.ParagraphTag), pieces);
    assert "" + WordText(pieces) == WordText(pieces) && "" + Residue(pieces) == Residue(pieces);
    assert a.blocks + Actual(Quote(pieces)) == M.Fold(a, Encode(Quote(pieces))).blocks;
  }

  lemma ReadsGrid(a: M.Acc, head: seq<seq<Piece>>, rows: seq<seq<seq<Piece>>>)
    requires AtRest(a)
    ensures Reads(a, Grid(head, rows))
  {
    var b := M.OnStart(a, M.TableTag);
    var heading := Wrap(M.TableHeadTag, CellEvents(head));
    FoldWrap(a, M.TableTag, heading + RowEvents(rows));
    M.FoldConcat(b, heading, RowEvents(rows));
    FoldWrap(b, M.TableHeadTag, CellEvents(head));
    FoldCells(M.OnStart(b, M.TableHeadTag), head);
    assert [] + WordCells(head) == WordCells(head);
    FoldRows(M.Fold(b, heading), rows);
    assert [] + WordRows(rows) == WordRows(rows);
  }

  lemma ReadsOne(a: M.Acc, d: Doc)
    requires AtRest(a)
    ensures Reads(a, d)
  {
    hide Reads;
    match d
    case Para(pieces) => ReadsParagraph(a, pieces);
    case Fence(language, texts) => ReadsFence(a, language, texts);
    case Head(level, pieces) => ReadsHeading(a, level, pieces);
    case Items(ordered, items) => ReadsItems(a, ordered, items);
    case Quote(pieces) => ReadsQuote(a, pieces);
    case Grid(head, rows) => ReadsGrid(a, head, rows);
  }

  lemma {:induction false} ReadsAll(a: M.Acc, docs: seq<Doc>)
    requires AtRest(a)
    ensures
      var b := M.Fold(a, EncodeAll(docs));
      AtRest(b) && b.blocks == a.blocks + ActualAll(docs)
    decreases |docs|
  {
    hide Actual;
    hide Encode;
    if docs == [] {
      assert a.blocks + [] == a.blocks;
    } else {
      hide M.Fold;
      M.FoldConcat(a, Encode(docs[0]), EncodeAll(docs[1..]));
      ReadsOne(a, docs[0]);
      ReadsAll(M.Fold(a, Encode(docs[0])), docs[1..]);
      assert (a.blocks + Actual(docs[0])) + ActualAll(docs[1..]) == a.blocks + ActualAll(docs);
    }
  }

  // -- Which documents come back unchanged ----------------------------

  predicate AllWords(pieces: seq<Piece>) {
    forall i :: 0 <= i < |pieces| ==> pieces[i].Word?
  }

  /** No hard break and no code span. */
  predicate Unmarked(pieces: seq<Piece>) {
    forall i :: 0 <= i < |pieces| ==> pieces[i].Word? || pieces[i].Soft?
  }

  predicate PlainCells(cells: seq<seq<Piece>>) {
    forall c :: c in cells ==> AllWords(c)
  }

  predicate NoSpans(pieces: seq<Piece>) { forall i :: 0 <= i < |pieces| ==> !pieces[i].Verbatim? }

  /** The item begins with text and holds no code span. */
  predicate GoodItem(pieces: seq<Piece>) { pieces != [] && pieces[0].Word? && NoSpans(pieces) }

  /** The documents the fold preserves: a fence names a non-empty language or none, a list has at most one
      item, which begins with text and holds no code span, headings hold no hard break and no code span, quotes
      and table cells hold plain text only. */
  predicate Faithful(d: Doc) {
    match d
    case Para(_) => true
    case Head(_, pieces) => Unmarked(pieces)
    case Fence(language, _) => language != Some("")
    case Items(_, items) => |items| == 0 || (|items| == 1 && GoodItem(items[0]))
    case Quote(pieces) => AllWords(pieces)
    case Grid(head, rows) =>
      PlainCells(head) && forall r :: r in rows ==> PlainCells(r)
  }

  lemma {:induction false} WordsVersusRest(pieces: seq<Piece>)
    ensures |Render(pieces)| == |WordText(pieces)| + |Residue(pieces)|
    ensures AllWords(pieces) <==> Residue(pieces) == ""
    ensures AllWords(pieces) <==> WordText(pieces) == Render(pieces)
  {
    if pieces != [] {
      WordsVersusRest(pieces[1..]);
      assert AllWords(pieces) <==> pieces[0].Word? && AllWords(pieces[1..]) by {
        assert forall i :: 1 <= i < |pieces| ==> pieces[i] == pieces[1..][i - 1];
      }
      assert |PieceText(pieces[0])| == 0 ==> pieces[0].Word?;
    }
  }

  lemma {:induction false} HeadingKeptIff(pieces: seq<Piece>)
    ensures HeadingText(pieces) == Render(pieces) <==> Unmarked(pieces)
    ensures |HeadingText(pieces)| <= |Render(pieces)|
  {
    if pieces != [] {
      var first, rest := pieces[0], pieces[1..];
      HeadingKeptIff(rest);
      assert |HeadingPiece(first)| <= |PieceText(first)|;
      assert HeadingPiece(first) == PieceText(first) <==> first.Word? || first.Soft?;
      assert Unmarked(pieces) <==> (first.Word? || first.Soft?) && Unmarked(rest) by {
        assert forall i :: 1 <= i < |pieces| ==> pieces[i] == rest[i - 1];
      }
      hide HeadingPiece; hide PieceText; hide Unmarked;
      var h, r := HeadingText(rest), Render(rest);
      if HeadingPiece(first) + h == PieceText(first) + r {
        assert |HeadingPiece(first)| == |PieceText(first)| && |h| == |r|;
        SameParts(HeadingPiece(first), h, PieceText(first), r);
      }
    }
  }

  lemma SameParts(a: string, b: string, c: string, d: string)
    requires |a| == |c| && a + b == c + d
    ensures a == c && b == d
  {
    assert a == (a + b)[..|a|] && c == (c + d)[..|c|];
    assert b == (a + b)[|a|..] && d == (c + d)[|c|..];
  }

  lemma {:induction false} CellsKeptIff(cells: seq<seq<Piece>>)
    ensures WordCells(cells) == RenderEach(cells) <==> PlainCells(cells)
    ensures |WordCells(cells)| == |RenderEach(cells)| == |cells|
  {
    if cells != [] {
      CellsKeptIff(cells[1..]);
      WordsVersusRest(cells[0]);
      assert WordCells(cells)[1..] == WordCells(cells[1..]) && RenderEach(cells)[1..] == RenderEach(cells[1..]);
      assert forall c :: c in cells <==> c == cells[0] || c in cells[1..];
    }
  }

  lemma {:induction false} RowsKeptIff(rows: seq<seq<seq<Piece>>>)
    ensures WordRows(rows) == RenderRows(rows) <==> forall r :: r in rows ==> PlainCells(r)
    ensures |WordRows(rows)| == |RenderRows(rows)| == |rows|
  {
    hide PlainCells;
    if rows != [] {
      RowsKeptIff(rows[1..]);
      CellsKeptIff(rows[0]);
      assert WordRows(rows)[1..] == WordRows(rows[1..]) && RenderRows(rows)[1..] == RenderRows(rows[1..]);
      assert WordRows(rows)[0] == WordCells(rows[0]) && RenderRows(rows)[0] == RenderEach(rows[0]);
      assert forall r :: r in rows <==> r == rows[0] || r in rows[1..];
    }
  }

  /** Once there is an entry, everything goes onto it. */
  lemma {:induction false} JoinedOnto(entry: string, pieces: seq<Piece>)
    ensures Joined([entry], pieces) == [entry + ItemText(pieces)]
    decreases |pieces|
  {
    hide ItemPiece;
    if pieces == [] {
      assert entry + "" == entry;
    } else {
      var first := ItemPiece(pieces[0]);
      assert M.ToLast([entry], first) == [entry + first];
      JoinedOnto(entry + first, pieces[1..]);
      ConcatAssoc(entry, first, ItemText(pieces[1..]));
    }
  }

  /** From nothing: a word begins the entry, anything else is lost. */
  lemma JoinedFromNothing(pieces: seq<Piece>)
    ensures
      Joined([], pieces)
      == if pieces == [] then [] else if pieces[0].Word? then [ItemText(pieces)] else Joined([], pieces[1..])
  {
    if pieces != [] && pieces[0].Word? { JoinedOnto(pieces[0].text, pieces[1..]); }
    hide ItemText;
  }

  lemma {:induction false} ItemTextKeptIff(pieces: seq<Piece>)
    ensures ItemText(pieces) == Render(pieces) <==> NoSpans(pieces)
    ensures |ItemText(pieces)| <= |Render(pieces)|
  {
    if pieces != [] {
      var first, rest := pieces[0], pieces[1..];
      ItemTextKeptIff(rest);
      assert |ItemPiece(first)| <= |PieceText(first)|;
      assert ItemPiece(first) == PieceText(first) <==> !first.Verbatim?;
      assert NoSpans(pieces) <==> !first.Verbatim? && NoSpans(rest) by {
        assert forall i :: 1 <= i < |pieces| ==> pieces[i] == rest[i - 1];
      }
      hide ItemPiece; hide PieceText; hide NoSpans;
      var h, r := ItemText(rest), Render(rest);
      if ItemPiece(first) + h == PieceText(first) + r {
        assert |ItemPiece(first)| == |PieceText(first)| && |h| == |r|;
        SameParts(ItemPiece(first), h, PieceText(first), r);
      }
    }
  }

  lemma {:induction false} JoinedIsShort(pieces: seq<Piece>)
    ensures |Joined([], pieces)| <= 1
    ensures Joined([], pieces) != [] ==> |Joined([], pieces)[0]| <= |Render(pieces)|
    ensures
      Joined([], pieces) != [] && pieces != [] && !pieces[0].Word? ==> |Joined([], pieces)[0]| < |Render(pieces)|
  {
    JoinedFromNothing(pieces);
    hide Joined;
    if pieces != [] {
      if pieces[0].Word? { ItemTextKeptIff(pieces); } else { JoinedIsShort(pieces[1..]); }
      hide ItemText;
    }
  }

  lemma ItemKeptIff(pieces: seq<Piece>)
    ensures Joined([], pieces) == [Render(pieces)] <==> GoodItem(pieces)
  {
    JoinedFromNothing(pieces);
    JoinedIsShort(pieces);
    ItemTextKeptIff(pieces);
    hide Joined; hide ItemText; hide Render; hide NoSpans;
  }

  lemma ItemsKeptIff(items: seq<seq<Piece>>)
    ensures
      Joined([], Flatten(items)) == RenderEach(items) <==> |items| == 0 || (|items| == 1 && GoodItem(items[0]))
  {
    JoinedIsShort(Flatten(items));
    RenderEachLength(items);
    if |items| == 1 {
      ItemKeptIff(items[0]);
      assert Flatten(items) == items[0] + Flatten(items[1..]) == items[0];
      assert RenderEach(items) == [Render(items[0])] + RenderEach(items[1..]) == [Render(items[0])];
    }
    hide Joined; hide Render; hide GoodItem;
  }

  lemma {:induction false} RenderEachLength(items: seq<seq<Piece>>)
    ensures |RenderEach(items)| == |items|
  {
    if items != [] { RenderEachLength(items[1..]); }
  }

  lemma KeptIff(d: Doc)
    ensures Actual(d) == Meaning(d) <==> Faithful(d)
    ensures |Actual(d)| >= |Meaning(d)|
  {
    match d
    case Para(_) =>
    case Head(level, pieces) =>
      HeadingKeptIff(pieces);
      assert Actual(d)[0].text == HeadingText(pieces) && Meaning(d)[0].text == Render(pieces);
    case Fence(_, _) =>
    case Items(ordered, items) =>
      ItemsKeptIff(items);
      assert Actual(d)[0].items == Joined([], Flatten(items)) && Meaning(d)[0].items == RenderEach(items);
    case Quote(pieces) =>
      WordsVersusRest(pieces);
      if AllWords(pieces) {
        assert Actual(d) == [] + [M.Blockquote(WordText(pieces))];
      } else {
        assert |Actual(d)| == 2;
      }
    case Grid(head, rows) =>
      hide PlainCells;
      CellsKeptIff(head);
      RowsKeptIff(rows);
      assert Actual(d)[0] == M.Table(WordCells(head), WordRows(rows));
      assert Meaning(d)[0] == M.Table(RenderEach(head), RenderRows(rows));
  }

  lemma {:induction false} AllKeptIff(docs: seq<Doc>)
    ensures ActualAll(docs) == MeaningAll(docs) <==> forall d :: d in docs ==> Faithful(d)
    ensures |ActualAll(docs)| >= |MeaningAll(docs)|
  {
    hide Actual;
    hide Meaning;
    hide Faithful;
    if docs != [] {
      var a, m := Actual(docs[0]), Meaning(docs[0]);
      var as', ms := ActualAll(docs[1..]), MeaningAll(docs[1..]);
      KeptIff(docs[0]);
      AllKeptIff(docs[1..]);
      assert forall d :: d in docs <==> d == docs[0] || d in docs[1..];
      if a + as' == m + ms {
        assert |a| == |m| && |as'| == |ms|;
        assert (a + as')[..|a|] == a && (m + ms)[..|a|] == m;
        assert (a + as')[|a|..] == as' && (m + ms)[|a|..] == ms;
      }
    }
  }

  /** For every document list: parsing its events gives the blocks it stands for, in order, if
      and only if every document in it is faithful, however its texts are cut. */
  lemma RoundTripIff(docs: seq<Doc>)
    ensures M.BlocksOf(EncodeAll(docs)) == MeaningAll(docs) <==> forall d :: d in docs ==> Faithful(d)
  {
    hide M.Fold;
    hide EncodeAll;
    hide Faithful;
    ReadsAll(M.INIT, docs);
    AllKeptIff(docs);
    assert [] + ActualAll(docs) == ActualAll(docs);
  }

  // -- Inline tags ----------------------------------------------------

  /** Emphasis, links, images and whatever else the fold has no case for. */
  predicate IsStyle(e: M.Event) { e == M.Start(M.OtherTag) || e == M.End(M.OtherTag) || e == M.Ignored }

  function Unstyled(events: seq<M.Event>): seq<M.Event> {
    if events == [] then [] else (if IsStyle(events[0]) then [] else [events[0]]) + Unstyled(events[1..])
  }

  lemma {:induction false} StylesChangeNothing(a: M.Acc, events: seq<M.Event>)
    ensures M.Fold(a, events) == M.Fold(a, Unstyled(events))
    decreases |events|
  {
    if events != [] {
      var e, rest := events[0], events[1..];
      if IsStyle(e) {
        assert M.Step(a, e) == a;
        assert Unstyled(events) == Unstyled(rest);
      } else {
        assert Unstyled(events) == [e] + Unstyled(rest);
        assert Unstyled(events)[1..] == Unstyled(rest);
      }
      hide M.Step;
      StylesChangeNothing(M.Step(a, e), rest);
    }
  }

  /** Documents whose text is styled, linked and marked in any way, anywhere: they are read as without it. */
  lemma StyledRoundTripIff(events: seq<M.Event>, docs: seq<Doc>)
    requires Unstyled(events) == EncodeAll(docs)
    ensures M.BlocksOf(events) == MeaningAll(docs) <==> forall d :: d in docs ==> Faithful(d)
  {
    hide M.Fold;
    hide EncodeAll;
    hide Faithful;
    StylesChangeNothing(M.INIT, events);
    RoundTripIff(docs);
  }

  // -- Markup ---------------------------------------------------------

  function Markup(lines: seq<string>): seq<M.Event> {
    if lines == [] then [] else [M.Html(lines[0])] + Markup(lines[1..])
  }

  lemma {:induction false} MarkupWaits(a: M.Acc, lines: seq<string>)
    requires a.on == M.OFF || a.on == M.OFF.(paragraph := true)
    ensures
      M.Fold(a, Markup(lines))
      == a.(paragraph := a.paragraph + Flatten(lines), on := if lines == [] then a.on else M.OFF.(paragraph := true))
    decreases |lines|
  {
    if lines == [] {
      assert a.paragraph + "" == a.paragraph;
    } else {
      assert Markup(lines)[1..] == Markup(lines[1..]);
      var b := M.Step(a, M.Html(lines[0]));
      assert b == a.(paragraph := a.paragraph + lines[0], on := M.OFF.(paragraph := true));
      MarkupWaits(b, lines[1..]);
      ConcatAssoc(a.paragraph, lines[0], Flatten(lines[1..]));
    }
  }

  function TextBlock(text: string): seq<M.Block> { if text == "" then [] else [M.Paragraph(text)] }

  /** Markup between documents is kept as plain text, at the front of the paragraph that follows it, or as a
      paragraph of its own at the end. */
  lemma MarkupIsText(docs: seq<Doc>, lines: seq<string>, pieces: seq<Piece>)
    ensures
      M.BlocksOf(EncodeAll(docs) + Markup(lines) + Encode(Para(pieces)))
      == ActualAll(docs) + TextBlock(Flatten(lines) + Render(pieces))
    ensures M.BlocksOf(EncodeAll(docs) + Markup(lines)) == ActualAll(docs) + TextBlock(Flatten(lines))
  {
    var a := M.Fold(M.INIT, EncodeAll(docs));
    ReadsAll(M.INIT, docs);
    assert [] + ActualAll(docs) == ActualAll(docs);
    var b := M.Fold(a, Markup(lines));
    MarkupWaits(a, lines);
    assert "" + Flatten(lines) == Flatten(lines);
    FoldWrap(b, M.ParagraphTag, Inline(pieces));
    InlineInParagraph(M.OnStart(b, M.ParagraphTag), pieces);
    M.FoldConcat(M.INIT, EncodeAll(docs) + Markup(lines), Encode(Para(pieces)));
    M.FoldConcat(M.INIT, EncodeAll(docs), Markup(lines));
    hide M.Fold; hide EncodeAll; hide Markup; hide Flatten; hide Render; hide ActualAll; hide Inline;
    assert ActualAll(docs) + [] == ActualAll(docs);
  }

  // -- Inside a code block --------------------------------------------

  /** What an event adds to the code block that is open: code spans do not occur there. */
  function CodePart(e: M.Event): string {
    match e
    case Text(t) => t
    case Html(t) => t
    case SoftBreak => "\n"
    case HardBreak => "\n"
    case _ => ""
  }

  function CodeParts(events: seq<M.Event>): string {
    if events == [] then "" else CodePart(events[0]) + CodeParts(events[1..])
  }

  /** Text, markup, breaks and spans. */
  predicate IsContent(e: M.Event) { !e.Start? && !e.End? }

  lemma {:induction false} CodeKeepsContent(a: M.Acc, events: seq<M.Event>)
    requires a.on == M.OFF.(code := true) && forall e :: e in events ==> IsContent(e)
    ensures M.Fold(a, events) == a.(code := a.code.(content := a.code.content + CodeParts(events)))
    decreases |events|
  {
    if events == [] {
      assert a.code.content + "" == a.code.content;
    } else {
      var e, rest := events[0], events[1..];
      assert e in events && IsContent(e);
      assert a.code.content + "" == a.code.content;
      var b := a.(code := a.code.(content := a.code.content + CodePart(e)));
      assert M.Step(a, e) == b;
      hide M.Step; hide CodePart; hide IsContent;
      CodeKeepsContent(b, rest);
      ConcatAssoc(a.code.content, CodePart(e), CodeParts(rest));
    }
  }

  /** A code block keeps all the text, markup and line breaks inside it. */
  lemma CodeIsVerbatim(docs: seq<Doc>, kind: M.CodeKind, events: seq<M.Event>)
    requires forall e :: e in events ==> IsContent(e)
    ensures
      M.BlocksOf(EncodeAll(docs) + Wrap(M.CodeTag(kind), events))
      == ActualAll(docs) + [M.Code(M.CodeLanguage(kind), CodeParts(events))]
  {
    var a := M.Fold(M.INIT, EncodeAll(docs));
    ReadsAll(M.INIT, docs);
    assert [] + ActualAll(docs) == ActualAll(docs);
    FoldWrap(a, M.CodeTag(kind), events);
    CodeKeepsContent(M.OnStart(a, M.CodeTag(kind)), events);
    assert "" + CodeParts(events) == CodeParts(events);
    M.FoldConcat(M.INIT, EncodeAll(docs), Wrap(M.CodeTag(kind), events));
    hide M.Fold; hide EncodeAll; hide CodeParts; hide ActualAll; hide Wrap;
  }
}
