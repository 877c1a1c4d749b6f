/** The fold of zhongshu-message-core/src/parser.rs that turns markdown parser events into a
    list of message blocks, and an encoder of documents as events to read it back against. */
module MarkdownFold {
  import opened Wrappers

  datatype Block =
    | Paragraph(text: string)
    | Code(language: Option<string>, content: string)
    | Heading(level: nat, text: string)
    | List(ordered: bool, items: seq<string>)
    | Table(headers: seq<string>, rows: seq<seq<string>>)
    | Blockquote(text: string)
    | ThematicBreak

  datatype CodeKind = Fenced(info: string) | Indented

  datatype Tag =
    | ParagraphTag | CodeTag(kind: CodeKind) | HeadingTag(level: nat) | ListTag(ordered: bool)
    | ItemTag | QuoteTag | TableTag | TableHeadTag | TableRowTag | TableCellTag | OtherTag

  datatype Event =
    | Start(tag: Tag) | End(tag: Tag) | Text(text: string) | SoftBreak | HardBreak
    | Html(text: string) | Span(text: string) | Ignored

  datatype CodeAcc = CodeAcc(language: Option<string>, content: string)
  datatype HeadingAcc = HeadingAcc(level: nat, text: string)
  datatype ListAcc = ListAcc(ordered: bool, items: seq<string>)
  datatype TableAcc = TableAcc(headers: seq<string>, rows: seq<seq<string>>, row: seq<string>, cell: string)

  /** The `in_*` flags. */
  datatype Modes = Modes(paragraph: bool, code: bool, heading: bool, list: bool, item: bool,
                         quote: bool, table: bool)

  /** The accumulators of the fold. */
  datatype Acc = Acc(blocks: seq<Block>, paragraph: string, code: CodeAcc, heading: HeadingAcc,
                     list: ListAcc, quote: string, table: TableAcc, on: Modes)

  const OFF := Modes(false, false, false, false, false, false, false)
  const INIT := Acc([], "", CodeAcc(None, ""), HeadingAcc(0, ""), ListAcc(false, []), "",
                    TableAcc([], [], [], ""), OFF)

  function FlushParagraph(a: Acc): Acc {
    if a.paragraph == "" then a
    else a.(blocks := a.blocks + [Paragraph(a.paragraph)], paragraph := "")
  }

  /** Append to the last list entry, if there is one. */
  function ToLast(items: seq<string>, t: string): seq<string> {
    if items == [] then [] else items[..|items| - 1] + [items[|items| - 1] + t]
  }

  function CodeLanguage(kind: CodeKind): Option<string> {
    if kind.Fenced? && kind.info != "" then Some(kind.info) else None
  }

  function OnStart(a: Acc, tag: Tag): Acc {
    match tag
    case ParagraphTag => a.(on := a.on.(paragraph := true))
    case CodeTag(kind) => a.(on := a.on.(code := true), code := CodeAcc(CodeLanguage(kind), ""))
    case HeadingTag(level) => a.(on := a.on.(heading := true), heading := HeadingAcc(level, ""))
    case ListTag(ordered) => a.(on := a.on.(list := true), list := ListAcc(ordered, []))
    case ItemTag => a.(on := a.on.(item := true))
    case QuoteTag => a.(on := a.on.(quote := true), quote := "")
    case TableTag => a.(on := a.on.(table := true), table := a.table.(headers := [], rows := []))
    case TableHeadTag => a.(table := a.table.(row := []))
    case TableRowTag => a.(table := a.table.(row := []))
    case TableCellTag => a.(table := a.table.(cell := ""))
    case OtherTag => a
  }

  function OnEnd(a: Acc, tag: Tag): Acc {
    match tag
    case ParagraphTag =>
      if a.on.paragraph then FlushParagraph(a).(on := a.on.(paragraph := false)) else a
    case CodeTag(_) =>
      if !a.on.code then a else
      a.(blocks := a.blocks + [Code(a.code.language, a.code.content)], code := CodeAcc(None, ""),
         on := a.on.(code := false))
    case HeadingTag(_) =>
      if !a.on.heading then a else
      a.(blocks := a.blocks + [Heading(a.heading.level, a.heading.text)],
         heading := a.heading.(text := ""), on := a.on.(heading := false))
    case ListTag(_) =>
      if !a.on.list then a else
      a.(blocks := a.blocks + [List(a.list.ordered, a.list.items)], list := a.list.(items := []),
         on := a.on.(list := false, item := false))
    case ItemTag => a.(on := a.on.(item := false))
    case QuoteTag =>
      if !a.on.quote then a else
      a.(blocks := a.blocks + [Blockquote(a.quote)], quote := "", on := a.on.(quote := false))
    case TableTag =>
      if !a.on.table then a else
      a.(blocks := a.blocks + [Table(a.table.headers, a.table.rows)],
         table := a.table.(headers := [], rows := []), on := a.on.(table := false))
    case TableHeadTag => a.(table := a.table.(headers := a.table.row, row := []))
    case TableCellTag => a.(table := a.table.(row := a.table.row + [a.table.cell], cell := ""))
    case TableRowTag =>
      if !a.on.table then a else a.(table := a.table.(rows := a.table.rows + [a.table.row], row := []))
    case OtherTag => a
  }

  function OnText(a: Acc, t: string): Acc {
    if a.on.code then a.(code := a.code.(content := a.code.content + t))
    else if a.on.heading then a.(heading := a.heading.(text := a.heading.text + t))
    else if a.on.item then
      a.(list := a.list.(items := if a.list.items == [] then [t] else ToLast(a.list.items, t)))
    else if a.on.quote then a.(quote := a.quote + t)
    else if a.on.table then a.(table := a.table.(cell := a.table.cell + t))
    else a.(paragraph := a.paragraph + t, on := a.on.(paragraph := true))
  }

  function OnSoftBreak(a: Acc): Acc {
    if a.on.code then a.(code := a.code.(content := a.code.content + "\n"))
    else if a.on.paragraph then a.(paragraph := a.paragraph + " ")
    else if a.on.heading then a.(heading := a.heading.(text := a.heading.text + " "))
    else if a.on.item then a.(list := a.list.(items := ToLast(a.list.items, " ")))
    else if a.on.quote then a.(quote := a.quote + " ")
    else a
  }

  function OnHardBreak(a: Acc): Acc {
    if a.on.code then a.(code := a.code.(content := a.code.content + "\n"))
    else if a.on.paragraph then a.(paragraph := a.paragraph + "\n")
    else if a.on.item then a.(list := a.list.(items := ToLast(a.list.items, "\n")))
    else a
  }

  function OnHtml(a: Acc, t: string): Acc {
    if a.on.code then a.(code := a.code.(content := a.code.content + t))
    else a.(paragraph := a.paragraph + t, on := a.on.(paragraph := true))
  }

  function OnSpan(a: Acc, t: string): Acc {
    if a.on.paragraph then a.(paragraph := a.paragraph + ("`" + t + "`"))
    else if a.on.heading then a.(heading := a.heading.(text := a.heading.text + t))
    else if a.on.item then a.(list := a.list.(items := ToLast(a.list.items, t)))
    else a
  }

  function Step(a: Acc, e: Event): Acc {
    match e
    case Start(tag) => OnStart(a, tag)
    case End(tag) => OnEnd(a, tag)
    case Text(t) => OnText(a, t)
    case SoftBreak => OnSoftBreak(a)
    case HardBreak => OnHardBreak(a)
    case Html(t) => OnHtml(a, t)
    case Span(t) => OnSpan(a, t)
    case Ignored => a
  }

  function Fold(a: Acc, events: seq<Event>): Acc
    decreases |events|
  {
    if events == [] then a else Fold(Step(a, events[0]), events[1..])
  }

  /** The blocks of an event list: fold, then flush a paragraph left open. */
  function BlocksOf(events: seq<Event>): seq<Block> {
    var a := Fold(INIT, events);
    if a.on.paragraph then FlushParagraph(a).blocks else a.blocks
  }

  /** The parser's mutable accumulators; `State` reads them as one value. */
  class BlockBuilder {
    var blocks: seq<Block>
    var paragraph: string
    var code: CodeAcc
    var heading: HeadingAcc
    var list: ListAcc
    var quote: string
    var table: TableAcc
    var on: Modes

    ghost function State(): Acc
      reads this
    {
      Acc(blocks, paragraph, code, heading, list, quote, table, on)
    }

    constructor ()
      ensures State() == INIT
    {
      blocks, paragraph, code, heading := [], "", CodeAcc(None, ""), HeadingAcc(0, "");
      list, quote, table, on := ListAcc(false, []), "", TableAcc([], [], [], ""), OFF;
    }

    method Flush()
      modifies this
      ensures State() == FlushParagraph(old(State()))
    {
      if paragraph != "" {
        blocks := blocks + [Paragraph(paragraph)];
        paragraph := "";
      }
    }

    method StartTag(tag: Tag)
      modifies this
      ensures State() == OnStart(old(State()), tag)
    {
      match tag
      case ParagraphTag => on := on.(paragraph := true);
      case CodeTag(kind) =>
        on := on.(code := true);
        code := CodeAcc(CodeLanguage(kind), "");
      case HeadingTag(level) =>
        on := on.(heading := true);
        heading := HeadingAcc(level, "");
      case ListTag(ordered) =>
        on := on.(list := true);
        list := ListAcc(ordered, []);
      case ItemTag => on := on.(item := true);
      case QuoteTag =>
        on := on.(quote := true);
        quote := "";
      case TableTag =>
        on := on.(table := true);
        table := table.(headers := [], rows := []);
      case TableHeadTag => table := table.(row := []);
      case TableRowTag => table := table.(row := []);
      case TableCellTag => table := table.(cell := "");
      case OtherTag =>
    }

    method EndTag(tag: Tag)
      modifies this
      ensures State() == OnEnd(old(State()), tag)
    {
      match tag
      case ParagraphTag =>
        if on.paragraph {
          Flush();
          on := on.(paragraph := false);
        }
      case CodeTag(_) =>
        if on.code {
          blocks := blocks + [Code(code.language, code.content)];
          code := CodeAcc(None, "");
          on := on.(code := false);
        }
      case HeadingTag(_) =>
        if on.heading {
          blocks := blocks + [Heading(heading.level, heading.text)];
          heading := heading.(text := "");
          on := on.(heading := false);
        }
      case ListTag(_) =>
        if on.list {
          blocks := blocks + [List(list.ordered, list.items)];
          list := list.(items := []);
          on := on.(list := false, item := false);
        }
      case ItemTag => on := on.(item := false);
      case QuoteTag =>
        if on.quote {
          blocks := blocks + [Blockquote(quote)];
          quote := "";
          on := on.(quote := false);
        }
      case TableTag =>
        if on.table {
          blocks := blocks + [Table(table.headers, table.rows)];
          table := table.(headers := [], rows := []);
          on := on.(table := false);
        }
      case TableHeadTag => table := table.(headers := table.row, row := []);
      case TableCellTag => table := table.(row := table.row + [table.cell], cell := "");
      case TableRowTag =>
        if on.table {
          table := table.(rows := table.rows + [table.row], row := []);
        }
      case OtherTag =>
    }

    method AddText(t: string)
      modifies this
      ensures State() == OnText(old(State()), t)
    {
      if on.code {
        code := code.(content := code.content + t);
      } else if on.heading {
        heading := heading.(text := heading.text + t);
      } else if on.item {
        list := list.(items := if list.items == [] then [t] else ToLast(list.items, t));
      } else if on.quote {
        quote := quote + t;
      } else if on.table {
        table := table.(cell := table.cell + t);
      } else {
        paragraph := paragraph + t;
        on := on.(paragraph := true);
      }
    }

    method AddSoftBreak()
      modifies this
      ensures State() == OnSoftBreak(old(State()))
    {
      if on.code {
        code := code.(content := code.content + "\n");
      } else if on.paragraph {
        paragraph := paragraph + " ";
      } else if on.heading {
        heading := heading.(text := heading.text + " ");
      } else if on.item {
        list := list.(items := ToLast(list.items, " "));
      } else if on.quote {
        quote := quote + " ";
      }
    }

    method AddHardBreak()
      modifies this
      ensures State() == OnHardBreak(old(State()))
    {
      if on.code {
        code := code.(content := code.content + "\n");
      } else if on.paragraph {
        paragraph := paragraph + "\n";
      } else if on.item {
        list := list.(items := ToLast(list.items, "\n"));
      }
    }

    method AddHtml(t: string)
      modifies this
      ensures State() == OnHtml(old(State()), t)
    {
      if on.code {
        code := code.(content := code.content + t);
      } else {
        paragraph := paragraph + t;
        on := on.(paragraph := true);
      }
    }

    method AddSpan(t: string)
      modifies this
      ensures State() == OnSpan(old(State()), t)
    {
      if on.paragraph {
        paragraph := paragraph + ("`" + t + "`");
      } else if on.heading {
        heading := heading.(text := heading.text + t);
      } else if on.item {
        list := list.(items := ToLast(list.items, t));
      }
    }

    method Handle(event: Event)
      modifies this
      ensures State() == Step(old(State()), event)
    {
      match event
      case Start(tag) => StartTag(tag);
      case End(tag) => EndTag(tag);
      case Text(t) => AddText(t);
      case SoftBreak => AddSoftBreak();
      case HardBreak => AddHardBreak();
      case Html(t) => AddHtml(t);
      case Span(t) => AddSpan(t);
      case Ignored =>
    }
  }

  /** The parser's loop over the events of a text. */
  method Parse(events: seq<Event>) returns (blocks: seq<Block>)
    ensures blocks == BlocksOf(events)
  {
    hide Step;
    var builder := new BlockBuilder();
    for i := 0 to |events|
      invariant Fold(builder.State(), events[i..]) == Fold(INIT, events)
    {
      FoldOne(builder.State(), events, i);
      builder.Handle(events[i]);
    }
    assert events[|events|..] == [];
    if builder.on.paragraph {
      builder.Flush();
    }
    blocks := builder.blocks;
  }

  lemma FoldOne(a: Acc, events: seq<Event>, i: nat)
    requires i < |events|
    ensures Fold(a, events[i..]) == Fold(Step(a, events[i]), events[i + 1..])
  {
    assert events[i..][0] == events[i] && events[i..][1..] == events[i + 1..];
  }

  lemma {:induction false} FoldConcat(a: Acc, es: seq<Event>, fs: seq<Event>)
    ensures Fold(a, es + fs) == Fold(Fold(a, es), fs)
    decreases |es|
  {
    if es == [] {
      assert es + fs == fs;
    } else {
      assert (es + fs)[0] == es[0] && (es + fs)[1..] == es[1..] + fs;
      FoldConcat(Step(a, es[0]), es[1..], fs);
    }
  }
}
