/**
 * Slideck::Renderer: places a slide's content, the footer and the pager on
 * the screen. The markdown converter and the ANSI sanitiser are given
 * functions; the terminal cursor's escapes are the actions below.
 */
module Renderer {
  import opened Wrappers
  import opened RubyText
  import opened Values
  import opened MetadataValues
  import A = Alignment
  import M = Margin
  import MD = Metadata
  import MW = MetadataWrapper
  import MetadataDefaults

  /** What the renderer writes: cursor moves to a 0-based column and row, and text */
  datatype Action = MoveTo(col: int, row: int) | Write(text: string) | ClearScreen

  /** Converter#convert: markdown content, symbols, theme and width to terminal text */
  type Converter = (Value, MetaValue, MetaValue, int) -> string

  /** Strings::ANSI.sanitize(line).size: the visible length of a line */
  type Visible = string -> nat

  datatype Renderer = Renderer(convert: Converter, visible: Visible, width: int, height: int)

  /** Why rendering raises, or leaves what the model covers */
  datatype RenderError =
    | NoText                      // a footer or pager whose :text is missing or nil: nil.empty? raises
    | NoLines                     // centring or right-aligning no lines: nil in arithmetic raises
    | NotAString(text: Value)     // a non-empty footer or pager text other than a string
    | UnsupportedFormat(template: string)  // a format directive other than %<page>, %<total> and %%

  /** Renderer#resize: a renderer for a new screen size, with the same converter and sanitiser */
  function Resize(r: Renderer, width: int, height: int): (r': Renderer)
    ensures r'.width == width && r'.height == height
    ensures r'.convert == r.convert && r'.visible == r.visible
  {
    Renderer(r.convert, r.visible, width, height)
  }

  /** Renderer#clear: clear the screen, then put the cursor at the origin */
  function Clear(): (out: seq<Action>)
    ensures |out| == 2 && out[0] == ClearScreen && out[1] == MoveTo(0, 0)
  {
    [ClearScreen, MoveTo(0, 0)]
  }

  // ---------------------------------------------------------------------------
  // Choosing the metadata
  // ---------------------------------------------------------------------------

  /** Renderer#pick_metadata: the slide's value unless it is nil, else the deck's */
  function Pick(global: MD.Metadata, slide: Option<MD.Metadata>, k: MetaKey): (v: MetaValue)
    ensures slide.Some? && slide.value.Get(k) != NilValue ==> v == slide.value.Get(k)
    ensures slide.None? || slide.value.Get(k) == NilValue ==> v == global.Get(k)
  {
    if slide.Some? && slide.value.Get(k) != NilValue then slide.value.Get(k) else global.Get(k)
  }

  /** The deck's metadata as the wrapper builds it, and a slide's well-typed metadata */
  predicate Ready(global: MD.Metadata, slide: Option<MD.Metadata>) {
    MD.DeckShape(global) && (slide.Some? ==> WellTyped(slide.value.fields))
  }

  /** Whatever the slide says, the picked values have the types the renderer reads */
  lemma {:induction false} PickShape(global: MD.Metadata, slide: Option<MD.Metadata>, k: MetaKey)
    requires Ready(global, slide)
    ensures k == AlignKey ==> Pick(global, slide, k).AlignValue?
    ensures k == MarginKey ==> Pick(global, slide, k).MarginValue?
    ensures k == FooterKey || k == PagerKey ==> Pick(global, slide, k).SectionValue?
  {
    if slide.Some? && HasKey(slide.value.fields, k) {
      WellTypedGet(slide.value.fields, k);
    }
  }

  // ---------------------------------------------------------------------------
  // Layout arithmetic
  // ---------------------------------------------------------------------------

  /** Ruby's Integer#/ by 2 rounds toward minus infinity, as Dafny's / does for a positive divisor */
  function Half(x: int): (h: int)
    ensures 2 * h <= x < 2 * h + 2
  {
    x / 2
  }

  /** Renderer#slide_width */
  function SlideWidth(r: Renderer, m: M.Margin): int {
    r.width - m.left - m.right
  }

  /** Renderer#slide_height */
  function SlideHeight(r: Renderer, m: M.Margin): int {
    r.height - m.top - m.bottom
  }

  /**
   * Renderer#find_left_column: at the left margin, flush with the right
   * margin, or centred with the spare column, if any, on the right.
   */
  function LeftColumn(r: Renderer, h: A.Horizontal, m: M.Margin, length: int): (col: int)
    ensures h == A.Left ==> col == m.left
    ensures h == A.Right ==> col + length == r.width - m.right
    ensures h == A.HCenter ==>
              var before := col - m.left;
              var after := (r.width - m.right) - (col + length);
              before <= after <= before + 1
  {
    match h
    case Left => m.left
    case HCenter => m.left + Half(SlideWidth(r, m) - length)
    case Right => m.left + (SlideWidth(r, m) - length)
  }

  /** Renderer#find_top_row: the same rule down the screen, for a number of lines */
  function TopRow(r: Renderer, v: A.Vertical, m: M.Margin, count: int): (row: int)
    ensures v == A.Top ==> row == m.top
    ensures v == A.Bottom ==> row + count == r.height - m.bottom
    ensures v == A.VCenter ==>
              var above := row - m.top;
              var below := (r.height - m.bottom) - (row + count);
              above <= below <= above + 1
  {
    match v
    case Top => m.top
    case VCenter => m.top + Half(SlideHeight(r, m) - count)
    case Bottom => m.top + (SlideHeight(r, m) - count)
  }

  /** Renderer#max_line_length: the longest visible line; nil for no lines */
  function MaxLength(visible: Visible, lines: seq<string>): (n: Option<nat>)
    ensures n.None? <==> lines == []
    ensures n.Some? ==> forall i :: 0 <= i < |lines| ==> visible(lines[i]) <= n.value
    ensures n.Some? ==> exists i :: 0 <= i < |lines| && visible(lines[i]) == n.value
    decreases |lines|
  {
    if lines == [] then None
    else
      match MaxLength(visible, lines[1..])
      case None => Some(visible(lines[0]))
      case Some(m) =>
        assert forall i :: 1 <= i < |lines| ==> lines[i] == lines[1..][i - 1];
        Some(if visible(lines[0]) >= m then visible(lines[0]) else m)
  }

  // ---------------------------------------------------------------------------
  // Sections
  // ---------------------------------------------------------------------------

  /** Each line after a move to its place */
  function Placed(lines: seq<string>, col: int, row: int): (out: seq<Action>)
    ensures |out| == 2 * |lines|
    decreases |lines|
  {
    if lines == [] then [] else [MoveTo(col, row), Write(lines[0])] + Placed(lines[1..], col, row + 1)
  }

  /** Line i is written after a move to the section's column, i rows below its top row */
  lemma {:induction false} PlacedAt(lines: seq<string>, col: int, row: int, i: nat)
    requires i < |lines|
    ensures Placed(lines, col, row)[2 * i] == MoveTo(col, row + i)
    ensures Placed(lines, col, row)[2 * i + 1] == Write(lines[i])
    decreases i
  {
    if i > 0 {
      var rest := Placed(lines[1..], col, row + 1);
      PlacedAt(lines[1..], col, row + 1, i - 1);
      assert Placed(lines, col, row) == [MoveTo(col, row), Write(lines[0])] + rest;
      assert lines[1..][i - 1] == lines[i];
    }
  }

  /** The text the actions write, in order */
  function Written(out: seq<Action>): string
    decreases |out|
  {
    if out == [] then ""
    else (if out[0].Write? then out[0].text else "") + Written(out[1..])
  }

  lemma {:induction false} WrittenAppend(a: seq<Action>, b: seq<Action>)
    ensures Written(a + b) == Written(a) + Written(b)
    decreases |a|
  {
    if a != [] {
      assert (a + b)[1..] == a[1..] + b;
      WrittenAppend(a[1..], b);
    } else {
      assert a + b == b;
    }
  }

  /** The placed lines write exactly the lines, in order */
  lemma {:induction false} PlacedWritesLines(lines: seq<string>, col: int, row: int)
    ensures Written(Placed(lines, col, row)) == Concat(lines)
    decreases |lines|
  {
    if lines != [] {
      var rest := Placed(lines[1..], col, row + 1);
      PlacedWritesLines(lines[1..], col, row + 1);
      var head := [MoveTo(col, row), Write(lines[0])];
      WrittenAppend(head, rest);
      assert Written(head) == lines[0] by {
        assert head[1..] == [Write(lines[0])];
        assert head[1..][1..] == [];
      }
    }
  }

  /**
   * Renderer#render_section: every line at the section's column, on
   * consecutive rows from its top row. Without lines the maximum length is
   * nil, which only a left alignment never uses.
   */
  function RenderSection(r: Renderer, lines: seq<string>, al: A.Alignment, m: M.Margin): (out: Result<seq<Action>, RenderError>)
    ensures out.Failure? <==> lines == [] && al.horizontal != A.Left
    ensures out.Failure? ==> out.error == NoLines
    ensures out.Success? ==>
              var col := if lines == [] then m.left else LeftColumn(r, al.horizontal, m, MaxLength(r.visible, lines).value);
              var row := TopRow(r, al.vertical, m, |lines|);
              out.value == Placed(lines, col, row)
  {
    var top := TopRow(r, al.vertical, m, |lines|);
    match MaxLength(r.visible, lines)
    case None => if al.horizontal == A.Left then Success([]) else Failure(NoLines)
    case Some(length) => Success(Placed(lines, LeftColumn(r, al.horizontal, m, length), top))
  }

  /** A rendered section writes the converted text, unchanged */
  lemma {:induction false} SectionWritesText(r: Renderer, text: string, al: A.Alignment, m: M.Margin)
    requires RenderSection(r, Lines(text), al, m).Success?
    ensures Written(RenderSection(r, Lines(text), al, m).value) == text
  {
    LinesConcat(text);
    var lines := Lines(text);
    if lines != [] {
      var col := LeftColumn(r, al.horizontal, m, MaxLength(r.visible, lines).value);
      PlacedWritesLines(lines, col, TopRow(r, al.vertical, m, |lines|));
    }
  }

  // ---------------------------------------------------------------------------
  // The pager's template
  // ---------------------------------------------------------------------------

  predicate StartsWith(s: string, prefix: string) {
    |prefix| <= |s| && s[..|prefix|] == prefix
  }

  /**
   * Kernel#format with the named references page and total, as %<name>d
   * or %<name>s, and %% for a percent sign; other directives are left out.
   */
  function Format(template: string, page: int, total: int): (r: Result<string, RenderError>)
    ensures r.Failure? ==> r.error.UnsupportedFormat? && r.error.template != "" && r.error.template[0] == '%'
    ensures r.Failure? ==> !StartsWith(r.error.template, "%%")
    decreases |template|
  {
    if template == "" then Success("")
    else if template[0] != '%' then
      var rest :- Format(template[1..], page, total);
      Success([template[0]] + rest)
    else if StartsWith(template, "%%") then
      var rest :- Format(template[2..], page, total);
      Success("%" + rest)
    else if StartsWith(template, "%<page>d") || StartsWith(template, "%<page>s") then
      var rest :- Format(template[8..], page, total);
      Success(IntToString(page) + rest)
    else if StartsWith(template, "%<total>d") || StartsWith(template, "%<total>s") then
      var rest :- Format(template[9..], page, total);
      Success(IntToString(total) + rest)
    else Failure(UnsupportedFormat(template))
  }

  predicate NoPercent(s: string) { forall i :: 0 <= i < |s| ==> s[i] != '%' }

  /** A template without directives is the text itself */
  lemma {:induction false} FormatPlain(s: string, page: int, total: int)
    requires NoPercent(s)
    ensures Format(s, page, total) == Success(s)
    decreases |s|
  {
    if s != "" {
      FormatPlain(s[1..], page, total);
      assert s == [s[0]] + s[1..];
    }
  }

  /** A page reference, then a template */
  lemma {:induction false} FormatPage(rest: string, page: int, total: int)
    ensures Format("%<page>d" + rest, page, total).Success? <==> Format(rest, page, total).Success?
    ensures Format(rest, page, total).Success? ==>
              Format("%<page>d" + rest, page, total).value == IntToString(page) + Format(rest, page, total).value
  {
    var t := "%<page>d" + rest;
    assert t[0] == '%' && t[1] == '<';
    assert !StartsWith(t, "%%") by { assert t[..2][1] == '<'; }
    assert t[..8] == "%<page>d";
    assert t[8..] == rest;
  }

  /** A total reference, then a template */
  lemma {:induction false} FormatTotal(rest: string, page: int, total: int)
    ensures Format("%<total>d" + rest, page, total).Success? <==> Format(rest, page, total).Success?
    ensures Format(rest, page, total).Success? ==>
              Format("%<total>d" + rest, page, total).value == IntToString(total) + Format(rest, page, total).value
  {
    var t := "%<total>d" + rest;
    assert t[0] == '%' && t[1] == '<' && t[2] == 't';
    assert !StartsWith(t, "%%") by { assert t[..2][1] == '<'; }
    assert !StartsWith(t, "%<page>d") && !StartsWith(t, "%<page>s") by { assert t[..8][2] == 't'; }
    assert t[..9] == "%<total>d";
    assert t[9..] == rest;
  }

  /** The default pager reads "page / total" */
  lemma {:induction false} DefaultPagerText(page: int, total: int)
    ensures Format("%<page>d / %<total>d", page, total) == Success(IntToString(page) + " / " + IntToString(total))
  {
    SlashTotal(page, total);
    FormatPage(" / %<total>d", page, total);
    PagerTemplateParts();
    assert IntToString(page) + (" / " + IntToString(total)) == IntToString(page) + " / " + IntToString(total);
  }

  /** The default pager template, taken apart at its directives */
  lemma PagerTemplateParts()
    ensures "%<page>d" + " / %<total>d" == "%<page>d / %<total>d"
    ensures " / " + "%<total>d" == " / %<total>d"
    ensures "%<total>d" + "" == "%<total>d"
  {
  }

  lemma {:induction false} SlashTotal(page: int, total: int)
    ensures Format(" / %<total>d", page, total) == Success(" / " + IntToString(total))
  {
    TotalAlone(page, total);
    FormatPlainThen(" / ", "%<total>d", page, total);
    PagerTemplateParts();
  }

  lemma {:induction false} TotalAlone(page: int, total: int)
    ensures Format("%<total>d", page, total) == Success(IntToString(total))
  {
    FormatPlain("", page, total);
    FormatTotal("", page, total);
    PagerTemplateParts();
    assert IntToString(total) + "" == IntToString(total);
  }

  /** Plain text in front of a template is copied */
  lemma {:induction false} FormatPlainThen(s: string, rest: string, page: int, total: int)
    requires NoPercent(s)
    ensures Format(s + rest, page, total).Success? <==> Format(rest, page, total).Success?
    ensures Format(rest, page, total).Success? ==> Format(s + rest, page, total).value == s + Format(rest, page, total).value
    decreases |s|
  {
    if s != "" {
      var t := s + rest;
      assert t[0] == s[0] && t[1..] == s[1..] + rest;
      FormatPlainThen(s[1..], rest, page, total);
      if Format(rest, page, total).Success? {
        assert [s[0]] + (s[1..] + Format(rest, page, total).value) == s + Format(rest, page, total).value;
      }
    } else {
      assert s + rest == rest;
    }
  }

  // ---------------------------------------------------------------------------
  // Content, footer and pager
  // ---------------------------------------------------------------------------

  /** The content alignment the slide or else the deck sets */
  function PickedAlignment(global: MD.Metadata, slide: Option<MD.Metadata>): (al: A.Alignment)
    requires Ready(global, slide)
    ensures slide.Some? && slide.value.Get(AlignKey).AlignValue? ==> al == slide.value.Get(AlignKey).alignment
    ensures slide.None? || slide.value.Get(AlignKey) == NilValue ==> al == global.Get(AlignKey).alignment
  {
    PickShape(global, slide, AlignKey);
    Pick(global, slide, AlignKey).alignment
  }

  /** The margin the slide or else the deck sets */
  function PickedMargin(global: MD.Metadata, slide: Option<MD.Metadata>): (m: M.Margin)
    requires Ready(global, slide)
    ensures slide.Some? && slide.value.Get(MarginKey).MarginValue? ==> m == slide.value.Get(MarginKey).margin
    ensures slide.None? || slide.value.Get(MarginKey) == NilValue ==> m == global.Get(MarginKey).margin
  {
    PickShape(global, slide, MarginKey);
    Pick(global, slide, MarginKey).margin
  }

  /** The footer or pager the slide or else the deck sets */
  function PickedSection(global: MD.Metadata, slide: Option<MD.Metadata>, k: MetaKey): (section: Section)
    requires Ready(global, slide) && (k == FooterKey || k == PagerKey)
    ensures slide.Some? && slide.value.Get(k).SectionValue? ==> section == slide.value.Get(k).section
    ensures slide.None? || slide.value.Get(k) == NilValue ==> section == global.Get(k).section
  {
    PickShape(global, slide, k);
    Pick(global, slide, k).section
  }

  /**
   * The alignment of a footer or pager: the picked section's own, or else
   * the deck's footer or pager alignment, so that a slide's section without
   * :align takes the deck's.
   */
  function BottomAlignment(global: MD.Metadata, slide: Option<MD.Metadata>, k: MetaKey): (al: A.Alignment)
    requires Ready(global, slide) && (k == FooterKey || k == PagerKey)
    ensures PickedSection(global, slide, k).align.Some? ==> al == PickedSection(global, slide, k).align.value
    ensures PickedSection(global, slide, k).align.None? ==> al == global.Get(k).section.align.value
    ensures slide.Some? && slide.value.Get(k).SectionValue? && slide.value.Get(k).section.align.None? ==>
              al == global.Get(k).section.align.value
  {
    var section := PickedSection(global, slide, k);
    if section.align.Some? then section.align.value else global.Get(k).section.align.value
  }

  /** The slide's content as the converter renders it, at the width the picked margin leaves */
  function ContentText(r: Renderer, global: MD.Metadata, slide: MW.Slide): string
    requires Ready(global, Some(slide.metadata))
  {
    var md := Some(slide.metadata);
    r.convert(slide.content, Pick(global, md, SymbolsKey), Pick(global, md, ThemeKey), SlideWidth(r, PickedMargin(global, md)))
  }

  /**
   * Renderer#render_content: the converted content, not chomped, laid out
   * at the slide's alignment and margin, or else the deck's; what it
   * writes is exactly the converted content.
   */
  function RenderContent(r: Renderer, global: MD.Metadata, slide: MW.Slide): (out: Result<seq<Action>, RenderError>)
    requires Ready(global, Some(slide.metadata))
    ensures out == RenderSection(r, Lines(ContentText(r, global, slide)),
                                 PickedAlignment(global, Some(slide.metadata)), PickedMargin(global, Some(slide.metadata)))
    ensures out.Success? ==> Written(out.value) == ContentText(r, global, slide)
  {
    var md := Some(slide.metadata);
    var text := ContentText(r, global, slide);
    var out := RenderSection(r, Lines(text), PickedAlignment(global, md), PickedMargin(global, md));
    if out.Success? then
      SectionWritesText(r, text, PickedAlignment(global, md), PickedMargin(global, md));
      out
    else out
  }

  /** The text of a footer or pager: None for an empty one, which is not rendered */
  function SectionText(section: Section): (t: Result<Option<string>, RenderError>)
    ensures section.text == Some(Str("")) ==> t == Success(None)
    ensures (exists s :: s != "" && section.text == Some(Str(s))) ==> t == Success(Some(section.text.value.s))
    ensures section.text.None? || section.text == Some(Nil) ==> t == Failure(NoText)
    ensures section.text == Some(Sym("")) ==> t == Success(None)
  {
    match section.text
    case None => Failure(NoText)
    case Some(v) =>
      match v
      case Nil => Failure(NoText)
      case Str(s) => Success(if s == "" then None else Some(s))
      case Sym(name) => if name == "" then Success(None) else Failure(NotAString(v))
      case Arr(items) => if items == [] then Success(None) else Failure(NotAString(v))
      case Hash(pairs) => if pairs == [] then Success(None) else Failure(NotAString(v))
      case _ => Failure(NotAString(v))
  }

  /** A footer's or pager's text as the converter renders it, chomped */
  function BottomText(r: Renderer, global: MD.Metadata, slide: Option<MD.Metadata>, text: string): string
    requires Ready(global, slide)
  {
    var m := PickedMargin(global, slide);
    Chomp(r.convert(Str(text), Pick(global, slide, SymbolsKey), Pick(global, slide, ThemeKey), SlideWidth(r, m)))
  }

  /**
   * A footer or pager: the text, converted and chomped, at the section's
   * own alignment or else the deck's, and the picked margin; what it
   * writes is exactly that text.
   */
  function RenderBottom(r: Renderer, global: MD.Metadata, slide: Option<MD.Metadata>, k: MetaKey, text: string): (out: Result<seq<Action>, RenderError>)
    requires Ready(global, slide) && (k == FooterKey || k == PagerKey)
    ensures out == RenderSection(r, Lines(BottomText(r, global, slide, text)), BottomAlignment(global, slide, k), PickedMargin(global, slide))
    ensures out.Success? ==> Written(out.value) == BottomText(r, global, slide, text)
  {
    var t := BottomText(r, global, slide, text);
    var al := BottomAlignment(global, slide, k);
    var out := RenderSection(r, Lines(t), al, PickedMargin(global, slide));
    if out.Success? then
      SectionWritesText(r, t, al, PickedMargin(global, slide));
      out
    else out
  }

  /**
   * Renderer#render_footer: nothing when the picked footer's text is
   * empty, the footer laid out by RenderBottom when it is a non-empty
   * string, and nil.empty? raising when it has no text.
   */
  function RenderFooter(r: Renderer, global: MD.Metadata, slide: Option<MD.Metadata>): (out: Result<seq<Action>, RenderError>)
    requires Ready(global, slide)
    ensures PickedSection(global, slide, FooterKey).text == Some(Str("")) ==> out == Success([])
    ensures PickedSection(global, slide, FooterKey).text.None? ==> out == Failure(NoText)
    ensures var t := PickedSection(global, slide, FooterKey).text;
            t.Some? && t.value.Str? && t.value.s != "" ==> out == RenderBottom(r, global, slide, FooterKey, t.value.s)
  {
    var text :- SectionText(PickedSection(global, slide, FooterKey));
    if text.None? then Success([]) else RenderBottom(r, global, slide, FooterKey, text.value)
  }

  /**
   * Renderer#render_pager: nothing when the picked pager's text is empty;
   * a non-empty string is filled with the page number and the total and
   * laid out by RenderBottom; a template the model does not cover, or no
   * text, raises.
   */
  function RenderPager(r: Renderer, global: MD.Metadata, slide: Option<MD.Metadata>, page: int, total: int): (out: Result<seq<Action>, RenderError>)
    requires Ready(global, slide)
    ensures PickedSection(global, slide, PagerKey).text == Some(Str("")) ==> out == Success([])
    ensures PickedSection(global, slide, PagerKey).text.None? ==> out == Failure(NoText)
    ensures var t := PickedSection(global, slide, PagerKey).text;
            t.Some? && t.value.Str? && t.value.s != "" ==>
              match Format(t.value.s, page, total)
              case Failure(e) => out == Failure(e)
              case Success(formatted) => out == RenderBottom(r, global, slide, PagerKey, formatted)
  {
    var text :- SectionText(PickedSection(global, slide, PagerKey));
    if text.None? then Success([])
    else
      var formatted :- Format(text.value, page, total);
      RenderBottom(r, global, slide, PagerKey, formatted)
  }

  function SlideMetadata(slide: Option<MW.Slide>): Option<MD.Metadata> {
    if slide.Some? then Some(slide.value.metadata) else None
  }

  /**
   * Renderer#render: the slide's content when there is a slide, then the
   * footer, then the pager; the first part that raises decides the error.
   */
  function Render(r: Renderer, global: MD.Metadata, slide: Option<MW.Slide>, page: int, total: int): (out: Result<seq<Action>, RenderError>)
    requires Ready(global, SlideMetadata(slide))
    ensures out.Success? <==>
              && (slide.Some? ==> RenderContent(r, global, slide.value).Success?)
              && RenderFooter(r, global, SlideMetadata(slide)).Success?
              && RenderPager(r, global, SlideMetadata(slide), page, total).Success?
    ensures out.Success? ==>
              out.value == (if slide.Some? then RenderContent(r, global, slide.value).value else [])
                           + RenderFooter(r, global, SlideMetadata(slide)).value
                           + RenderPager(r, global, SlideMetadata(slide), page, total).value
  {
    var md := SlideMetadata(slide);
    Assemble(if slide.Some? then RenderContent(r, global, slide.value) else Success([]),
             RenderFooter(r, global, md),
             RenderPager(r, global, md, page, total))
  }

  /** The three parts in order; the first that failed decides the error */
  function Assemble(content: Result<seq<Action>, RenderError>, footer: Result<seq<Action>, RenderError>, pager: Result<seq<Action>, RenderError>): (out: Result<seq<Action>, RenderError>)
    ensures out.Success? <==> content.Success? && footer.Success? && pager.Success?
    ensures out.Success? ==> out.value == content.value + footer.value + pager.value
    ensures content.Failure? ==> out == Failure(content.error)
    ensures content.Success? && footer.Failure? ==> out == Failure(footer.error)
    ensures content.Success? && footer.Success? && pager.Failure? ==> out == Failure(pager.error)
  {
    if content.Failure? then Failure(content.error)
    else if footer.Failure? then Failure(footer.error)
    else if pager.Failure? then Failure(pager.error)
    else Success(content.value + footer.value + pager.value)
  }

  // ---------------------------------------------------------------------------
  // Properties
  // ---------------------------------------------------------------------------

  /** A footer or pager the slide sets to "" is not rendered, whatever the deck says */
  lemma SlideEmptyTextSuppresses(r: Renderer, global: MD.Metadata, slide: MD.Metadata, page: int, total: int)
    requires Ready(global, Some(slide))
    ensures slide.Get(FooterKey).SectionValue? && slide.Get(FooterKey).section.text == Some(Str("")) ==>
              RenderFooter(r, global, Some(slide)) == Success([])
    ensures slide.Get(PagerKey).SectionValue? && slide.Get(PagerKey).section.text == Some(Str("")) ==>
              RenderPager(r, global, Some(slide), page, total) == Success([])
  {
  }

  /** A footer or pager the deck sets to "" is not rendered on a slide that does not set its own */
  lemma DeckEmptyTextSuppresses(r: Renderer, global: MD.Metadata, slide: Option<MD.Metadata>, page: int, total: int)
    requires Ready(global, slide)
    ensures (slide.None? || slide.value.Get(FooterKey) == NilValue) && global.Get(FooterKey).section.text == Some(Str("")) ==>
              RenderFooter(r, global, slide) == Success([])
    ensures (slide.None? || slide.value.Get(PagerKey) == NilValue) && global.Get(PagerKey).section.text == Some(Str("")) ==>
              RenderPager(r, global, slide, page, total) == Success([])
  {
  }

  /** A slide's footer or pager without :align is laid out at the deck's footer or pager alignment */
  lemma SlideSectionTakesDeckAlign(r: Renderer, global: MD.Metadata, slide: MD.Metadata, k: MetaKey, text: string)
    requires Ready(global, Some(slide)) && (k == FooterKey || k == PagerKey)
    requires slide.Get(k).SectionValue? && slide.Get(k).section.align.None?
    ensures RenderBottom(r, global, Some(slide), k, text) ==
              RenderSection(r, Lines(BottomText(r, global, Some(slide), text)), global.Get(k).section.align.value, PickedMargin(global, Some(slide)))
  {
  }

  /** Deck metadata as the examples build it: the defaults with the given content alignment and footer text */
  predicate ExampleDeck(g: MD.Metadata, al: A.Alignment, footer: string) {
    && g.Get(AlignKey) == AlignValue(al)
    && g.Get(FooterKey) == SectionValue(Section(Some(A.Alignment(A.Left, A.Bottom)), Some(Str(footer)), map[]))
    && g.Get(MarginKey) == MarginValue(M.Margin(0, 0, 0, 0))
    && g.Get(PagerKey) == SectionValue(Section(Some(A.Alignment(A.Right, A.Bottom)), Some(Str("%<page>d / %<total>d")), map[]))
    && g.Get(SymbolsKey) == NilValue
    && g.Get(ThemeKey) == NilValue
  }

  /** A converter and sanitiser that behave as the markdown converter does on the example texts, on a 20 by 8 screen */
  predicate ExampleScreen(r: Renderer) {
    && r.width == 20 && r.height == 8
    && r.convert(Str("content"), NilValue, NilValue, 20) == "content\n" && r.visible("content\n") == 8
    && r.convert(Str("1 / 4"), NilValue, NilValue, 20) == "1 / 4\n" && r.visible("1 / 4") == 5
    && r.convert(Str("0 / 0"), NilValue, NilValue, 20) == "0 / 0\n" && r.visible("0 / 0") == 5
  }

  /** The default deck metadata is an example deck, left and top aligned with an empty footer */
  lemma {:induction false} DefaultsAreExampleDeck()
    ensures ExampleDeck(MD.Metadata(MetadataDefaults.StandardFields()), A.Alignment(A.Left, A.Top), "")
  {
    MetadataDefaults.StandardGet();
  }


  /** With no slide or a slide without metadata, the example deck is ready and every value comes from it */
  lemma {:induction false} ExampleReady(g: MD.Metadata, al: A.Alignment, footer: string, slide: Option<MD.Metadata>)
    requires ExampleDeck(g, al, footer) && (slide == None || slide == Some(MD.Metadata([])))
    ensures Ready(g, slide)
    ensures Pick(g, slide, AlignKey) == AlignValue(al)
    ensures Pick(g, slide, FooterKey) == g.Get(FooterKey) && Pick(g, slide, PagerKey) == g.Get(PagerKey)
    ensures Pick(g, slide, SymbolsKey) == NilValue && Pick(g, slide, ThemeKey) == NilValue
    ensures PickedMargin(g, slide) == M.Margin(0, 0, 0, 0)
  {
  }

  /** A one-line text is one line, placed at the alignment's column and row */
  lemma {:induction false} OneLineSection(r: Renderer, line: string, al: A.Alignment, m: M.Margin)
    requires IsLine(line)
    ensures RenderSection(r, Lines(line), al, m) ==
              Success([MoveTo(LeftColumn(r, al.horizontal, m, r.visible(line)), TopRow(r, al.vertical, m, 1)), Write(line)])
  {
    LinesOfLine(line);
    assert [line][1..] == [];
    assert MaxLength(r.visible, [line]) == Some(r.visible(line));
    var col := LeftColumn(r, al.horizontal, m, r.visible(line));
    var row := TopRow(r, al.vertical, m, 1);
    assert Placed([line], col, row) == [MoveTo(col, row), Write(line)] + Placed([], col, row + 1);
    assert [MoveTo(col, row), Write(line)] + [] == [MoveTo(col, row), Write(line)];
    assert RenderSection(r, [line], al, m) == Success(Placed([line], col, row));
  }

  /** A slide's one-line content on the example deck: at the deck's alignment, with the full screen width */
  lemma {:induction false} ContentLine(r: Renderer, g: MD.Metadata, al: A.Alignment, content: Value, line: string)
    requires ExampleScreen(r) && ExampleDeck(g, al, "")
    requires r.convert(content, NilValue, NilValue, 20) == line && IsLine(line)
    ensures Ready(g, Some(MD.Metadata([])))
    ensures RenderContent(r, g, MW.Slide(content, MD.Metadata([]))) ==
              Success([MoveTo(LeftColumn(r, al.horizontal, M.Margin(0, 0, 0, 0), r.visible(line)), TopRow(r, al.vertical, M.Margin(0, 0, 0, 0), 1)),
                       Write(line)])
  {
    var md := Some(MD.Metadata([]));
    var m := M.Margin(0, 0, 0, 0);
    ExampleReady(g, al, "", md);
    assert SlideWidth(r, m) == 20;
    var converted := r.convert(content, Pick(g, md, SymbolsKey), Pick(g, md, ThemeKey), SlideWidth(r, m));
    assert converted == line;
    assert RenderContent(r, g, MW.Slide(content, MD.Metadata([]))) == RenderSection(r, Lines(line), al, m);
    OneLineSection(r, line, al, m);
  }

  /** The pager of the example deck, once its template is filled with a one-line text */
  lemma {:induction false} PagerLine(r: Renderer, g: MD.Metadata, al: A.Alignment, slide: Option<MD.Metadata>, page: int, total: int, text: string)
    requires ExampleScreen(r) && ExampleDeck(g, al, "") && (slide == None || slide == Some(MD.Metadata([])))
    requires Format("%<page>d / %<total>d", page, total) == Success(text)
    requires r.convert(Str(text), NilValue, NilValue, 20) == text + "\n" && IsLine(text) && text[|text| - 1] != '\r'
    ensures Ready(g, slide)
    ensures RenderPager(r, g, slide, page, total) ==
              Success([MoveTo(20 - r.visible(text), 7), Write(text)])
  {
    PagerSection(r, g, al, slide, page, total, text);
    BottomRightLine(r, text);
  }

  /** The example deck's pager is its filled template as one section at the bottom right */
  lemma {:induction false} PagerSection(r: Renderer, g: MD.Metadata, al: A.Alignment, slide: Option<MD.Metadata>, page: int, total: int, text: string)
    requires ExampleScreen(r) && ExampleDeck(g, al, "") && (slide == None || slide == Some(MD.Metadata([])))
    requires Format("%<page>d / %<total>d", page, total) == Success(text)
    requires r.convert(Str(text), NilValue, NilValue, 20) == text + "\n" && text != "" && text[|text| - 1] != '\r'
    ensures Ready(g, slide)
    ensures RenderPager(r, g, slide, page, total) ==
              RenderSection(r, Lines(text), A.Alignment(A.Right, A.Bottom), M.Margin(0, 0, 0, 0))
  {
    var m := M.Margin(0, 0, 0, 0);
    ExampleReady(g, al, "", slide);
    var section := Pick(g, slide, PagerKey).section;
    assert SectionText(section) == Success(Some("%<page>d / %<total>d"));
    ChompNewline(text);
    assert SlideWidth(r, m) == 20;
    assert BottomText(r, g, slide, text) == text;
  }

  /** A one-line text at the bottom right of the example screen */
  lemma {:induction false} BottomRightLine(r: Renderer, line: string)
    requires ExampleScreen(r) && IsLine(line)
    ensures RenderSection(r, Lines(line), A.Alignment(A.Right, A.Bottom), M.Margin(0, 0, 0, 0)) ==
              Success([MoveTo(20 - r.visible(line), 7), Write(line)])
  {
    OneLineSection(r, line, A.Alignment(A.Right, A.Bottom), M.Margin(0, 0, 0, 0));
  }

  /** The footer of the example deck with an empty text is not rendered */
  lemma {:induction false} NoFooter(r: Renderer, g: MD.Metadata, al: A.Alignment, slide: Option<MD.Metadata>)
    requires ExampleDeck(g, al, "") && (slide == None || slide == Some(MD.Metadata([])))
    ensures Ready(g, slide)
    ensures RenderFooter(r, g, slide) == Success([])
  {
    ExampleReady(g, al, "", slide);
    assert SectionText(Pick(g, slide, FooterKey).section) == Success(None);
  }

  /** "page / total" is one line */
  lemma {:induction false} PageTextLine(page: int, total: int)
    ensures var text := IntToString(page) + " / " + IntToString(total);
              IsLine(text) && text[|text| - 1] != '\r'
  {
    var text := IntToString(page) + " / " + IntToString(total);
    var t := IntToString(total);
    assert NoNewline(IntToString(page)) && NoNewline(t);
    assert text == IntToString(page) + (" / " + t);
    assert text[|text| - 1] == t[|t| - 1];
  }

  predicate NoNewline(s: string) { forall i :: 0 <= i < |s| ==> s[i] != '\n' }

  /** The pager texts of the examples */
  lemma {:induction false} ExamplePageTexts()
    ensures IntToString(1) + " / " + IntToString(4) == "1 / 4"
    ensures IntToString(0) + " / " + IntToString(0) == "0 / 0"
  {
    assert NatToString(1) == "1" && NatToString(4) == "4" && NatToString(0) == "0";
  }

  lemma {:induction false} ContentIsLine()
    ensures IsLine("content\n")
  {
  }

  /** Where an eight-column line goes on the example screen, for each alignment */
  lemma {:induction false} ContentPlace(r: Renderer, h: A.Horizontal, v: A.Vertical)
    requires r.width == 20 && r.height == 8
    ensures LeftColumn(r, h, M.Margin(0, 0, 0, 0), 8) == ExampleColumn(h)
    ensures TopRow(r, v, M.Margin(0, 0, 0, 0), 1) == ExampleRow(v)
  {
  }

  /** The columns and rows of the table of content alignments in spec/unit/renderer_spec.rb */
  function ExampleColumn(h: A.Horizontal): int {
    match h case Left => 0 case HCenter => 6 case Right => 12
  }

  function ExampleRow(v: A.Vertical): int {
    match v case Top => 0 case VCenter => 3 case Bottom => 7
  }

  /**
   * The table of content alignments in spec/unit/renderer_spec.rb: "content"
   * (eight columns with its newline) on a 20 by 8 screen, with the default
   * pager for slide 1 of 4.
   */
  lemma {:induction false} ContentAtAlignment(r: Renderer, g: MD.Metadata, h: A.Horizontal, v: A.Vertical)
    requires ExampleScreen(r) && ExampleDeck(g, A.Alignment(h, v), "")
    ensures Ready(g, Some(MD.Metadata([])))
    ensures Render(r, g, Some(MW.Slide(Str("content"), MD.Metadata([]))), 1, 4) ==
              Success([MoveTo(ExampleColumn(h), ExampleRow(v)), Write("content\n"), MoveTo(15, 7), Write("1 / 4")])
  {
    var content := [MoveTo(ExampleColumn(h), ExampleRow(v)), Write("content\n")];
    var pager := [MoveTo(15, 7), Write("1 / 4")];
    ContentAt(r, g, h, v);
    FirstOfFourChrome(r, g, A.Alignment(h, v));
    RenderOfParts(r, g, MW.Slide(Str("content"), MD.Metadata([])), 1, 4, content, pager);
    PairThenPair(MoveTo(ExampleColumn(h), ExampleRow(v)), Write("content\n"), MoveTo(15, 7), Write("1 / 4"));
  }

  lemma PairThenPair(a: Action, b: Action, c: Action, d: Action)
    ensures [a, b] + [c, d] == [a, b, c, d]
  {
  }

  /** On the example deck, slide 1 of 4 has no footer and the pager "1 / 4" in the bottom right corner */
  lemma {:induction false} FirstOfFourChrome(r: Renderer, g: MD.Metadata, al: A.Alignment)
    requires ExampleScreen(r) && ExampleDeck(g, al, "")
    ensures Ready(g, Some(MD.Metadata([])))
    ensures RenderFooter(r, g, Some(MD.Metadata([]))) == Success([])
    ensures RenderPager(r, g, Some(MD.Metadata([])), 1, 4) == Success([MoveTo(15, 7), Write("1 / 4")])
  {
    var md := Some(MD.Metadata([]));
    ExamplePageTexts();
    ExamplePager(r, g, al, md, 1, 4, "1 / 4");
    NoFooter(r, g, al, md);
  }

  /** A render of a slide without a footer is the slide's content followed by the pager */
  lemma {:induction false} RenderOfParts(r: Renderer, g: MD.Metadata, slide: MW.Slide, page: int, total: int, content: seq<Action>, pager: seq<Action>)
    requires Ready(g, Some(slide.metadata))
    requires RenderContent(r, g, slide) == Success(content)
    requires RenderFooter(r, g, Some(slide.metadata)) == Success([])
    requires RenderPager(r, g, Some(slide.metadata), page, total) == Success(pager)
    ensures Render(r, g, Some(slide), page, total) == Success(content + pager)
  {
    RenderIsAssembled(r, g, slide, page, total);
    AssembleWithoutFooter(RenderContent(r, g, slide), RenderFooter(r, g, Some(slide.metadata)), RenderPager(r, g, Some(slide.metadata), page, total));
  }

  lemma AssembleWithoutFooter(content: Result<seq<Action>, RenderError>, footer: Result<seq<Action>, RenderError>, pager: Result<seq<Action>, RenderError>)
    requires content.Success? && footer == Success([]) && pager.Success?
    ensures Assemble(content, footer, pager) == Success(content.value + pager.value)
  {
    assert content.value + [] + pager.value == content.value + pager.value;
  }

  lemma RenderIsAssembled(r: Renderer, g: MD.Metadata, slide: MW.Slide, page: int, total: int)
    requires Ready(g, Some(slide.metadata))
    ensures Render(r, g, Some(slide), page, total) ==
              Assemble(RenderContent(r, g, slide), RenderFooter(r, g, Some(slide.metadata)), RenderPager(r, g, Some(slide.metadata), page, total))
  {
  }

  /** A render without a slide and without a footer is the pager alone */
  lemma {:induction false} RenderOfPager(r: Renderer, g: MD.Metadata, page: int, total: int, pager: seq<Action>)
    requires Ready(g, None)
    requires RenderFooter(r, g, None) == Success([])
    requires RenderPager(r, g, None, page, total) == Success(pager)
    ensures Render(r, g, None, page, total) == Success(pager)
  {
    var out := Render(r, g, None, page, total);
    assert out.value == [] + [] + pager;
    assert [] + [] + pager == pager;
  }

  /** The example slide's content at each alignment of the example deck */
  lemma {:induction false} ContentAt(r: Renderer, g: MD.Metadata, h: A.Horizontal, v: A.Vertical)
    requires ExampleScreen(r) && ExampleDeck(g, A.Alignment(h, v), "")
    ensures Ready(g, Some(MD.Metadata([])))
    ensures RenderContent(r, g, MW.Slide(Str("content"), MD.Metadata([]))) == Success([MoveTo(ExampleColumn(h), ExampleRow(v)), Write("content\n")])
  {
    ContentIsLine();
    ContentLine(r, g, A.Alignment(h, v), Str("content"), "content\n");
    ContentPlace(r, h, v);
  }

  /** The default pager on the example screen, for the slide numbers that give the text */
  lemma {:induction false} ExamplePager(r: Renderer, g: MD.Metadata, al: A.Alignment, slide: Option<MD.Metadata>, page: nat, total: nat, text: string)
    requires ExampleScreen(r) && ExampleDeck(g, al, "") && (slide == None || slide == Some(MD.Metadata([])))
    requires IntToString(page) + " / " + IntToString(total) == text
    requires text == "1 / 4" || text == "0 / 0"
    ensures Ready(g, slide)
    ensures RenderPager(r, g, slide, page, total) == Success([MoveTo(15, 7), Write(text)])
  {
    DefaultPagerText(page, total);
    ExamplePagerText(r, page, total, text);
    PagerLine(r, g, al, slide, page, total, text);
  }

  /** The example pager texts are single five-column lines that the converter passes through */
  lemma {:induction false} ExamplePagerText(r: Renderer, page: int, total: int, text: string)
    requires ExampleScreen(r)
    requires IntToString(page) + " / " + IntToString(total) == text
    requires text == "1 / 4" || text == "0 / 0"
    ensures r.convert(Str(text), NilValue, NilValue, 20) == text + "\n" && IsLine(text) && text[|text| - 1] != '\r'
    ensures r.visible(text) == 5
  {
    PageTextLine(page, total);
  }

  /** With no slide, the example deck shows only the pager */
  lemma {:induction false} PagerOnly(r: Renderer, g: MD.Metadata, al: A.Alignment)
    requires ExampleScreen(r) && ExampleDeck(g, al, "")
    ensures Ready(g, None)
    ensures Render(r, g, None, 0, 0) == Success([MoveTo(15, 7), Write("0 / 0")])
  {
    ExamplePageTexts();
    ExamplePager(r, g, al, None, 0, 0, "0 / 0");
    NoFooter(r, g, al, None);
    RenderOfPager(r, g, 0, 0, [MoveTo(15, 7), Write("0 / 0")]);
  }

  /** "renders page number without slide content": the default deck with no slide shows only "0 / 0" */
  lemma {:induction false} PageNumberOnly(r: Renderer)
    requires ExampleScreen(r)
    ensures Ready(MD.Metadata(MetadataDefaults.StandardFields()), None)
    ensures Render(r, MD.Metadata(MetadataDefaults.StandardFields()), None, 0, 0) == Success([MoveTo(15, 7), Write("0 / 0")])
  {
    DefaultsAreExampleDeck();
    PagerOnly(r, MD.Metadata(MetadataDefaults.StandardFields()), A.Alignment(A.Left, A.Top));
  }
}
