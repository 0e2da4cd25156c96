/**
 The block converter: a loop over lines that reads one block at a time, gathers
 loose lines into paragraphs, and calls itself on the text of a quotation.
 Inline markup is an arbitrary function on the text of a line.
 */
module MarkdownBlocks {
  import opened Basics
  import opened Markup
  import opened MarkdownLists
  import opened Slugs
  import opened Strings

  // ---- Kinds of lines ---------------------------------------------------------------------

  predicate IsWordChar(c: char) {
    'a' <= c <= 'z' || 'A' <= c <= 'Z' || '0' <= c <= '9' || c == '_'
  }

  function WordLength(s: string): (n: nat)
    ensures n <= |s|
  {
    if s != "" && IsWordChar(s[0]) then 1 + WordLength(s[1..]) else 0
  }

  /** The language named by an opening fence: three backquotes, a word, white space. */
  function FenceOf(line: string): Option<string> {
    if !("```" <= line) then None
    else
      var n := WordLength(line[3..]);
      if IsBlank(line[3 + n..]) then Some(line[3..3 + n]) else None
  }

  predicate ClosesFence(line: string) {
    "```" <= line && IsBlank(line[3..])
  }

  function Hashes(s: string): (n: nat)
    ensures n <= |s|
  {
    if s != "" && s[0] == '#' then 1 + Hashes(s[1..]) else 0
  }

  predicate IsHeading(line: string) {
    var n := Hashes(line);
    1 <= n <= 6 && n < |line| && IsSpace(line[n])
  }

  function Dense(s: string): string {
    if s == "" then "" else (if IsSpace(s[0]) then "" else [s[0]]) + Dense(s[1..])
  }

  /** Three or more of one of `-*_`, white space aside, and not a list line. */
  predicate IsRule(line: string) {
    var marks := Dense(line);
    && |marks| >= 3 && (marks[0] == '-' || marks[0] == '*' || marks[0] == '_')
    && (forall c :: c in marks ==> c == marks[0])
    && !IsListLine(line)
  }

  predicate IsDivider(line: string) {
    '|' in line && '-' in line && forall c :: c in Strip(line) ==> c == '|' || c == ':' || c == '-' || c == ' '
  }

  predicate IsQuoted(line: string) {
    ">" <= StripLeft(line)
  }

  /** A quoted line without its mark and one character of white space after it. */
  function Unquoted(line: string): (r: string)
    requires IsQuoted(line)
    ensures |r| < |line|
  {
    var s := StripLeft(line)[1..];
    if s != "" && IsSpace(s[0]) then s[1..] else s
  }

  datatype Kind = FenceLine | BlankLine | HeadingLine | RuleLine | TableLine | QuoteLine | ListLine | TextLine

  /** What the converter takes a line for; a table needs a divider below its header. */
  function KindAt(lines: seq<string>, i: nat): Kind
    requires i < |lines|
  {
    if FenceOf(lines[i]).Some? then FenceLine
    else if IsBlank(lines[i]) then BlankLine
    else if IsHeading(lines[i]) then HeadingLine
    else if IsRule(lines[i]) then RuleLine
    else if '|' in lines[i] && i + 1 < |lines| && IsDivider(lines[i + 1]) then TableLine
    else if IsQuoted(lines[i]) then QuoteLine
    else if IsListLine(lines[i]) then ListLine
    else TextLine
  }

  // ---- Tables -------------------------------------------------------------------------------

  /** A table line without the bars at its ends. */
  function Bare(line: string): string {
    var s := Strip(line);
    var t := if "|" <= s then s[1..] else s;
    if t != "" && t[|t| - 1] == '|' then t[..|t| - 1] else t
  }

  /** `_row` */
  function CellsOf(line: string): seq<string> {
    StripEach(Split(Bare(line), '|'))
  }

  predicate IsRowLine(line: string) {
    !IsBlank(line) && '|' in line
  }

  // ---- Blocks -------------------------------------------------------------------------------

  datatype Block =
    | Gap
    | Fenced(language: string, code: seq<string>)
    | Heading(level: nat, text: string)
    | Rule
    | Table(header: seq<string>, body: seq<seq<string>>)
    | Quote(inside: Blocks)
    | List(tree: Tree)
    | Para(texts: seq<string>)

  /** Blocks in order, each with the lines from..to it was read from. */
  datatype Blocks = NoBlocks | Blocks(before: Blocks, last: Block, from: nat, to: nat)

  /** The blocks take up the first `to` lines, every line in exactly one of them. */
  ghost predicate Covers(lines: seq<string>, blocks: Blocks, to: nat)
    decreases blocks
  {
    match blocks
    case NoBlocks => to == 0
    case Blocks(before, last, from, end) =>
      && end == to && from < to <= |lines|
      && Covers(lines, before, from) && IsBlock(lines, last, from, to)
  }

  /** These lines are this block, and all of it. */
  ghost predicate IsBlock(lines: seq<string>, block: Block, from: nat, to: nat)
    requires from < to <= |lines|
    decreases block
  {
    match block
    case Gap => KindAt(lines, from) == BlankLine && to == from + 1
    case Fenced(language, code) => IsFenced(lines, language, code, from, to)
    case Heading(level, text) =>
      && KindAt(lines, from) == HeadingLine && to == from + 1
      && level == Hashes(lines[from]) && text == Strip(lines[from][level..])
    case Rule => KindAt(lines, from) == RuleLine && to == from + 1
    case Table(header, body) => IsTable(lines, header, body, from, to)
    case Quote(inside) =>
      && KindAt(lines, from) == QuoteLine && QuoteRun(lines, from, to)
      && Covers(UnquotedLines(lines, from, to), inside, to - from)
    case List(tree) => KindAt(lines, from) == ListLine && IsList(lines, tree, from, to)
    case Para(texts) =>
      TextRun(lines, from, to, texts) && (to == |lines| || KindAt(lines, to) != TextLine)
  }

  /** From an opening fence to the first closing one, or to the end of the text. */
  ghost predicate IsFenced(lines: seq<string>, language: string, code: seq<string>, from: nat, to: nat)
    requires from < to <= |lines|
  {
    var end := from + 1 + |code|;
    && KindAt(lines, from) == FenceLine && FenceOf(lines[from]) == Some(language)
    && end <= |lines| && code == lines[from + 1..end]
    && (forall line :: line in code ==> !ClosesFence(line))
    && if end < |lines| then ClosesFence(lines[end]) && to == end + 1 else to == end
  }

  ghost predicate IsTable(lines: seq<string>, header: seq<string>, body: seq<seq<string>>, from: nat, to: nat)
    requires from < to <= |lines|
  {
    && KindAt(lines, from) == TableLine && to == from + 2 + |body| && header == CellsOf(lines[from])
    && (forall r :: 0 <= r < |body| ==> BodyRow(lines, body, from, r))
    && (to == |lines| || !IsRowLine(lines[to]))
  }

  ghost predicate BodyRow(lines: seq<string>, body: seq<seq<string>>, from: nat, r: nat)
    requires from + 2 + |body| <= |lines| && r < |body|
  {
    IsRowLine(lines[from + 2 + r]) && body[r] == CellsOf(lines[from + 2 + r])
  }

  predicate AllQuoted(lines: seq<string>, from: nat, to: nat)
    requires from <= to <= |lines|
  {
    forall line :: line in lines[from..to] ==> IsQuoted(line)
  }

  predicate QuoteRun(lines: seq<string>, from: nat, to: nat)
    requires from <= to <= |lines|
  {
    AllQuoted(lines, from, to) && (to == |lines| || !IsQuoted(lines[to]))
  }

  function UnquoteAll(lines: seq<string>): (r: seq<string>)
    requires forall line :: line in lines ==> IsQuoted(line)
    ensures |r| == |lines|
  {
    if lines == [] then [] else UnquoteAll(lines[..|lines| - 1]) + [Unquoted(lines[|lines| - 1])]
  }

  function UnquotedLines(lines: seq<string>, from: nat, to: nat): (r: seq<string>)
    requires from <= to <= |lines| && AllQuoted(lines, from, to)
    ensures |r| == to - from
  {
    UnquoteAll(lines[from..to])
  }

  ghost predicate IsList(lines: seq<string>, tree: Tree, from: nat, to: nat)
    requires from < to <= |lines|
  {
    Solid(tree) && Outline(lines, from, Lead(lines[from]), []) == Outcome(WalkTree(tree, 1), to)
  }

  ghost predicate TextRun(lines: seq<string>, from: nat, to: nat, texts: seq<string>)
    requires from <= to <= |lines|
  {
    |texts| == to - from && forall k :: 0 <= k < |texts| ==> IsText(lines, from + k, texts[k])
  }

  ghost predicate IsText(lines: seq<string>, i: nat, text: string)
    requires i < |lines|
  {
    KindAt(lines, i) == TextLine && text == Strip(lines[i])
  }

  // ---- Output ---------------------------------------------------------------------------------

  function Escaped(c: char): string {
    match c
    case '&' => "&amp;"
    case '<' => "&lt;"
    case '>' => "&gt;"
    case '"' => "&quot;"
    case '\'' => "&#x27;"
    case _ => [c]
  }

  /** `html.escape` */
  function Escape(s: string): string {
    if s == "" then "" else Escape(s[..|s| - 1]) + Escaped(s[|s| - 1])
  }

  lemma EscapedIsPlain(c: char)
    ensures forall x :: x in Escaped(c) ==> x != '<' && x != '>' && x != '"' && x != '\''
  {
  }

  /** Escaped text can neither open a tag nor end an attribute. */
  lemma {:induction false} EscapeLeavesNoMarkup(s: string)
    ensures forall c :: c in Escape(s) ==> c != '<' && c != '>' && c != '"' && c != '\''
  {
    if s != "" {
      hide Escaped;
      EscapeLeavesNoMarkup(s[..|s| - 1]);
      EscapedIsPlain(s[|s| - 1]);
    }
  }

  function Cells(inline: string -> string, tag: string, cells: seq<string>): seq<Token> {
    if cells == [] then []
    else
      Cells(inline, tag, cells[..|cells| - 1]) + Wrapped(tag, "", [Text(inline(cells[|cells| - 1]))])
  }

  function Rows(inline: string -> string, rows: seq<seq<string>>): seq<Token> {
    if rows == [] then []
    else Rows(inline, rows[..|rows| - 1]) + Wrapped("tr", "", Cells(inline, "td", rows[|rows| - 1]))
  }

  function HeadingTag(level: nat): string {
    match level
    case 1 => "h1"
    case 2 => "h2"
    case 3 => "h3"
    case 4 => "h4"
    case 5 => "h5"
    case _ => "h6"
  }

  function LanguageClass(language: string): string {
    if language == "" then "" else " class=\"language-" + language + "\""
  }

  function BlockTokens(inline: string -> string, block: Block): seq<Token>
    decreases block
  {
    match block
    case Gap => []
    case Fenced(language, code) =>
      Wrapped("pre", "", Wrapped("code", LanguageClass(language), [Text(Escape(Join(code, '\n')))]))
    case Heading(level, text) => Wrapped(HeadingTag(level), " id=\"" + Slug(text) + "\"", [Text(inline(text))])
    case Rule => [Void("hr")]
    case Table(header, body) =>
      Wrapped("table", "", Wrapped("thead", "", Wrapped("tr", "", Cells(inline, "th", header)))
                           + Wrapped("tbody", "", Rows(inline, body)))
    case Quote(inside) => Wrapped("blockquote", "", BlocksTokens(inline, inside))
    case List(tree) => TreeTokens(inline, tree)
    case Para(texts) => Wrapped("p", "", [Text(inline(Strip(Join(texts, ' '))))])
  }

  /** One line break between the outputs of two blocks. */
  function BlocksTokens(inline: string -> string, blocks: Blocks): seq<Token>
    decreases blocks
  {
    match blocks
    case NoBlocks => []
    case Blocks(before, last, _, _) =>
      if last.Gap? then BlocksTokens(inline, before)
      else BlocksTokens(inline, before) + (if Silent(before) then [] else [Text("\n")]) + BlockTokens(inline, last)
  }

  predicate Silent(blocks: Blocks) {
    match blocks
    case NoBlocks => true
    case Blocks(before, last, _, _) => last.Gap? && Silent(before)
  }

  lemma {:induction false} CellsAreBalanced(inline: string -> string, tag: string, cells: seq<string>)
    ensures Balanced(Cells(inline, tag, cells))
  {
    if cells != [] {
      var front, last := cells[..|cells| - 1], [Text(inline(cells[|cells| - 1]))];
      CellsAreBalanced(inline, tag, front);
      BalancedOne(last[0]);
      BalancedWrapped(tag, "", last);
      BalancedAppend(Cells(inline, tag, front), Wrapped(tag, "", last));
    }
  }

  lemma {:induction false} RowsAreBalanced(inline: string -> string, rows: seq<seq<string>>)
    ensures Balanced(Rows(inline, rows))
  {
    if rows != [] {
      var front, last := rows[..|rows| - 1], Cells(inline, "td", rows[|rows| - 1]);
      RowsAreBalanced(inline, front);
      CellsAreBalanced(inline, "td", rows[|rows| - 1]);
      BalancedWrapped("tr", "", last);
      BalancedAppend(Rows(inline, front), Wrapped("tr", "", last));
    }
  }

  lemma {:induction false} BlockIsBalanced(inline: string -> string, block: Block)
    ensures Balanced(BlockTokens(inline, block))
    decreases block
  {
    hide Balanced, Wrapped, Escape;
    match block
    case Gap => NothingIsBalanced();
    case Fenced(language, code) =>
      var text := Text(Escape(Join(code, '\n')));
      var attributes := LanguageClass(language);
      BalancedOne(text);
      BalancedWrapped("code", attributes, [text]);
      BalancedWrapped("pre", "", Wrapped("code", attributes, [text]));
    case Heading(level, text) =>
      BalancedOne(Text(inline(text)));
      BalancedWrapped(HeadingTag(level), " id=\"" + Slug(text) + "\"", [Text(inline(text))]);
    case Rule => BalancedOne(Void("hr"));
    case Table(header, body) =>
      TableIsBalanced(inline, header, body);
    case Quote(inside) =>
      BlocksAreBalanced(inline, inside);
      BalancedWrapped("blockquote", "", BlocksTokens(inline, inside));
    case List(tree) => TreeIsBalanced(inline, tree);
    case Para(texts) =>
      BalancedOne(Text(inline(Strip(Join(texts, ' ')))));
      BalancedWrapped("p", "", [Text(inline(Strip(Join(texts, ' '))))]);
  }

  lemma NothingIsBalanced()
    ensures Balanced([])
  {
  }

  lemma TableIsBalanced(inline: string -> string, header: seq<string>, body: seq<seq<string>>)
    ensures Balanced(BlockTokens(inline, Table(header, body)))
  {
    hide Balanced, Wrapped;
    var cells, rows := Cells(inline, "th", header), Rows(inline, body);
    CellsAreBalanced(inline, "th", header);
    RowsAreBalanced(inline, body);
    BalancedWrapped("tr", "", cells);
    BalancedWrapped("thead", "", Wrapped("tr", "", cells));
    BalancedWrapped("tbody", "", rows);
    var head, all := Wrapped("thead", "", Wrapped("tr", "", cells)), Wrapped("tbody", "", rows);
    BalancedAppend(head, all);
    BalancedWrapped("table", "", head + all);
  }

  /** The tags of a whole text are balanced, quotations and nested lists included. */
  lemma {:induction false} BlocksAreBalanced(inline: string -> string, blocks: Blocks)
    ensures Balanced(BlocksTokens(inline, blocks))
    decreases blocks
  {
    hide Balanced, BlockTokens;
    match blocks
    case NoBlocks => NothingIsBalanced();
    case Blocks(before, last, _, _) =>
      BlocksAreBalanced(inline, before);
      if !last.Gap? {
        var comma := if Silent(before) then [] else [Text("\n")];
        NothingIsBalanced();
        BalancedOne(Text("\n"));
        BalancedAppend(BlocksTokens(inline, before), comma);
        BlockIsBalanced(inline, last);
        BalancedAppend(BlocksTokens(inline, before) + comma, BlockTokens(inline, last));
      }
  }

  // ---- Strings and tokens ------------------------------------------------------------------------

  function OutStrings(inline: string -> string, blocks: Blocks): seq<string>
    decreases blocks
  {
    match blocks
    case NoBlocks => []
    case Blocks(before, last, _, _) =>
      OutStrings(inline, before) + if last.Gap? then [] else [Flat(BlockTokens(inline, last))]
  }

  lemma {:induction false} SilentHasNoStrings(inline: string -> string, blocks: Blocks)
    ensures Silent(blocks) <==> OutStrings(inline, blocks) == []
  {
    match blocks
    case NoBlocks =>
    case Blocks(before, last, _, _) => SilentHasNoStrings(inline, before);
  }

  lemma JoinNext(out: seq<string>, piece: string)
    ensures Join(out + [piece], '\n') == if out == [] then piece else Join(out, '\n') + "\n" + piece
  {
    if out == [] {
      assert out + [piece] == [piece];
    } else {
      JoinSnoc(out, piece, '\n');
    }
  }

  /** Joining the strings put out is showing the tokens. */
  lemma {:induction false} OutputIsTokens(inline: string -> string, blocks: Blocks)
    ensures Join(OutStrings(inline, blocks), '\n') == Flat(BlocksTokens(inline, blocks))
  {
    match blocks
    case NoBlocks =>
    case Blocks(before, last, _, _) =>
      hide Flat, Join, BlockTokens;
      OutputIsTokens(inline, before);
      if last.Gap? {
        assert OutStrings(inline, blocks) == OutStrings(inline, before);
      } else {
        var tokens, own := BlocksTokens(inline, before), BlockTokens(inline, last);
        SilentHasNoStrings(inline, before);
        JoinNext(OutStrings(inline, before), Flat(own));
        if Silent(before) {
          NothingShown();
          FlatAppend(tokens + [], own);
          FlatAppend(tokens, []);
          SilentShowsNothing(inline, before);
        } else {
          FlatAppend(tokens + [Text("\n")], own);
          FlatAppend(tokens, [Text("\n")]);
          FlatOne(Text("\n"));
          TextIsShown("\n");
        }
      }
  }

  lemma {:induction false} SilentShowsNothing(inline: string -> string, blocks: Blocks)
    requires Silent(blocks)
    ensures Flat(BlocksTokens(inline, blocks)) == ""
  {
    if blocks.Blocks? {
      SilentShowsNothing(inline, blocks.before);
    }
  }

  lemma ShownText(text: string)
    ensures Flat([Text(text)]) == text
  {
    FlatOne(Text(text));
  }

  // ---- Tables ---------------------------------------------------------------------------------------

  lemma NextCell(inline: string -> string, tag: string, cells: seq<string>, k: nat)
    requires k < |cells|
    ensures Flat(Cells(inline, tag, cells[..k + 1])) ==
      Flat(Cells(inline, tag, cells[..k])) + Element(tag, "", inline(cells[k]))
  {
    hide Flat, Wrapped, Element;
    assert cells[..k + 1][..k] == cells[..k];
    ShownText(inline(cells[k]));
    FlatElement(tag, "", [Text(inline(cells[k]))]);
    FlatAppend(Cells(inline, tag, cells[..k]), Wrapped(tag, "", [Text(inline(cells[k]))]));
  }

  method ShowCells(inline: string -> string, tag: string, cells: seq<string>) returns (html: string)
    ensures html == Flat(Cells(inline, tag, cells))
  {
    hide Element;
    html := "";
    for k := 0 to |cells|
      invariant html == Flat(Cells(inline, tag, cells[..k]))
    {
      hide *;
      NextCell(inline, tag, cells, k);
      html := html + Element(tag, "", inline(cells[k]));
    }
    assert cells[..|cells|] == cells;
  }

  lemma NextRow(inline: string -> string, rows: seq<seq<string>>, k: nat)
    requires k < |rows|
    ensures Flat(Rows(inline, rows[..k + 1])) ==
      Flat(Rows(inline, rows[..k])) + Element("tr", "", Flat(Cells(inline, "td", rows[k])))
  {
    hide Flat, Wrapped, Element, Cells;
    assert rows[..k + 1][..k] == rows[..k];
    FlatElement("tr", "", Cells(inline, "td", rows[k]));
    FlatAppend(Rows(inline, rows[..k]), Wrapped("tr", "", Cells(inline, "td", rows[k])));
  }

  method ShowRows(inline: string -> string, rows: seq<seq<string>>) returns (html: string)
    ensures html == Flat(Rows(inline, rows))
  {
    hide Element, Cells;
    html := "";
    for k := 0 to |rows|
      invariant html == Flat(Rows(inline, rows[..k]))
    {
      hide *;
      NextRow(inline, rows, k);
      var cells := ShowCells(inline, "td", rows[k]);
      html := html + Element("tr", "", cells);
    }
    assert rows[..|rows|] == rows;
  }

  lemma ShownTable(inline: string -> string, header: seq<string>, body: seq<seq<string>>)
    ensures var th, rows := Flat(Cells(inline, "th", header)), Flat(Rows(inline, body));
      Element("table", "", Element("thead", "", Element("tr", "", th)) + Element("tbody", "", rows))
      == Flat(BlockTokens(inline, Table(header, body)))
  {
    hide Flat, Wrapped, Cells, Rows, Element;
    var cells, rows := Cells(inline, "th", header), Rows(inline, body);
    var row := Wrapped("tr", "", cells);
    var head, all := Wrapped("thead", "", row), Wrapped("tbody", "", rows);
    FlatElement("tr", "", cells);
    FlatElement("thead", "", row);
    FlatElement("tbody", "", rows);
    FlatAppend(head, all);
    FlatElement("table", "", head + all);
  }

  /** The body lines of a table, up to line i. */
  ghost predicate BodyRows(lines: seq<string>, body: seq<seq<string>>, from: nat, i: nat) {
    && from + 2 <= i <= |lines| && |body| == i - from - 2
    && forall r :: 0 <= r < |body| ==> BodyRow(lines, body, from, r)
  }

  lemma NoBodyYet(lines: seq<string>, from: nat)
    requires from < |lines| && KindAt(lines, from) == TableLine
    ensures from + 2 <= |lines| && BodyRows(lines, [], from, from + 2)
  {
  }

  lemma NextBodyRow(lines: seq<string>, body: seq<seq<string>>, from: nat, i: nat)
    requires BodyRows(lines, body, from, i) && i < |lines| && IsRowLine(lines[i])
    ensures BodyRows(lines, body + [CellsOf(lines[i])], from, i + 1)
  {
    hide IsRowLine, CellsOf;
    var longer := body + [CellsOf(lines[i])];
    forall r | 0 <= r < |longer| ensures BodyRow(lines, longer, from, r) {
      if r < |body| {
        assert BodyRow(lines, body, from, r);
      }
    }
  }

  lemma TableIsBlock(lines: seq<string>, body: seq<seq<string>>, from: nat, to: nat)
    requires from < |lines| && KindAt(lines, from) == TableLine
    requires BodyRows(lines, body, from, to) && (to == |lines| || !IsRowLine(lines[to]))
    ensures IsBlock(lines, Table(CellsOf(lines[from]), body), from, to)
  {
    hide KindAt, IsRowLine, CellsOf;
  }

  /** `_table` */
  method ReadTable(inline: string -> string, lines: seq<string>, start: nat)
    returns (html: string, next: nat, ghost block: Block)
    requires start < |lines| && KindAt(lines, start) == TableLine
    ensures start < next <= |lines| && !block.Gap? && IsBlock(lines, block, start, next)
    ensures html == Flat(BlockTokens(inline, block))
  {
    hide *;
    NoBodyYet(lines, start);
    var header := CellsOf(lines[start]);
    var i := start + 2;
    var body: seq<seq<string>> := [];
    while i < |lines| && IsRowLine(lines[i])
      invariant start + 2 <= i <= |lines| && BodyRows(lines, body, start, i)
    {
      NextBodyRow(lines, body, start, i);
      body := body + [CellsOf(lines[i])];
      i := i + 1;
    }
    next := i;
    TableIsBlock(lines, body, start, next);
    block := Table(header, body);
    var th := ShowCells(inline, "th", header);
    var rows := ShowRows(inline, body);
    ShownTable(inline, header, body);
    html := Element("table", "", Element("thead", "", Element("tr", "", th)) + Element("tbody", "", rows));
  }

  // ---- Fences and quotations -----------------------------------------------------------------------

  predicate NoneCloses(lines: seq<string>, from: nat, to: nat)
    requires from <= to <= |lines|
  {
    forall line :: line in lines[from..to] ==> !ClosesFence(line)
  }

  /** The lines of a fence read so far. */
  predicate CodeRun(lines: seq<string>, from: nat, to: nat, code: seq<string>) {
    from <= to <= |lines| && code == lines[from..to] && NoneCloses(lines, from, to)
  }

  lemma NoCodeYet(lines: seq<string>, from: nat)
    requires from <= |lines|
    ensures CodeRun(lines, from, from, [])
  {
  }

  lemma NextCode(lines: seq<string>, from: nat, i: nat, code: seq<string>)
    requires i < |lines| && CodeRun(lines, from, i, code) && !ClosesFence(lines[i])
    ensures CodeRun(lines, from, i + 1, code + [lines[i]])
  {
    hide ClosesFence;
    assert lines[from..i + 1] == lines[from..i] + [lines[i]];
  }

  lemma FenceIsBlock(lines: seq<string>, from: nat, end: nat, code: seq<string>)
    requires from < end <= |lines| && KindAt(lines, from) == FenceLine && FenceOf(lines[from]).Some?
    requires CodeRun(lines, from + 1, end, code) && (end == |lines| || ClosesFence(lines[end]))
    ensures var to := if end < |lines| then end + 1 else end;
      IsBlock(lines, Fenced(FenceOf(lines[from]).value, code), from, to)
  {
    hide KindAt, FenceOf, ClosesFence;
  }

  lemma ShownFence(inline: string -> string, language: string, code: seq<string>)
    ensures Element("pre", "", Element("code", LanguageClass(language), Escape(Join(code, '\n')))) ==
      Flat(BlockTokens(inline, Fenced(language, code)))
  {
    hide Flat, Wrapped, Element, Escape, Join;
    var attributes := LanguageClass(language);
    var text := [Text(Escape(Join(code, '\n')))];
    ShownText(Escape(Join(code, '\n')));
    FlatElement("code", attributes, text);
    FlatElement("pre", "", Wrapped("code", attributes, text));
  }

  lemma FenceLineIsFence(lines: seq<string>, i: nat)
    requires i < |lines| && KindAt(lines, i) == FenceLine
    ensures FenceOf(lines[i]).Some?
  {
  }

  /** A fenced block; the cursor is moved past the closing fence even if there is none. */
  method ReadFence(inline: string -> string, lines: seq<string>, start: nat)
    returns (html: string, next: nat, ghost block: Block)
    requires start < |lines| && KindAt(lines, start) == FenceLine
    ensures start < next <= |lines| + 1 && !block.Gap?
    ensures IsBlock(lines, block, start, if next <= |lines| then next else |lines|)
    ensures html == Flat(BlockTokens(inline, block))
  {
    hide *;
    FenceLineIsFence(lines, start);
    NoCodeYet(lines, start + 1);
    var language := FenceOf(lines[start]).value;
    var code: seq<string> := [];
    var i := start + 1;
    while i < |lines| && !ClosesFence(lines[i])
      invariant start < i <= |lines| && CodeRun(lines, start + 1, i, code)
    {
      NextCode(lines, start + 1, i, code);
      code := code + [lines[i]];
      i := i + 1;
    }
    FenceIsBlock(lines, start, i, code);
    ShownFence(inline, language, code);
    block := Fenced(language, code);
    next := i + 1;
    html := Element("pre", "", Element("code", LanguageClass(language), Escape(Join(code, '\n'))));
  }

  lemma NoneQuoted(lines: seq<string>, from: nat)
    requires from <= |lines|
    ensures AllQuoted(lines, from, from) && UnquotedLines(lines, from, from) == []
  {
  }

  lemma NextQuoted(lines: seq<string>, from: nat, i: nat)
    requires from <= i < |lines| && AllQuoted(lines, from, i) && IsQuoted(lines[i])
    ensures AllQuoted(lines, from, i + 1)
    ensures UnquotedLines(lines, from, i + 1) == UnquotedLines(lines, from, i) + [Unquoted(lines[i])]
  {
    hide IsQuoted, Unquoted;
    assert lines[from..i + 1] == lines[from..i] + [lines[i]];
    assert lines[from..i + 1][..i - from] == lines[from..i];
  }

  lemma QuoteEnds(lines: seq<string>, from: nat, to: nat)
    requires from <= to <= |lines| && AllQuoted(lines, from, to) && (to == |lines| || !IsQuoted(lines[to]))
    ensures QuoteRun(lines, from, to)
  {
  }

  /** The run of quoted lines from `start` on, without their marks. */
  method ReadQuoted(lines: seq<string>, start: nat) returns (quoted: seq<string>, next: nat)
    requires start < |lines| && IsQuoted(lines[start])
    ensures start < next <= |lines| && QuoteRun(lines, start, next)
    ensures quoted == UnquotedLines(lines, start, next)
  {
    hide *;
    NoneQuoted(lines, start);
    quoted := [];
    var i := start;
    while i < |lines| && IsQuoted(lines[i])
      invariant start <= i <= |lines| && (i == start ==> IsQuoted(lines[start]))
      invariant AllQuoted(lines, start, i) && quoted == UnquotedLines(lines, start, i)
    {
      NextQuoted(lines, start, i);
      quoted := quoted + [Unquoted(lines[i])];
      i := i + 1;
    }
    next := i;
    QuoteEnds(lines, start, next);
    assert AllQuoted(lines, start, next);
  }

  // ---- Quotations are shorter ------------------------------------------------------------------------

  function Weight(lines: seq<string>): nat {
    if lines == [] then 0 else Weight(lines[..|lines| - 1]) + |lines[|lines| - 1]|
  }

  lemma {:induction false} WeightAppend(a: seq<string>, b: seq<string>)
    ensures Weight(a + b) == Weight(a) + Weight(b)
  {
    if b == [] {
      assert a + b == a;
    } else {
      WeightAppend(a, b[..|b| - 1]);
      assert (a + b)[..|a + b| - 1] == a + b[..|b| - 1];
    }
  }

  lemma {:induction false} JoinLength(lines: seq<string>, c: char)
    requires lines != []
    ensures |Join(lines, c)| == Weight(lines) + |lines| - 1
  {
    if |lines| == 1 {
      assert lines[..0] == [];
    } else {
      JoinLength(lines[..|lines| - 1], c);
    }
  }

  lemma {:induction false} UnquotingShortens(lines: seq<string>)
    requires forall line :: line in lines ==> IsQuoted(line)
    ensures Weight(UnquoteAll(lines)) + |lines| <= Weight(lines)
  {
    hide IsQuoted;
    if lines != [] {
      var front, last := lines[..|lines| - 1], lines[|lines| - 1];
      UnquotingShortens(front);
      assert (UnquoteAll(front) + [Unquoted(last)])[..|front|] == UnquoteAll(front);
    }
  }

  /** The text of a quotation is shorter than the text it stands in. */
  lemma QuotationIsShorter(body: string, lines: seq<string>, from: nat, to: nat)
    requires lines == Split(body, '\n') && from < to <= |lines| && AllQuoted(lines, from, to)
    ensures |Join(UnquotedLines(lines, from, to), '\n')| < |body|
  {
    hide Split, Join, Weight, IsQuoted;
    var run, rest := lines[from..to], lines[to..];
    JoinSplit(body, '\n');
    JoinLength(lines, '\n');
    assert lines == lines[..from] + (run + rest);
    WeightAppend(lines[..from], run + rest);
    WeightAppend(run, rest);
    UnquotingShortens(run);
    JoinLength(UnquotedLines(lines, from, to), '\n');
  }

  lemma {:induction false} UnquotedHasNoBreak(lines: seq<string>)
    requires forall line :: line in lines ==> IsQuoted(line) && '\n' !in line
    ensures forall line :: line in UnquoteAll(lines) ==> '\n' !in line
  {
    hide IsQuoted;
    if lines != [] {
      UnquotedHasNoBreak(lines[..|lines| - 1]);
      UnquotedIsInside(lines[|lines| - 1]);
    }
  }

  lemma UnquotedIsInside(line: string)
    requires IsQuoted(line)
    ensures forall c :: c in Unquoted(line) ==> c in line
  {
    var s := StripLeft(line);
    assert s == line[|line| - |s|..];
  }

  /** The inner call splits the quotation into the very lines that were joined. */
  lemma QuotationSplits(body: string, lines: seq<string>, from: nat, to: nat)
    requires lines == Split(body, '\n') && from < to <= |lines| && AllQuoted(lines, from, to)
    ensures Split(Join(UnquotedLines(lines, from, to), '\n'), '\n') == UnquotedLines(lines, from, to)
  {
    hide Split, Join, IsQuoted;
    SplitPiecesAreWhole(body, '\n');
    UnquotedHasNoBreak(lines[from..to]);
    SplitJoin(UnquotedLines(lines, from, to), '\n');
  }

  // ---- The block loop ---------------------------------------------------------------------------------

  /** Blocks up to line `lo`, loose lines from there to line i, and what has been put out. */
  ghost predicate State(inline: string -> string, lines: seq<string>, blocks: Blocks, lo: nat, para: seq<string>,
      i: nat, out: seq<string>)
  {
    && lo <= i <= |lines| && Covers(lines, blocks, lo) && TextRun(lines, lo, i, para)
    && out == OutStrings(inline, blocks)
  }

  lemma NothingRead(inline: string -> string, lines: seq<string>)
    ensures State(inline, lines, NoBlocks, 0, [], 0, [])
  {
    hide KindAt;
  }

  lemma NextTextLine(inline: string -> string, lines: seq<string>, blocks: Blocks, lo: nat, para: seq<string>, i: nat,
      out: seq<string>)
    requires State(inline, lines, blocks, lo, para, i, out) && i < |lines| && KindAt(lines, i) == TextLine
    ensures State(inline, lines, blocks, lo, para + [Strip(lines[i])], i + 1, out)
  {
    hide KindAt, Strip, Covers, OutStrings;
    var longer := para + [Strip(lines[i])];
    forall k | 0 <= k < |longer| ensures IsText(lines, lo + k, longer[k]) {
      if k < |para| {
        assert IsText(lines, lo + k, para[k]);
      }
    }
  }

  lemma NextBlock(inline: string -> string, lines: seq<string>, blocks: Blocks, block: Block, i: nat, next: nat,
      out: seq<string>)
    requires State(inline, lines, blocks, i, [], i, out) && i < next <= |lines| && IsBlock(lines, block, i, next)
    ensures State(inline, lines, Blocks(blocks, block, i, next), next, [], next,
                  if block.Gap? then out else out + [Flat(BlockTokens(inline, block))])
  {
    hide KindAt, IsBlock, Flat, BlockTokens;
  }

  lemma ShownPara(inline: string -> string, texts: seq<string>)
    ensures Element("p", "", inline(Strip(Join(texts, ' ')))) == Flat(BlockTokens(inline, Para(texts)))
  {
    hide Flat, Wrapped, Element, Strip, Join;
    var text := inline(Strip(Join(texts, ' ')));
    ShownText(text);
    FlatElement("p", "", [Text(text)]);
  }

  lemma ShownHeading(inline: string -> string, level: nat, text: string)
    ensures Element(HeadingTag(level), " id=\"" + Slug(text) + "\"", inline(text)) ==
      Flat(BlockTokens(inline, Heading(level, text)))
  {
    hide Flat, Wrapped, Element, Slug, HeadingTag;
    ShownText(inline(text));
    FlatElement(HeadingTag(level), " id=\"" + Slug(text) + "\"", [Text(inline(text))]);
  }

  lemma ShownRule(inline: string -> string)
    ensures Flat(BlockTokens(inline, Rule)) == "<hr>"
  {
    FlatOne(Void("hr"));
    assert Shown(Void("hr")) == "<hr>";
  }

  lemma ShownQuote(inline: string -> string, inside: Blocks, html: string)
    requires html == Flat(BlocksTokens(inline, inside))
    ensures Element("blockquote", "", html) == Flat(BlockTokens(inline, Quote(inside)))
  {
    hide Flat, Wrapped, Element, BlocksTokens;
    FlatElement("blockquote", "", BlocksTokens(inline, inside));
  }

  lemma ParaIsBlock(inline: string -> string, lines: seq<string>, blocks: Blocks, lo: nat, para: seq<string>, i: nat,
      out: seq<string>)
    requires State(inline, lines, blocks, lo, para, i, out) && para != []
    requires i == |lines| || KindAt(lines, i) != TextLine
    ensures lo < i <= |lines| && IsBlock(lines, Para(para), lo, i) && State(inline, lines, blocks, lo, [], lo, out)
  {
    hide KindAt, Covers, OutStrings;
  }

  lemma NoPara(inline: string -> string, lines: seq<string>, blocks: Blocks, lo: nat, para: seq<string>, i: nat,
      out: seq<string>)
    requires State(inline, lines, blocks, lo, para, i, out) && para == []
    ensures lo == i
  {
  }

  /** `flush`: loose lines become a paragraph. */
  method Flush(inline: string -> string, lines: seq<string>, out: seq<string>, para: seq<string>,
      ghost blocks: Blocks, ghost lo: nat, ghost i: nat)
    returns (later: seq<string>, ghost more: Blocks)
    requires State(inline, lines, blocks, lo, para, i, out)
    requires i >= |lines| || KindAt(lines, i) != TextLine
    ensures State(inline, lines, more, i, [], i, later)
  {
    StateInRange(inline, lines, blocks, lo, para, i, out);
    hide *;
    later, more := out, blocks;
    if para != [] {
      ParaIsBlock(inline, lines, blocks, lo, para, i, out);
      NextBlock(inline, lines, blocks, Para(para), lo, i, out);
      ShownPara(inline, para);
      later := out + [Element("p", "", inline(Strip(Join(para, ' '))))];
      more := Blocks(blocks, Para(para), lo, i);
    } else {
      NoPara(inline, lines, blocks, lo, para, i, out);
    }
  }

  lemma StateInRange(inline: string -> string, lines: seq<string>, blocks: Blocks, lo: nat, para: seq<string>, i: nat,
      out: seq<string>)
    requires State(inline, lines, blocks, lo, para, i, out)
    ensures lo <= i <= |lines|
  {
  }

  lemma ListLineIsBullet(lines: seq<string>, i: nat)
    requires i < |lines| && KindAt(lines, i) == ListLine
    ensures LineOf(lines[i]).Bullet? && LineOf(lines[i]).indent == Lead(lines[i])
  {
    hide IsListLine, FenceOf, IsHeading, IsRule, IsDivider, IsQuoted, Lead;
  }

  lemma ListIsBlock(lines: seq<string>, tree: Tree, from: nat, to: nat)
    requires from < to <= |lines| && KindAt(lines, from) == ListLine
    requires Solid(tree) && Outline(lines, from, Lead(lines[from]), []) == Outcome(WalkTree(tree, 1), to)
    ensures IsBlock(lines, List(tree), from, to)
  {
    hide Solid, KindAt, Outline, Lead, WalkTree, Covers, IsFenced, IsTable, TextRun, QuoteRun;
  }

  lemma LineBlock(lines: seq<string>, i: nat)
    requires i < |lines|
    ensures KindAt(lines, i) == BlankLine ==> IsBlock(lines, Gap, i, i + 1)
    ensures KindAt(lines, i) == RuleLine ==> IsBlock(lines, Rule, i, i + 1)
    ensures KindAt(lines, i) == HeadingLine ==>
      IsBlock(lines, Heading(Hashes(lines[i]), Strip(lines[i][Hashes(lines[i])..])), i, i + 1)
  {
    hide KindAt, Strip;
  }

  lemma QuoteLineIsQuoted(lines: seq<string>, i: nat)
    requires i < |lines| && KindAt(lines, i) == QuoteLine
    ensures IsQuoted(lines[i])
  {
    hide IsListLine, FenceOf, IsHeading, IsRule, IsDivider;
  }

  lemma QuoteOfLines(lines: seq<string>, from: nat, to: nat, inside: Blocks)
    requires from < to <= |lines| && KindAt(lines, from) == QuoteLine && QuoteRun(lines, from, to)
    requires AllQuoted(lines, from, to) && Covers(UnquotedLines(lines, from, to), inside, to - from)
    ensures IsBlock(lines, Quote(inside), from, to)
  {
    hide KindAt, QuoteRun, AllQuoted, UnquotedLines, Covers, IsList, IsFenced, IsTable, TextRun;
  }

  lemma QuoteIsBlock(body: string, lines: seq<string>, from: nat, to: nat, inside: Blocks)
    requires lines == Split(body, '\n') && from < to <= |lines|
    requires KindAt(lines, from) == QuoteLine && QuoteRun(lines, from, to) && AllQuoted(lines, from, to)
    requires var inner := Split(Join(UnquotedLines(lines, from, to), '\n'), '\n'); Covers(inner, inside, |inner|)
    ensures IsBlock(lines, Quote(inside), from, to)
  {
    hide *;
    QuotationSplits(body, lines, from, to);
    QuoteOfLines(lines, from, to, inside);
  }

  lemma RunIsQuoted(lines: seq<string>, from: nat, to: nat)
    requires from <= to <= |lines| && QuoteRun(lines, from, to)
    ensures AllQuoted(lines, from, to)
  {
  }

  lemma AllRead(inline: string -> string, lines: seq<string>, blocks: Blocks, i: nat, out: seq<string>)
    requires State(inline, lines, blocks, i, [], i, out) && i == |lines|
    ensures Covers(lines, blocks, |lines|) && Join(out, '\n') == Flat(BlocksTokens(inline, blocks))
  {
    hide Covers, Join, Flat;
    OutputIsTokens(inline, blocks);
  }

  /** The markup of a reading of the text. */
  ghost predicate IsHtmlOf(inline: string -> string, body: string, html: string) {
    exists blocks :: Reads(body, blocks) && html == Flat(BlocksTokens(inline, blocks))
  }

  ghost predicate Reads(body: string, blocks: Blocks) {
    var lines := Split(body, '\n');
    Covers(lines, blocks, |lines|)
  }

  lemma HtmlOfReading(inline: string -> string, body: string, blocks: Blocks)
    requires var lines := Split(body, '\n'); Covers(lines, blocks, |lines|)
    ensures IsHtmlOf(inline, body, Flat(BlocksTokens(inline, blocks)))
  {
    assert Reads(body, blocks);
  }

  /** `_md_to_html`: the blocks take up every line once, in order, and what is put out
      is their markup. */
  method ToHtml(inline: string -> string, body: string) returns (html: string, ghost blocks: Blocks)
    ensures IsHtmlOf(inline, body, html)
    ensures var lines := Split(body, '\n'); Covers(lines, blocks, |lines|)
    ensures html == Flat(BlocksTokens(inline, blocks))
    decreases |body|
  {
    hide *;
    var lines := Split(body, '\n');
    var n, i := |lines|, 0;
    var out: seq<string> := [];
    var para: seq<string> := [];
    blocks := NoBlocks;
    ghost var lo := 0;
    NothingRead(inline, lines);
    while i < n
      invariant i <= n + 1
      invariant State(inline, lines, blocks, lo, para, if i <= n then i else n, out)
      decreases n + 1 - i
    {
      var kind := KindAt(lines, i);
      if kind == TextLine {
        NextTextLine(inline, lines, blocks, lo, para, i, out);
        para := para + [Strip(lines[i])];
        i := i + 1;
        continue;
      }
      out, blocks := Flush(inline, lines, out, para, blocks, lo, i);
      para := [];
      LineBlock(lines, i);
      ghost var block, from := Gap, i;
      ghost var so := out;
      if kind == FenceLine {
        var pre;
        pre, i, block := ReadFence(inline, lines, i);
        out := out + [pre];
      } else if kind == BlankLine {
        i := i + 1;
      } else if kind == HeadingLine {
        var level, text := Hashes(lines[i]), Strip(lines[i][Hashes(lines[i])..]);
        block := Heading(level, text);
        ShownHeading(inline, level, text);
        out := out + [Element(HeadingTag(level), " id=\"" + Slug(text) + "\"", inline(text))];
        i := i + 1;
      } else if kind == RuleLine {
        block := Rule;
        ShownRule(inline);
        out := out + ["<hr>"];
        i := i + 1;
      } else if kind == TableLine {
        var table;
        table, i, block := ReadTable(inline, lines, i);
        out := out + [table];
      } else if kind == QuoteLine {
        QuoteLineIsQuoted(lines, i);
        var quoted, next := ReadQuoted(lines, i);
        RunIsQuoted(lines, i, next);
        QuotationIsShorter(body, lines, i, next);
        var inner;
        ghost var inside;
        inner, inside := ToHtml(inline, Join(quoted, '\n'));
        QuoteIsBlock(body, lines, i, next, inside);
        ShownQuote(inline, inside, inner);
        block := Quote(inside);
        out := out + [Element("blockquote", "", inner)];
        i := next;
      } else {
        ListLineIsBullet(lines, i);
        var list;
        ghost var tree;
        list, i, tree := ReadList(inline, lines, i);
        ListIsBlock(lines, tree, from, i);
        ShownList(inline, tree);
        block := List(tree);
        out := out + [list];
      }
      ghost var to := if i <= n then i else n;
      NextBlock(inline, lines, blocks, block, from, to, so);
      blocks := Blocks(blocks, block, from, to);
      lo := to;
    }
    out, blocks := Flush(inline, lines, out, para, blocks, lo, n);
    AllRead(inline, lines, blocks, n, out);
    html := Join(out, '\n');
    HtmlOfReading(inline, body, blocks);
  }

  lemma ShownList(inline: string -> string, tree: Tree)
    ensures BlockTokens(inline, List(tree)) == TreeTokens(inline, tree)
  {
  }

  // ---- One reading ------------------------------------------------------------------------------------

  lemma OneFence(lines: seq<string>, l: string, a: seq<string>, l': string, b: seq<string>, from: nat, x: nat, y: nat)
    requires from < x <= |lines| && from < y <= |lines|
    requires IsFenced(lines, l, a, from, x) && IsFenced(lines, l', b, from, y)
    ensures l == l' && a == b && x == y
  {
    hide KindAt, FenceOf, ClosesFence;
    forall k | from < k <= from + |a| ensures !ClosesFence(lines[k]) {
      assert a[k - from - 1] == lines[k];
    }
    forall k | from < k <= from + |b| ensures !ClosesFence(lines[k]) {
      assert b[k - from - 1] == lines[k];
    }
    assert |a| == |b|;
  }

  lemma OneTable(lines: seq<string>, h: seq<string>, a: seq<seq<string>>, h': seq<string>, b: seq<seq<string>>,
      from: nat, x: nat, y: nat)
    requires from < x <= |lines| && from < y <= |lines|
    requires IsTable(lines, h, a, from, x) && IsTable(lines, h', b, from, y)
    ensures h == h' && a == b && x == y
  {
    hide KindAt, IsRowLine, CellsOf;
    forall k | from + 2 <= k < x ensures IsRowLine(lines[k]) {
      assert BodyRow(lines, a, from, k - from - 2);
    }
    forall k | from + 2 <= k < y ensures IsRowLine(lines[k]) {
      assert BodyRow(lines, b, from, k - from - 2);
    }
    assert |a| == |b|;
    forall r | 0 <= r < |a| ensures a[r] == b[r] {
      assert BodyRow(lines, a, from, r) && BodyRow(lines, b, from, r);
    }
  }

  lemma OneQuoteRun(lines: seq<string>, from: nat, x: nat, y: nat)
    requires from < x <= |lines| && from < y <= |lines| && QuoteRun(lines, from, x) && QuoteRun(lines, from, y)
    ensures x == y
  {
    hide IsQuoted;
    forall k | from <= k < x ensures IsQuoted(lines[k]) {
      assert lines[from..x][k - from] == lines[k];
    }
    forall k | from <= k < y ensures IsQuoted(lines[k]) {
      assert lines[from..y][k - from] == lines[k];
    }
  }

  lemma OnePara(lines: seq<string>, a: seq<string>, b: seq<string>, from: nat, x: nat, y: nat)
    requires from < x <= |lines| && from < y <= |lines| && TextRun(lines, from, x, a) && TextRun(lines, from, y, b)
    requires (x == |lines| || KindAt(lines, x) != TextLine) && (y == |lines| || KindAt(lines, y) != TextLine)
    ensures a == b && x == y
  {
    hide KindAt;
    forall k | from <= k < x ensures KindAt(lines, k) == TextLine {
      assert IsText(lines, from + (k - from), a[k - from]);
    }
    forall k | from <= k < y ensures KindAt(lines, k) == TextLine {
      assert IsText(lines, from + (k - from), b[k - from]);
    }
    assert x == y;
    forall k | 0 <= k < |a| ensures a[k] == b[k] {
      assert IsText(lines, from + k, a[k]) && IsText(lines, from + k, b[k]);
    }
  }

  lemma OneList(lines: seq<string>, s: Tree, t: Tree, from: nat, x: nat, y: nat)
    requires from < x <= |lines| && from < y <= |lines| && IsList(lines, s, from, x) && IsList(lines, t, from, y)
    ensures s == t && x == y
  {
    hide Outline, WalkTree, Solid;
    TreeByOutline(s, t, 1);
  }

  function KindOf(block: Block): Kind {
    match block
    case Gap => BlankLine
    case Fenced(_, _) => FenceLine
    case Heading(_, _) => HeadingLine
    case Rule => RuleLine
    case Table(_, _) => TableLine
    case Quote(_) => QuoteLine
    case List(_) => ListLine
    case Para(_) => TextLine
  }

  /** The kind of its first line decides what a block is. */
  lemma BlockHasKind(lines: seq<string>, block: Block, from: nat, to: nat)
    requires from < to <= |lines| && IsBlock(lines, block, from, to)
    ensures KindAt(lines, from) == KindOf(block)
  {
    hide KindAt, Covers, QuoteRun, AllQuoted, UnquotedLines, IsList;
    if block.Para? {
      assert IsText(lines, from + 0, block.texts[0]);
    }
  }

  lemma OneSimpleBlock(lines: seq<string>, a: Block, b: Block, from: nat, x: nat, y: nat)
    requires from < x <= |lines| && from < y <= |lines| && IsBlock(lines, a, from, x) && IsBlock(lines, b, from, y)
    requires KindOf(a) == KindOf(b) && !a.Quote?
    ensures a == b && x == y
  {
    hide KindAt, Covers, QuoteRun, AllQuoted, UnquotedLines, IsList, IsFenced, IsTable, TextRun, Strip, Hashes;
    match a
    case Gap =>
    case Rule =>
    case Heading(_, _) =>
    case Fenced(language, code) => OneFence(lines, language, code, b.language, b.code, from, x, y);
    case Table(header, body) => OneTable(lines, header, body, b.header, b.body, from, x, y);
    case List(tree) => OneList(lines, tree, b.tree, from, x, y);
    case Para(texts) => OnePara(lines, texts, b.texts, from, x, y);
  }

  lemma QuoteKind(a: Block, b: Block)
    requires a.Quote? && KindOf(a) == KindOf(b)
    ensures b.Quote?
  {
  }

  lemma QuoteParts(lines: seq<string>, inside: Blocks, from: nat, to: nat)
    requires from < to <= |lines| && IsBlock(lines, Quote(inside), from, to)
    ensures QuoteRun(lines, from, to) && AllQuoted(lines, from, to)
    ensures Covers(UnquotedLines(lines, from, to), inside, to - from)
  {
    hide KindAt, AllQuoted, UnquotedLines, IsList, IsFenced, IsTable, TextRun, IsQuoted;
  }

  lemma {:induction false} OneBlock(lines: seq<string>, a: Block, b: Block, from: nat, x: nat, y: nat)
    requires from < x <= |lines| && from < y <= |lines| && IsBlock(lines, a, from, x) && IsBlock(lines, b, from, y)
    ensures a == b && x == y
    decreases a, b, 0
  {
    hide *;
    BlockHasKind(lines, a, from, x);
    BlockHasKind(lines, b, from, y);
    if a.Quote? {
      QuoteKind(a, b);
      QuoteParts(lines, a.inside, from, x);
      QuoteParts(lines, b.inside, from, y);
      OneQuoteRun(lines, from, x, y);
      OneReading(UnquotedLines(lines, from, x), a.inside, b.inside, x - from);
    } else {
      OneSimpleBlock(lines, a, b, from, x, y);
    }
  }

  predicate Leads(a: Blocks, b: Blocks)
    decreases b
  {
    a == b || (b.Blocks? && Leads(a, b.before))
  }

  lemma {:induction false} LeadsNoFurther(lines: seq<string>, a: Blocks, x: nat, b: Blocks, y: nat)
    requires Covers(lines, a, x) && Covers(lines, b, y) && Leads(a, b)
    ensures x <= y && (x == y ==> a == b)
    decreases b
  {
    hide IsBlock;
    if a != b {
      LeadsNoFurther(lines, a, x, b.before, b.from);
    } else if a.Blocks? {
      assert a.to == x && b.to == y;
    }
  }

  /** Of two readings of the same lines one begins with the other. */
  lemma {:induction false} ReadingsAgree(lines: seq<string>, a: Blocks, x: nat, b: Blocks, y: nat)
    requires Covers(lines, a, x) && Covers(lines, b, y)
    ensures Leads(a, b) || Leads(b, a)
    decreases a, b, 0
  {
    hide IsBlock;
    if a.Blocks? && b.Blocks? {
      ReadingsAgree(lines, a.before, a.from, b, y);
      ReadingsAgree(lines, a, x, b.before, b.from);
      if !Leads(b, a.before) && !Leads(a, b.before) && a != b {
        LeadsBoth(a, b);
        LeadsNoFurther(lines, a.before, a.from, b.before, b.from);
        LeadsNoFurther(lines, b.before, b.from, a.before, a.from);
        OneBlock(lines, a.last, b.last, a.from, x, y);
      }
    } else {
      NothingLeads(a);
      NothingLeads(b);
    }
  }

  lemma LeadsBoth(a: Blocks, b: Blocks)
    requires a.Blocks? && b.Blocks? && a != b
    requires Leads(a.before, b) || Leads(b, a.before)
    requires Leads(a, b.before) || Leads(b.before, a)
    requires !Leads(b, a.before) && !Leads(a, b.before)
    ensures Leads(a.before, b.before) && Leads(b.before, a.before)
  {
  }

  lemma {:induction false} NothingLeads(b: Blocks)
    ensures Leads(NoBlocks, b)
    decreases b
  {
    if b.Blocks? {
      NothingLeads(b.before);
    }
  }

  /** A text can be read in one way only: the lines decide every block, every nested
      quotation and every list in it. */
  lemma {:induction false} OneReading(lines: seq<string>, a: Blocks, b: Blocks, n: nat)
    requires Covers(lines, a, n) && Covers(lines, b, n)
    ensures a == b
    decreases a, b, 1
  {
    hide Covers;
    ReadingsAgree(lines, a, n, b, n);
    if Leads(a, b) {
      LeadsNoFurther(lines, a, n, b, n);
    } else {
      LeadsNoFurther(lines, b, n, a, n);
    }
  }

  /** So there is one output, and its tags are balanced. */
  lemma OneBalancedOutput(inline: string -> string, body: string, html: string, other: string)
    returns (tokens: seq<Token>)
    requires IsHtmlOf(inline, body, html) && IsHtmlOf(inline, body, other)
    ensures html == other
    ensures html == Flat(tokens) && Balanced(tokens)
  {
    hide Covers, Flat, Balanced, Split;
    var blocks :| Reads(body, blocks) && html == Flat(BlocksTokens(inline, blocks));
    var others :| Reads(body, others) && other == Flat(BlocksTokens(inline, others));
    OneReading(Split(body, '\n'), blocks, others, |Split(body, '\n')|);
    tokens := BlocksTokens(inline, blocks);
    BlocksAreBalanced(inline, blocks);
  }
}
