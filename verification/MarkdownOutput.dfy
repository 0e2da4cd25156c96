/**
 The strings that the converter puts out, block by block, and what a reader of HTML
 gets back from the text of a code block.
 */
module MarkdownOutput {
  import opened Markup
  import opened MarkdownBlocks
  import opened MarkdownLists
  import opened Slugs
  import opened Strings

  // ---- Character references -------------------------------------------------------------

  /** What text with character references stands for; other characters are themselves. */
  function Unescape(s: string): string {
    if s == "" then ""
    else if "&amp;" <= s then "&" + Unescape(s[5..])
    else if "&lt;" <= s then "<" + Unescape(s[4..])
    else if "&gt;" <= s then ">" + Unescape(s[4..])
    else if "&quot;" <= s then "\"" + Unescape(s[6..])
    else if "&#x27;" <= s then "'" + Unescape(s[6..])
    else [s[0]] + Unescape(s[1..])
  }

  lemma ReferenceIsRead(c: char, rest: string)
    ensures Unescape(Escaped(c) + rest) == [c] + Unescape(rest)
  {
    var e, s := Escaped(c), Escaped(c) + rest;
    assert s[|e|..] == rest && s[0] == e[0];
    if c == '&' || c == '<' || c == '>' || c == '"' || c == '\'' {
      assert s[1] == e[1] && s[2] == e[2] && s[3] == e[3];
      if |e| > 4 {
        assert s[4] == e[4];
      }
      if |e| > 5 {
        assert s[5] == e[5];
      }
      assert e <= s;
    }
  }

  lemma {:induction false} EscapeFirst(s: string)
    requires s != ""
    ensures Escape(s) == Escaped(s[0]) + Escape(s[1..])
  {
    hide Escaped;
    var front, last := s[..|s| - 1], s[|s| - 1];
    if front == "" {
      assert Escape(front) == "" && Escape(s[1..]) == "";
    } else {
      EscapeFirst(front);
      assert front[1..] == s[1..][..|s| - 2];
      assert Escape(s[1..]) == Escape(front[1..]) + Escaped(last);
      assert Escaped(s[0]) + Escape(front[1..]) + Escaped(last) == Escaped(s[0]) + (Escape(front[1..]) + Escaped(last));
    }
  }

  /** Escaping loses nothing: whoever reads the references has the text again. */
  lemma {:induction false} EscapeReadsBack(s: string)
    ensures Unescape(Escape(s)) == s
  {
    if s != "" {
      EscapeFirst(s);
      hide Escape, Unescape, Escaped;
      ReferenceIsRead(s[0], Escape(s[1..]));
      EscapeReadsBack(s[1..]);
      assert [s[0]] + s[1..] == s;
    }
  }

  // ---- One block ----------------------------------------------------------------------------

  lemma ElementBetween(tag: string, inside: string, open: string, close: string)
    requires open == "<" + tag + ">" && close == "</" + tag + ">"
    ensures Element(tag, "", inside) == open + inside + close
  {
    assert "<" + tag + "" + ">" == open;
    assert open + inside + "</" + tag + ">" == open + inside + close;
  }

  lemma CodeElement(kind: string, text: string)
    ensures Element("pre", "", Element("code", kind, text)) == "<pre><code" + kind + ">" + text + "</code></pre>"
  {
    var code := Element("code", kind, text);
    assert code == "<code" + kind + ">" + text + "</code>" by {
      assert "<" + "code" + kind + ">" == "<code" + kind + ">";
      assert "<code" + kind + ">" + text + "</" + "code" + ">" == "<code" + kind + ">" + text + "</code>";
    }
    hide Element;
    ElementBetween("pre", code, "<pre>", "</pre>");
    assert "<pre>" + ("<code" + kind + ">" + text + "</code>") + "</pre>" ==
      "<pre><code" + kind + ">" + text + "</code></pre>";
  }

  lemma ClassOf(language: string)
    ensures LanguageClass(language) == if language == "" then "" else " class=\"language-" + language + "\""
  {
  }

  /** A fence gives its code as text: no tag can begin in it, and read back it is the code
      lines with a line break between two. */
  lemma FenceOutput(inline: string -> string, language: string, code: seq<string>) returns (text: string)
    ensures Flat(BlockTokens(inline, Fenced(language, code))) ==
      "<pre><code" + (if language == "" then "" else " class=\"language-" + language + "\"")
      + ">" + text + "</code></pre>"
    ensures '<' !in text && Unescape(text) == Join(code, '\n')
  {
    hide Escape, Unescape, Join, Flat, BlockTokens, Element, LanguageClass;
    text := Escape(Join(code, '\n'));
    EscapeLeavesNoMarkup(Join(code, '\n'));
    EscapeReadsBack(Join(code, '\n'));
    ShownFence(inline, language, code);
    ClassOf(language);
    CodeElement(LanguageClass(language), text);
  }

  /** Headings of the six levels, with the slug of their text for an anchor. */
  lemma HeadingOutput(inline: string -> string, level: nat, text: string)
    requires 1 <= level <= 6
    ensures var h := "h" + ["0123456"[level]];
      Flat(BlockTokens(inline, Heading(level, text))) ==
        "<" + h + " id=\"" + Slug(text) + "\">" + inline(text) + "</" + h + ">"
  {
    hide Flat, BlockTokens, Slug;
    ShownHeading(inline, level, text);
    assert HeadingTag(level) == "h" + ["0123456"[level]];
    hide HeadingTag;
    var h, slug := HeadingTag(level), Slug(text);
    assert "<" + h + (" id=\"" + slug + "\"") + ">" == "<" + h + " id=\"" + slug + "\">";
  }

  lemma RuleOutput(inline: string -> string)
    ensures Flat(BlockTokens(inline, Rule)) == "<hr>"
  {
    hide Flat;
    ShownRule(inline);
  }

  lemma ParaOutput(inline: string -> string, texts: seq<string>)
    ensures Flat(BlockTokens(inline, Para(texts))) == "<p>" + inline(Strip(Join(texts, ' '))) + "</p>"
  {
    hide Flat, Strip, Join;
    ShownPara(inline, texts);
  }

  lemma QuoteOutput(inline: string -> string, inside: Blocks)
    ensures Flat(BlockTokens(inline, Quote(inside))) ==
      "<blockquote>" + Flat(BlocksTokens(inline, inside)) + "</blockquote>"
  {
    hide Flat, BlocksTokens, BlockTokens, Element;
    ShownQuote(inline, inside, Flat(BlocksTokens(inline, inside)));
    assert "<" + "blockquote" + ">" == "<blockquote>" && "</" + "blockquote" + ">" == "</blockquote>";
    ElementBetween("blockquote", Flat(BlocksTokens(inline, inside)), "<blockquote>", "</blockquote>");
  }

  // ---- Tables --------------------------------------------------------------------------------

  /** Cells one after the other in their tags. */
  function CellMarkup(inline: string -> string, open: string, close: string, cells: seq<string>): string {
    if cells == [] then ""
    else CellMarkup(inline, open, close, cells[..|cells| - 1]) + open + inline(cells[|cells| - 1]) + close
  }

  function RowMarkup(inline: string -> string, rows: seq<seq<string>>): string {
    if rows == [] then ""
    else
      RowMarkup(inline, rows[..|rows| - 1])
      + "<tr>" + CellMarkup(inline, "<td>", "</td>", rows[|rows| - 1]) + "</tr>"
  }

  lemma Regrouped(a: string, b: string, c: string, d: string)
    ensures a + (b + c + d) == a + b + c + d
  {
  }

  lemma {:induction false} CellsShow(
    inline: string -> string, tag: string, cells: seq<string>, open: string, close: string)
    requires open == "<" + tag + ">" && close == "</" + tag + ">"
    ensures Flat(Cells(inline, tag, cells)) == CellMarkup(inline, open, close, cells)
  {
    if cells != [] {
      hide Flat, Cells, Element;
      var n := |cells| - 1;
      CellsShow(inline, tag, cells[..n], open, close);
      NextCell(inline, tag, cells, n);
      assert cells[..n + 1] == cells;
      ElementBetween(tag, inline(cells[n]), open, close);
      Regrouped(CellMarkup(inline, open, close, cells[..n]), open, inline(cells[n]), close);
    }
  }

  lemma CellTags()
    ensures "<" + "td" + ">" == "<td>" && "</" + "td" + ">" == "</td>"
    ensures "<" + "th" + ">" == "<th>" && "</" + "th" + ">" == "</th>"
    ensures "<" + "tr" + ">" == "<tr>" && "</" + "tr" + ">" == "</tr>"
  {
  }

  lemma {:induction false} RowsShow(inline: string -> string, rows: seq<seq<string>>)
    ensures Flat(Rows(inline, rows)) == RowMarkup(inline, rows)
  {
    if rows != [] {
      hide Flat, Rows, Cells, CellMarkup, Element;
      var n := |rows| - 1;
      RowsShow(inline, rows[..n]);
      NextRow(inline, rows, n);
      assert rows[..n + 1] == rows;
      CellTags();
      CellsShow(inline, "td", rows[n], "<td>", "</td>");
      var cells := CellMarkup(inline, "<td>", "</td>", rows[n]);
      ElementBetween("tr", cells, "<tr>", "</tr>");
      Regrouped(RowMarkup(inline, rows[..n]), "<tr>", cells, "</tr>");
    }
  }

  lemma TableOutput(inline: string -> string, header: seq<string>, body: seq<seq<string>>)
    ensures Flat(BlockTokens(inline, Table(header, body))) ==
      "<table><thead><tr>" + CellMarkup(inline, "<th>", "</th>", header) + "</tr></thead><tbody>"
      + RowMarkup(inline, body) + "</tbody></table>"
  {
    hide Flat, BlockTokens, Cells, Rows, CellMarkup, RowMarkup;
    ShownTable(inline, header, body);
    CellTags();
    CellsShow(inline, "th", header, "<th>", "</th>");
    RowsShow(inline, body);
    TableTags(CellMarkup(inline, "<th>", "</th>", header), RowMarkup(inline, body));
  }

  lemma TagNames()
    ensures "<" + "table" + ">" == "<table>" && "</" + "table" + ">" == "</table>"
    ensures "<" + "thead" + ">" == "<thead>" && "</" + "thead" + ">" == "</thead>"
    ensures "<" + "tbody" + ">" == "<tbody>" && "</" + "tbody" + ">" == "</tbody>"
  {
  }

  lemma TableTags(th: string, rows: string)
    ensures Element("table", "", Element("thead", "", Element("tr", "", th)) + Element("tbody", "", rows)) ==
      "<table><thead><tr>" + th + "</tr></thead><tbody>" + rows + "</tbody></table>"
  {
    hide Element;
    CellTags();
    TagNames();
    ElementBetween("tr", th, "<tr>", "</tr>");
    ElementBetween("thead", "<tr>" + th + "</tr>", "<thead>", "</thead>");
    ElementBetween("tbody", rows, "<tbody>", "</tbody>");
    var head, body := "<thead>" + ("<tr>" + th + "</tr>") + "</thead>", "<tbody>" + rows + "</tbody>";
    ElementBetween("table", head + body, "<table>", "</table>");
    NestedTags("<table>", "<thead>", "<tr>", th, "</tr>", "</thead>", "<tbody>", rows, "</tbody>", "</table>");
    JoinedTags();
  }

  lemma NestedTags(a: string, b: string, c: string, th: string, d: string, e: string, f: string, rows: string,
      g: string, h: string)
    ensures a + (b + (c + th + d) + e + (f + rows + g)) + h == (a + b + c) + th + (d + e + f) + rows + (g + h)
  {
  }

  lemma JoinedTags()
    ensures "<table>" + "<thead>" + "<tr>" == "<table><thead><tr>"
    ensures "</tr>" + "</thead>" + "<tbody>" == "</tr></thead><tbody>"
    ensures "</tbody>" + "</table>" == "</tbody></table>"
  {
  }

  // ---- Lists ---------------------------------------------------------------------------------

  /** A list as nested strings: every item in its tags, with what follows its text inside. */
  function ListMarkup(inline: string -> string, tree: Tree): string
    decreases tree
  {
    if tree.ordered then "<ol>" + ItemMarkup(inline, tree.items) + "</ol>"
    else "<ul>" + ItemMarkup(inline, tree.items) + "</ul>"
  }

  function ItemMarkup(inline: string -> string, items: Items): string
    decreases items
  {
    match items
    case NoItems => ""
    case Items(before, text, parts) =>
      ItemMarkup(inline, before) + "<li>" + inline(text) + PartMarkup(inline, parts) + "</li>"
  }

  function PartMarkup(inline: string -> string, parts: Parts): string
    decreases parts
  {
    match parts
    case NoParts => ""
    case Continued(front, more) => PartMarkup(inline, front) + " " + inline(more)
    case Nested(front, list) => PartMarkup(inline, front) + ListMarkup(inline, list)
  }

  lemma ListTags(inside: string)
    ensures "<" + TagOf(true) + ">" + inside + "</" + TagOf(true) + ">" == "<ol>" + inside + "</ol>"
    ensures "<" + TagOf(false) + ">" + inside + "</" + TagOf(false) + ">" == "<ul>" + inside + "</ul>"
  {
    assert "<" + "ol" + ">" == "<ol>" && "<" + "ul" + ">" == "<ul>";
    assert "<ol>" + inside + "</" + "ol" + ">" == "<ol>" + inside + "</ol>";
    assert "<ul>" + inside + "</" + "ul" + ">" == "<ul>" + inside + "</ul>";
  }

  lemma {:induction false} ListShows(inline: string -> string, tree: Tree)
    ensures Flat(TreeTokens(inline, tree)) == ListMarkup(inline, tree)
    decreases tree
  {
    hide Flat, TreeTokens, ItemsTokens, ItemStrings, Concat, ItemMarkup, TagOf;
    ItemsShow(inline, tree.items);
    TreeString(inline, tree);
    StringsAreTokens(inline, tree.items);
    ListTags(ItemMarkup(inline, tree.items));
  }

  lemma {:induction false} ItemsShow(inline: string -> string, items: Items)
    ensures Flat(ItemsTokens(inline, items)) == ItemMarkup(inline, items)
    decreases items
  {
    hide Flat, PartsTokens, PartMarkup, Wrapped, ItemString;
    match items
    case NoItems => NothingShown();
    case Items(before, text, parts) =>
      ItemsShow(inline, before);
      PartsShow(inline, parts);
      ItemIsFlat(inline, text, parts);
      FlatAppend(ItemsTokens(inline, before), Wrapped("li", "", [Text(inline(text))] + PartsTokens(inline, parts)));
      ItemBetween(inline, text, parts);
      RegroupedItem(ItemMarkup(inline, before), "<li>", inline(text), PartMarkup(inline, parts), "</li>");
  }

  lemma ItemBetween(inline: string -> string, text: string, parts: Parts)
    ensures ItemString(inline, text, parts) == "<li>" + inline(text) + Flat(PartsTokens(inline, parts)) + "</li>"
  {
  }

  lemma RegroupedItem(a: string, b: string, c: string, d: string, e: string)
    ensures a + (b + c + d + e) == a + b + c + d + e
  {
  }

  lemma {:induction false} PartsShow(inline: string -> string, parts: Parts)
    ensures Flat(PartsTokens(inline, parts)) == PartMarkup(inline, parts)
    decreases parts
  {
    hide Flat, Shown, TreeTokens, ListMarkup;
    match parts
    case NoParts => NothingShown();
    case Continued(front, more) =>
      PartsShow(inline, front);
      FlatAppend(PartsTokens(inline, front), [Text(" " + inline(more))]);
      ShownText(" " + inline(more));
      RegroupedText(PartMarkup(inline, front), " ", inline(more));
    case Nested(front, list) =>
      PartsShow(inline, front);
      ListShows(inline, list);
      FlatAppend(PartsTokens(inline, front), TreeTokens(inline, list));
  }

  lemma RegroupedText(a: string, b: string, c: string)
    ensures a + (b + c) == a + b + c
  {
  }

  lemma ListOutput(inline: string -> string, tree: Tree)
    ensures Flat(BlockTokens(inline, List(tree))) == ListMarkup(inline, tree)
  {
    hide Flat, TreeTokens, ListMarkup;
    ListShows(inline, tree);
  }

  // ---- The whole text ------------------------------------------------------------------------

  /** Blocks that show something follow each other with one line break in between. */
  lemma NextOutput(inline: string -> string, before: Blocks, last: Block, from: nat, to: nat)
    ensures var html := Flat(BlocksTokens(inline, Blocks(before, last, from, to)));
      if last.Gap? then html == Flat(BlocksTokens(inline, before))
      else if Silent(before) then html == Flat(BlockTokens(inline, last))
      else html == Flat(BlocksTokens(inline, before)) + "\n" + Flat(BlockTokens(inline, last))
  {
    hide Flat, BlockTokens;
    if !last.Gap? {
      var tokens, own := BlocksTokens(inline, before), BlockTokens(inline, last);
      if Silent(before) {
        SilentShowsNothing(inline, before);
        FlatAppend(tokens + [], own);
        FlatAppend(tokens, []);
        NothingShown();
        assert "" + Flat(own) == Flat(own);
      } else {
        FlatAppend(tokens + [Text("\n")], own);
        FlatAppend(tokens, [Text("\n")]);
        ShownText("\n");
      }
    }
  }

  /** The block is one of these. */
  predicate Among(block: Block, blocks: Blocks) {
    blocks.Blocks? && (blocks.last == block || Among(block, blocks.before))
  }

  /** Every block's own markup stands in the output. */
  lemma {:induction false} OutputHolds(inline: string -> string, blocks: Blocks, block: Block)
    returns (ahead: string, behind: string)
    requires Among(block, blocks) && !block.Gap?
    ensures Flat(BlocksTokens(inline, blocks)) == ahead + Flat(BlockTokens(inline, block)) + behind
    decreases blocks
  {
    hide Flat, BlocksTokens, BlockTokens, Silent;
    NextOutput(inline, blocks.before, blocks.last, blocks.from, blocks.to);
    if blocks.last == block {
      behind := "";
      var front := Flat(BlocksTokens(inline, blocks.before));
      ahead := if Silent(blocks.before) then "" else front + "\n";
      var own := Flat(BlockTokens(inline, block));
      assert "" + own + "" == own && ahead + own + "" == ahead + own;
    } else {
      ahead, behind := OutputHolds(inline, blocks.before, block);
      if !blocks.last.Gap? {
        var own, last := Flat(BlockTokens(inline, block)), Flat(BlockTokens(inline, blocks.last));
        SilentHasNoBlock(blocks.before, block);
        assert ahead + own + behind + "\n" + last == ahead + own + (behind + "\n" + last);
        behind := behind + "\n" + last;
      }
    }
  }

  lemma {:induction false} SilentHasNoBlock(blocks: Blocks, block: Block)
    requires Among(block, blocks) && !block.Gap?
    ensures !Silent(blocks)
    decreases blocks
  {
    if blocks.last != block {
      SilentHasNoBlock(blocks.before, block);
    }
  }

  /** In the output of any text, every fence of its reading stands between its tags as text
      that reads back as the lines of the code. */
  lemma FencesReadBack(inline: string -> string, body: string, html: string, blocks: Blocks, language: string,
      code: seq<string>)
    returns (ahead: string, text: string, behind: string)
    requires IsHtmlOf(inline, body, html) && Reads(body, blocks) && Among(Fenced(language, code), blocks)
    ensures html == ahead + "<pre><code" + (if language == "" then "" else " class=\"language-" + language + "\"") + ">"
      + text + "</code></pre>" + behind
    ensures '<' !in text && Unescape(text) == Join(code, '\n')
  {
    hide Covers, Flat, BlocksTokens, BlockTokens, Unescape, Join, Split, Among;
    var others :| Reads(body, others) && html == Flat(BlocksTokens(inline, others));
    OneReading(Split(body, '\n'), blocks, others, |Split(body, '\n')|);
    ahead, behind := OutputHolds(inline, blocks, Fenced(language, code));
    text := FenceOutput(inline, language, code);
    var tags := "<pre><code" + (if language == "" then "" else " class=\"language-" + language + "\"") + ">";
    Regroup(ahead, "<pre><code", if language == "" then "" else " class=\"language-" + language + "\"", ">", text,
      "</code></pre>", behind);
  }

  lemma Regroup(a: string, b: string, c: string, d: string, e: string, f: string, g: string)
    ensures a + (b + c + d + e + f) + g == a + b + c + d + e + f + g
  {
  }
}
