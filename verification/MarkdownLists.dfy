/**
 Nested lists of the Markdown converter: a recursive reader with a shared line
 cursor that edits the last item by cutting its closing tag off.  Its result is
 compared with a one-pass reading of the lines on a stack of indents.
 */
module MarkdownLists {
  import opened Markup
  import opened Strings

  // ---- Lines ----------------------------------------------------------------------------

  predicate IsDigit(c: char) {
    '0' <= c <= '9'
  }

  function Digits(s: string): (n: nat)
    ensures n <= |s|
  {
    if s != "" && IsDigit(s[0]) then 1 + Digits(s[1..]) else 0
  }

  /** How long the marker is that s starts with: `-`, `*`, `+`, or digits and a dot. */
  function MarkerLength(s: string): (n: nat)
    ensures n <= |s|
  {
    if s == "" then 0
    else if s[0] == '-' || s[0] == '*' || s[0] == '+' then 1
    else
      var n := Digits(s);
      if n > 0 && n < |s| && s[n] == '.' then n + 1 else 0
  }

  /** `^(\s*)([-*+]|\d+\.)\s+(.*)$` */
  predicate IsListLine(line: string) {
    var s := StripLeft(line);
    var n := MarkerLength(s);
    0 < n < |s| && IsSpace(s[n])
  }

  predicate IsOrdered(line: string) {
    Digits(StripLeft(line)) > 0
  }

  function ItemText(line: string): string {
    var s := StripLeft(line);
    StripLeft(s[MarkerLength(s)..])
  }

  /** What the list reader makes of a line. */
  datatype Line = Blank | Bullet(indent: nat, ordered: bool, text: string) | Other(indent: nat, text: string)

  function LineOf(line: string): Line {
    if IsBlank(line) then Blank
    else if IsListLine(line) then Bullet(Lead(line), IsOrdered(line), ItemText(line))
    else Other(Lead(line), Strip(line))
  }

  // ---- Trees ------------------------------------------------------------------------------

  datatype Tree = Tree(ordered: bool, items: Items)

  datatype Items = NoItems | Items(before: Items, text: string, parts: Parts)

  /** What follows an item's own text: further lines of it, and lists inside it. */
  datatype Parts = NoParts | Continued(front: Parts, more: string) | Nested(front: Parts, list: Tree)

  /** Every list has an item. */
  predicate Solid(tree: Tree)
    decreases tree
  {
    tree.items.Items? && SolidItems(tree.items)
  }

  predicate SolidItems(items: Items)
    decreases items
  {
    items.Items? ==> SolidItems(items.before) && SolidParts(items.parts)
  }

  predicate SolidParts(parts: Parts)
    decreases parts
  {
    match parts
    case NoParts => true
    case Continued(front, _) => SolidParts(front)
    case Nested(front, list) => SolidParts(front) && Solid(list)
  }

  function TagOf(ordered: bool): string {
    if ordered then "ol" else "ul"
  }

  function TreeTokens(inline: string -> string, tree: Tree): seq<Token>
    decreases tree
  {
    Wrapped(TagOf(tree.ordered), "", ItemsTokens(inline, tree.items))
  }

  function ItemsTokens(inline: string -> string, items: Items): seq<Token>
    decreases items
  {
    match items
    case NoItems => []
    case Items(before, text, parts) =>
      ItemsTokens(inline, before) + Wrapped("li", "", [Text(inline(text))] + PartsTokens(inline, parts))
  }

  function PartsTokens(inline: string -> string, parts: Parts): seq<Token>
    decreases parts
  {
    match parts
    case NoParts => []
    case Continued(front, more) => PartsTokens(inline, front) + [Text(" " + inline(more))]
    case Nested(front, list) => PartsTokens(inline, front) + TreeTokens(inline, list)
  }

  /** Lists nest properly inside items, and items inside lists. */
  lemma {:induction false} TreeIsBalanced(inline: string -> string, tree: Tree)
    ensures Balanced(TreeTokens(inline, tree))
    decreases tree
  {
    ItemsAreBalanced(inline, tree.items);
    BalancedWrapped(TagOf(tree.ordered), "", ItemsTokens(inline, tree.items));
  }

  lemma {:induction false} ItemsAreBalanced(inline: string -> string, items: Items)
    ensures Balanced(ItemsTokens(inline, items))
    decreases items
  {
    if items.Items? {
      ItemsAreBalanced(inline, items.before);
      PartsAreBalanced(inline, items.parts);
      BalancedOne(Text(inline(items.text)));
      var inside := [Text(inline(items.text))] + PartsTokens(inline, items.parts);
      BalancedAppend([Text(inline(items.text))], PartsTokens(inline, items.parts));
      BalancedWrapped("li", "", inside);
      BalancedAppend(ItemsTokens(inline, items.before), Wrapped("li", "", inside));
    }
  }

  lemma {:induction false} PartsAreBalanced(inline: string -> string, parts: Parts)
    ensures Balanced(PartsTokens(inline, parts))
    decreases parts
  {
    match parts
    case NoParts =>
    case Continued(front, more) =>
      PartsAreBalanced(inline, front);
      BalancedOne(Text(" " + inline(more)));
      BalancedAppend(PartsTokens(inline, front), [Text(" " + inline(more))]);
    case Nested(front, list) =>
      PartsAreBalanced(inline, front);
      TreeIsBalanced(inline, list);
      BalancedAppend(PartsTokens(inline, front), TreeTokens(inline, list));
  }

  // ---- One pass on a stack of indents ----------------------------------------------------

  /** Where a line ends up: starting a list, as an item of it, or as more of an item,
      in the list that many levels deep. */
  datatype Entry =
    | Starts(depth: nat, ordered: bool, text: string)
    | Item(depth: nat, text: string)
    | More(depth: nat, text: string)

  datatype Outcome = Outcome(entries: seq<Entry>, next: nat)

  function Prepend(entries: seq<Entry>, rest: Outcome): Outcome {
    Outcome(entries + rest.entries, rest.next)
  }

  function NextText(lines: seq<string>, i: nat): (j: nat)
    requires i <= |lines|
    ensures i <= j <= |lines|
    ensures j < |lines| ==> !LineOf(lines[j]).Blank?
    decreases |lines| - i
  {
    if i < |lines| && LineOf(lines[i]).Blank? then NextText(lines, i + 1) else i
  }

  /** The indents at most `indent`. */
  function UpTo(stack: seq<nat>, indent: nat): seq<nat> {
    if stack != [] && stack[|stack| - 1] > indent then UpTo(stack[..|stack| - 1], indent) else stack
  }

  /** The indents below `indent`. */
  function Below(stack: seq<nat>, indent: nat): seq<nat> {
    if stack != [] && stack[|stack| - 1] >= indent then Below(stack[..|stack| - 1], indent) else stack
  }

  /** Blank lines are bridged to a list line; a list line closes the lists indented more
      and opens one unless its own indent is already there; any other line belongs to the
      innermost list indented less.  Whatever is not indented enough for the outermost
      list ends it. */
  function Outline(lines: seq<string>, i: nat, root: nat, stack: seq<nat>): Outcome
    requires i <= |lines|
    decreases |lines| - i
  {
    if i == |lines| then Outcome([], i)
    else
      match LineOf(lines[i])
      case Blank =>
        var j := NextText(lines, i);
        if j < |lines| && LineOf(lines[j]).Bullet?
          && LineOf(lines[j]).indent >= root then Outline(lines, j, root, stack)
        else Outcome([], i)
      case Bullet(indent, ordered, text) =>
        var lists := UpTo(stack, indent);
        if indent < root then Outcome([], i)
        else if lists != [] && lists[|lists| - 1] == indent then
          Prepend([Item(|lists|, text)], Outline(lines, i + 1, root, lists))
        else
          Prepend([Starts(|lists| + 1, ordered, text)], Outline(lines, i + 1, root, lists + [indent]))
      case Other(indent, text) =>
        var lists := Below(stack, indent);
        if indent <= root then Outcome([], i)
        else Prepend([More(|lists|, text)], Outline(lines, i + 1, root, lists))
  }

  /** The entries of a tree, read off in order. */
  function WalkTree(tree: Tree, depth: nat): seq<Entry>
    decreases tree
  {
    WalkItems(tree.items, tree.ordered, depth)
  }

  function WalkItems(items: Items, ordered: bool, depth: nat): seq<Entry>
    decreases items
  {
    match items
    case NoItems => []
    case Items(before, text, parts) =>
      WalkItems(before, ordered, depth)
      + [if before.NoItems? then Starts(depth, ordered, text) else Item(depth, text)]
      + WalkParts(parts, depth)
  }

  function WalkParts(parts: Parts, depth: nat): seq<Entry>
    decreases parts
  {
    match parts
    case NoParts => []
    case Continued(front, more) => WalkParts(front, depth) + [More(depth, more)]
    case Nested(front, list) => WalkParts(front, depth) + WalkTree(list, depth + 1)
  }

  // ---- The reader ---------------------------------------------------------------------------

  /** The stored form of the items: one string each. */
  function ItemStrings(inline: string -> string, items: Items): seq<string>
    decreases items
  {
    match items
    case NoItems => []
    case Items(before, text, parts) =>
      ItemStrings(inline, before) + [ItemString(inline, text, parts)]
  }

  function ItemString(inline: string -> string, text: string, parts: Parts): string {
    "<li>" + inline(text) + Flat(PartsTokens(inline, parts)) + "</li>"
  }

  lemma ItemTags()
    ensures Shown(Open("li", "")) == "<li>" && Shown(Close("li")) == "</li>"
  {
  }

  lemma ItemIsFlat(inline: string -> string, text: string, parts: Parts)
    ensures Flat(Wrapped("li", "", [Text(inline(text))] + PartsTokens(inline, parts))) ==
      ItemString(inline, text, parts)
  {
    hide Shown;
    var first, more := [Text(inline(text))], PartsTokens(inline, parts);
    ItemTags();
    FlatWrapped("li", "", first + more);
    FlatAppend(first, more);
    assert Flat(first) == inline(text) by { FlatOne(first[0]); TextIsShown(inline(text)); }
    hide Wrapped, Flat, PartsTokens;
    assert "<li>" + (inline(text) + Flat(more)) == "<li>" + inline(text) + Flat(more);
  }

  lemma TextIsShown(text: string)
    ensures Shown(Text(text)) == text
  {
  }

  lemma {:induction false} StringsAreTokens(inline: string -> string, items: Items)
    ensures Concat(ItemStrings(inline, items)) == Flat(ItemsTokens(inline, items))
    decreases items
  {
    hide Shown, ItemString, Flat, Wrapped, PartsTokens, Concat;
    if items.Items? {
      var inside := [Text(inline(items.text))] + PartsTokens(inline, items.parts);
      StringsAreTokens(inline, items.before);
      ConcatSnoc(ItemStrings(inline, items.before), ItemString(inline, items.text, items.parts));
      FlatAppend(ItemsTokens(inline, items.before), Wrapped("li", "", inside));
      ItemIsFlat(inline, items.text, items.parts);
    } else {
      NothingShown();
    }
  }

  lemma NothingShown()
    ensures Concat([]) == "" && Flat([]) == ""
  {
  }

  /** Every stored item ends in its closing tag, so cutting five characters removes
      just that, whatever the item holds. */
  lemma CutAndAdd(inline: string -> string, text: string, parts: Parts, later: Parts, added: string)
    requires Flat(PartsTokens(inline, later)) == Flat(PartsTokens(inline, parts)) + added
    ensures var s := ItemString(inline, text, parts);
      |s| >= 5 && s[..|s| - 5] + added + "</li>" == ItemString(inline, text, later)
  {
    hide Flat, PartsTokens;
    var s, inside := ItemString(inline, text, parts), Flat(PartsTokens(inline, parts));
    assert s[..|s| - 5] == "<li>" + inline(text) + inside;
    assert "<li>" + inline(text) + inside + added == "<li>" + inline(text) + (inside + added);
  }

  function LastItem(items: Items, parts: Parts): Items
    requires items.Items?
  {
    items.(parts := parts)
  }

  /** The last item with something added before its closing tag. */
  function WithLast(items: seq<string>, added: string): seq<string>
    requires items != [] && |items[|items| - 1]| >= 5
  {
    items[..|items| - 1] + [items[|items| - 1][..|items[|items| - 1]| - 5] + added + "</li>"]
  }

  lemma AddedString(inline: string -> string, read: Items, later: Parts, added: string)
    requires read.Items? && Flat(PartsTokens(inline, later)) == Flat(PartsTokens(inline, read.parts)) + added
    ensures var items := ItemStrings(inline, read);
      items != [] && |items[|items| - 1]| >= 5 && WithLast(items, added) == ItemStrings(inline, LastItem(read, later))
  {
    hide Flat, PartsTokens, ItemString;
    CutAndAdd(inline, read.text, read.parts, later, added);
    assert ItemStrings(inline, read)[..|ItemStrings(inline, read)| - 1] == ItemStrings(inline, read.before);
  }

  lemma ContinuedString(inline: string -> string, read: Items, more: string)
    requires read.Items?
    ensures var items := ItemStrings(inline, read);
      && items != [] && |items[|items| - 1]| >= 5
      && WithLast(items, " " + inline(more)) == ItemStrings(inline, LastItem(read, Continued(read.parts, more)))
  {
    hide Flat, Shown, ItemStrings, WithLast;
    var added := Text(" " + inline(more));
    FlatAppend(PartsTokens(inline, read.parts), [added]);
    FlatOne(added);
    TextIsShown(" " + inline(more));
    AddedString(inline, read, Continued(read.parts, more), " " + inline(more));
  }

  lemma NestedString(inline: string -> string, read: Items, list: Tree)
    requires read.Items?
    ensures var items := ItemStrings(inline, read);
      && items != [] && |items[|items| - 1]| >= 5
      && WithLast(items, Flat(TreeTokens(inline, list))) ==
        ItemStrings(inline, LastItem(read, Nested(read.parts, list)))
  {
    hide Flat, ItemStrings, WithLast, TreeTokens;
    FlatAppend(PartsTokens(inline, read.parts), TreeTokens(inline, list));
    AddedString(inline, read, Nested(read.parts, list), Flat(TreeTokens(inline, list)));
  }

  lemma FreshString(inline: string -> string, read: Items, text: string)
    ensures ItemStrings(inline, read) + ["<li>" + inline(text) + "</li>"] ==
      ItemStrings(inline, Items(read, text, NoParts))
  {
    assert "<li>" + inline(text) + Flat([]) + "</li>" == "<li>" + inline(text) + "</li>";
  }

  lemma TreeString(inline: string -> string, tree: Tree)
    ensures "<" + TagOf(tree.ordered) + ">" + Concat(ItemStrings(inline, tree.items)) + "</" + TagOf(tree.ordered) + ">"
      == Flat(TreeTokens(inline, tree))
  {
    hide Flat, Concat, ItemStrings, ItemsTokens, Wrapped;
    StringsAreTokens(inline, tree.items);
    FlatWrapped(TagOf(tree.ordered), "", ItemsTokens(inline, tree.items));
    assert "<" + TagOf(tree.ordered) + "" == "<" + TagOf(tree.ordered);
  }

  /** Line i does not belong to a list of this indent, nor do the blank lines before it. */
  predicate Ends(lines: seq<string>, i: nat, indent: nat)
    requires i <= |lines|
  {
    i < |lines| ==>
      match LineOf(lines[i])
      case Blank => !Bridges(lines, i, indent)
      case Bullet(own, _, _) => own < indent
      case Other(own, _) => own <= indent
  }

  /** After the blank lines from i on comes a list line of at least this indent. */
  predicate Bridges(lines: seq<string>, i: nat, indent: nat)
    requires i <= |lines|
  {
    var j := NextText(lines, i);
    j < |lines| && LineOf(lines[j]).Bullet? && LineOf(lines[j]).indent >= indent
  }

  predicate Tops(stack: seq<nat>, indent: nat) {
    stack == [] || stack[|stack| - 1] < indent
  }

  lemma PopOne(stack: seq<nat>, indent: nat, own: nat)
    ensures own < indent ==> UpTo(stack + [indent], own) == UpTo(stack, own)
    ensures own <= indent ==> Below(stack + [indent], own) == Below(stack, own)
  {
    assert (stack + [indent])[..|stack|] == stack;
  }

  /** Where a list ends it makes no difference that it was open. */
  lemma EndsAlike(lines: seq<string>, i: nat, root: nat, stack: seq<nat>, indent: nat)
    requires i <= |lines| && Ends(lines, i, indent)
    ensures Outline(lines, i, root, stack + [indent]) == Outline(lines, i, root, stack)
  {
    hide LineOf, UpTo, Below;
    if i < |lines| {
      match LineOf(lines[i])
      case Blank =>
        var j := NextText(lines, i);
        if Bridges(lines, i, root) {
          PopOne(stack, indent, LineOf(lines[j]).indent);
          NonBlankAlike(lines, j, root, stack + [indent], stack);
        }
      case Bullet(own, _, _) => PopOne(stack, indent, own);
      case Other(own, _) => PopOne(stack, indent, own);
    }
  }

  lemma NonBlankAlike(lines: seq<string>, i: nat, root: nat, a: seq<nat>, b: seq<nat>)
    requires i < |lines| && LineOf(lines[i]).Bullet?
    requires UpTo(a, LineOf(lines[i]).indent) == UpTo(b, LineOf(lines[i]).indent)
    ensures Outline(lines, i, root, a) == Outline(lines, i, root, b)
  {
    hide LineOf, UpTo, Below;
  }

  lemma PrependTwice(a: seq<Entry>, b: seq<Entry>, rest: Outcome)
    ensures Prepend(a, Prepend(b, rest)) == Prepend(a + b, rest)
  {
    assert a + (b + rest.entries) == a + b + rest.entries;
  }

  lemma FirstItem(lines: seq<string>, start: nat, root: nat, stack: seq<nat>, indent: nat)
    requires start < |lines| && LineOf(lines[start]).Bullet? && LineOf(lines[start]).indent == indent
    requires root <= indent && Tops(stack, indent)
    ensures var line := LineOf(lines[start]);
      Outline(lines, start, root, stack) ==
      Prepend([Starts(|stack| + 1, line.ordered, line.text)], Outline(lines, start + 1, root, stack + [indent]))
  {
    hide LineOf;
    assert UpTo(stack, indent) == stack;
  }

  lemma NextItem(lines: seq<string>, i: nat, root: nat, stack: seq<nat>, indent: nat)
    requires i < |lines| && LineOf(lines[i]).Bullet? && LineOf(lines[i]).indent == indent && root <= indent
    ensures Outline(lines, i, root, stack + [indent]) ==
      Prepend([Item(|stack| + 1, LineOf(lines[i]).text)], Outline(lines, i + 1, root, stack + [indent]))
  {
    hide LineOf;
    assert UpTo(stack + [indent], indent) == stack + [indent];
  }

  lemma NextMore(lines: seq<string>, i: nat, root: nat, stack: seq<nat>, indent: nat)
    requires i < |lines| && LineOf(lines[i]).Other? && LineOf(lines[i]).indent > indent && root <= indent
    ensures Outline(lines, i, root, stack + [indent]) ==
      Prepend([More(|stack| + 1, LineOf(lines[i]).text)], Outline(lines, i + 1, root, stack + [indent]))
  {
    hide LineOf;
    var own := LineOf(lines[i]).indent;
    assert Below(stack + [indent], own) == stack + [indent];
  }

  lemma NextGap(lines: seq<string>, i: nat, root: nat, stack: seq<nat>, indent: nat)
    requires i < |lines| && LineOf(lines[i]).Blank? && Bridges(lines, i, indent) && root <= indent
    ensures Outline(lines, i, root, stack + [indent]) == Outline(lines, NextText(lines, i), root, stack + [indent])
  {
    hide LineOf;
  }

  /** The list being read: where it starts, its indent, and the lists around it. */
  datatype Level = Level(start: nat, indent: nat, root: nat, stack: seq<nat>)

  ghost predicate IsLevel(lines: seq<string>, l: Level) {
    && l.start < |lines| && LineOf(lines[l.start]).Bullet? && LineOf(lines[l.start]).indent == l.indent
    && l.root <= l.indent && Tops(l.stack, l.indent)
  }

  /** What has been read of a list, against the outline of its lines. */
  ghost predicate Reading(lines: seq<string>, l: Level, i: nat, read: Items)
    requires l.start < |lines| && i <= |lines|
  {
    Outline(lines, l.start, l.root, l.stack) ==
    Prepend(WalkItems(read, IsOrdered(lines[l.start]), |l.stack| + 1), Outline(lines, i, l.root, l.stack + [l.indent]))
  }

  lemma ReadFirst(lines: seq<string>, l: Level)
    requires IsLevel(lines, l)
    ensures Reading(lines, l, l.start + 1, Items(NoItems, LineOf(lines[l.start]).text, NoParts))
  {
    hide Outline;
    FirstItem(lines, l.start, l.root, l.stack, l.indent);
    hide LineOf;
    var line := LineOf(lines[l.start]);
    var entries := [Starts(|l.stack| + 1, line.ordered, line.text)];
    assert [] + entries + [] == entries;
    assert WalkItems(Items(NoItems, line.text, NoParts), line.ordered, |l.stack| + 1) == entries;
    assert line.ordered == IsOrdered(lines[l.start]) by { BulletOrder(lines[l.start]); }
  }

  lemma BulletOrder(line: string)
    requires LineOf(line).Bullet?
    ensures LineOf(line).ordered == IsOrdered(line)
  {
  }

  lemma ReadItem(lines: seq<string>, l: Level, i: nat, read: Items)
    requires IsLevel(lines, l) && i < |lines| && Reading(lines, l, i, read) && read.Items?
    requires LineOf(lines[i]).Bullet? && LineOf(lines[i]).indent == l.indent
    ensures Reading(lines, l, i + 1, Items(read, LineOf(lines[i]).text, NoParts))
  {
    hide LineOf, Outline, IsOrdered;
    NextItem(lines, i, l.root, l.stack, l.indent);
    var ordered, depth := IsOrdered(lines[l.start]), |l.stack| + 1;
    var walked, entry := WalkItems(read, ordered, depth), Item(depth, LineOf(lines[i]).text);
    PrependTwice(walked, [entry], Outline(lines, i + 1, l.root, l.stack + [l.indent]));
    assert WalkItems(Items(read, LineOf(lines[i]).text, NoParts), ordered, depth) == walked + [entry];
  }

  lemma ReadMore(lines: seq<string>, l: Level, i: nat, read: Items)
    requires IsLevel(lines, l) && i < |lines| && Reading(lines, l, i, read) && read.Items?
    requires LineOf(lines[i]).Other? && LineOf(lines[i]).indent > l.indent
    ensures Reading(lines, l, i + 1, LastItem(read, Continued(read.parts, LineOf(lines[i]).text)))
  {
    hide LineOf, Outline, IsOrdered;
    NextMore(lines, i, l.root, l.stack, l.indent);
    var ordered, depth := IsOrdered(lines[l.start]), |l.stack| + 1;
    var walked, entry := WalkItems(read, ordered, depth), More(depth, LineOf(lines[i]).text);
    PrependTwice(walked, [entry], Outline(lines, i + 1, l.root, l.stack + [l.indent]));
    WalkGrows(read, ordered, depth, Continued(read.parts, LineOf(lines[i]).text), [entry]);
  }

  /** What a nested call promises about the list it has read. */
  ghost predicate ReadsList(lines: seq<string>, i: nat, next: nat, root: nat, stack: seq<nat>, list: Tree)
    requires i <= |lines| && next <= |lines|
  {
    Outline(lines, i, root, stack) == Prepend(WalkTree(list, |stack| + 1), Outline(lines, next, root, stack))
  }

  lemma ReadNested(lines: seq<string>, l: Level, i: nat, next: nat, read: Items, list: Tree)
    requires IsLevel(lines, l) && i <= |lines| && next <= |lines| && Reading(lines, l, i, read) && read.Items?
    requires ReadsList(lines, i, next, l.root, l.stack + [l.indent], list)
    ensures Reading(lines, l, next, LastItem(read, Nested(read.parts, list)))
  {
    hide LineOf, Outline, IsOrdered;
    var ordered, depth := IsOrdered(lines[l.start]), |l.stack| + 1;
    var walked, entries := WalkItems(read, ordered, depth), WalkTree(list, depth + 1);
    PrependTwice(walked, entries, Outline(lines, next, l.root, l.stack + [l.indent]));
    WalkGrows(read, ordered, depth, Nested(read.parts, list), entries);
  }

  lemma ReadGap(lines: seq<string>, l: Level, i: nat, read: Items)
    requires IsLevel(lines, l) && i < |lines| && Reading(lines, l, i, read)
    requires LineOf(lines[i]).Blank? && Bridges(lines, i, l.indent)
    ensures Reading(lines, l, NextText(lines, i), read)
  {
    hide LineOf, Outline, IsOrdered;
    NextGap(lines, i, l.root, l.stack, l.indent);
  }

  lemma ReadAll(lines: seq<string>, l: Level, i: nat, read: Items)
    requires IsLevel(lines, l) && i <= |lines| && Reading(lines, l, i, read) && Ends(lines, i, l.indent)
    ensures ReadsList(lines, l.start, i, l.root, l.stack, Tree(IsOrdered(lines[l.start]), read))
  {
    hide LineOf, Outline, IsOrdered;
    EndsAlike(lines, i, l.root, l.stack, l.indent);
  }

  /** What is added to the last item comes last in the walk. */
  lemma WalkGrows(read: Items, ordered: bool, depth: nat, parts: Parts, added: seq<Entry>)
    requires read.Items? && WalkParts(parts, depth) == WalkParts(read.parts, depth) + added
    ensures WalkItems(LastItem(read, parts), ordered, depth) == WalkItems(read, ordered, depth) + added
  {
  }

  /** The loop's state: the strings in hand are the items read so far. */
  ghost predicate Holds(inline: string -> string, lines: seq<string>, l: Level, i: nat, read: Items,
      items: seq<string>)
  {
    && IsLevel(lines, l) && l.start <= i <= |lines| && items == ItemStrings(inline, read) && SolidItems(read)
    && (i == l.start <==> read == NoItems) && (read.Items? ==> Reading(lines, l, i, read))
  }

  lemma HoldsAtStart(inline: string -> string, lines: seq<string>, l: Level)
    requires IsLevel(lines, l)
    ensures l.start < |lines| && Holds(inline, lines, l, l.start, NoItems, [])
  {
  }

  lemma HoldsLevel(inline: string -> string, lines: seq<string>, l: Level, i: nat, read: Items, items: seq<string>)
    requires Holds(inline, lines, l, i, read, items)
    ensures IsLevel(lines, l)
  {
  }

  /** Only a list line of its own indent comes before the first item. */
  lemma HasItems(inline: string -> string, lines: seq<string>, l: Level, i: nat, read: Items, items: seq<string>)
    requires Holds(inline, lines, l, i, read, items)
    requires i == |lines| || LineOf(lines[i]).Blank? || LineOf(lines[i]).indent != l.indent || LineOf(lines[i]).Other?
    ensures read.Items? && items != [] && i > l.start
  {
    hide LineOf, Reading, ItemString;
  }

  lemma HoldsGap(inline: string -> string, lines: seq<string>, l: Level, i: nat, read: Items, items: seq<string>)
    requires Holds(inline, lines, l, i, read, items) && i < |lines|
    requires LineOf(lines[i]).Blank?
    requires var j := NextText(lines, i); j < |lines| && LineOf(lines[j]).Bullet? && LineOf(lines[j]).indent >= l.indent
    ensures i < NextText(lines, i) && Holds(inline, lines, l, NextText(lines, i), read, items)
  {
    hide LineOf, Reading, ItemStrings;
    HasItemsAt(lines, l, i);
    ReadGap(lines, l, i, read);
  }

  lemma HasItemsAt(lines: seq<string>, l: Level, i: nat)
    requires IsLevel(lines, l) && i < |lines| && (LineOf(lines[i]).Blank? || LineOf(lines[i]).Other?)
    ensures i != l.start && (LineOf(lines[i]).Blank? ==> NextText(lines, i) > i)
  {
    hide LineOf;
  }

  lemma SolidFresh(read: Items, text: string)
    requires SolidItems(read)
    ensures SolidItems(Items(read, text, NoParts))
  {
  }

  lemma SolidMore(read: Items, text: string)
    requires SolidItems(read) && read.Items?
    ensures SolidItems(LastItem(read, Continued(read.parts, text)))
  {
    assert SolidParts(Continued(read.parts, text));
  }

  lemma SolidNested(read: Items, list: Tree)
    requires SolidItems(read) && read.Items? && Solid(list)
    ensures SolidItems(LastItem(read, Nested(read.parts, list)))
  {
    assert SolidParts(Nested(read.parts, list));
  }

  lemma HoldsMore(inline: string -> string, lines: seq<string>, l: Level, i: nat, read: Items, items: seq<string>)
    requires Holds(inline, lines, l, i, read, items) && i < |lines| && read.Items?
    requires LineOf(lines[i]).Other? && LineOf(lines[i]).indent > l.indent
    ensures var text := LineOf(lines[i]).text;
      && items != [] && |items[|items| - 1]| >= 5
      && Holds(inline, lines, l, i + 1, LastItem(read, Continued(read.parts, text)),
               WithLast(items, " " + inline(text)))
  {
    hide LineOf, Reading, ItemStrings, WithLast, SolidItems;
    SolidMore(read, LineOf(lines[i]).text);
    ReadMore(lines, l, i, read);
    ContinuedString(inline, read, LineOf(lines[i]).text);
  }

  lemma HoldsNested(inline: string -> string, lines: seq<string>, l: Level, i: nat, next: nat, read: Items,
      items: seq<string>, list: Tree)
    requires Holds(inline, lines, l, i, read, items) && i < next <= |lines| && read.Items? && Solid(list)
    requires ReadsList(lines, i, next, l.root, l.stack + [l.indent], list)
    ensures items != [] && |items[|items| - 1]| >= 5
    ensures Holds(inline, lines, l, next, LastItem(read, Nested(read.parts, list)),
                  WithLast(items, Flat(TreeTokens(inline, list))))
  {
    hide LineOf, Reading, ItemStrings, WithLast, ReadsList, Flat, TreeTokens, SolidItems;
    SolidNested(read, list);
    ReadNested(lines, l, i, next, read, list);
    NestedString(inline, read, list);
  }

  lemma HoldsItem(inline: string -> string, lines: seq<string>, l: Level, i: nat, read: Items, items: seq<string>)
    requires Holds(inline, lines, l, i, read, items) && i < |lines|
    requires LineOf(lines[i]).Bullet? && LineOf(lines[i]).indent == l.indent
    ensures var text := LineOf(lines[i]).text;
      Holds(inline, lines, l, i + 1, Items(read, text, NoParts), items + ["<li>" + inline(text) + "</li>"])
  {
    hide LineOf, Reading, ItemStrings, SolidItems;
    SolidFresh(read, LineOf(lines[i]).text);
    FreshString(inline, read, LineOf(lines[i]).text);
    if read.NoItems? {
      ReadFirst(lines, l);
    } else {
      ReadItem(lines, l, i, read);
    }
  }

  lemma InnerIsLevel(lines: seq<string>, l: Level, i: nat)
    requires IsLevel(lines, l) && i < |lines|
    requires LineOf(lines[i]).Bullet? && LineOf(lines[i]).indent > l.indent
    ensures IsLevel(lines, Level(i, LineOf(lines[i]).indent, l.root, l.stack + [l.indent]))
  {
    hide LineOf;
  }

  lemma HoldsAll(inline: string -> string, lines: seq<string>, l: Level, i: nat, read: Items, items: seq<string>)
    requires Holds(inline, lines, l, i, read, items) && i <= |lines| && (i == |lines| || Ends(lines, i, l.indent))
    ensures l.start < i && l.start < |lines| && Solid(Tree(IsOrdered(lines[l.start]), read))
    ensures var ordered := IsOrdered(lines[l.start]);
      && "<" + TagOf(ordered) + ">" + Concat(items) + "</" + TagOf(ordered) + ">" ==
        Flat(TreeTokens(inline, Tree(ordered, read)))
      && ReadsList(lines, l.start, i, l.root, l.stack, Tree(ordered, read))
  {
    hide LineOf, Reading, ItemStrings, TreeTokens, TagOf, IsOrdered;
    ReadAll(lines, l, i, read);
    TreeString(inline, Tree(IsOrdered(lines[l.start]), read));
  }

  method SkipBlanks(lines: seq<string>, i: nat) returns (j: nat)
    requires i < |lines| && LineOf(lines[i]).Blank?
    ensures j == NextText(lines, i)
  {
    hide LineOf;
    j := i + 1;
    while j < |lines| && LineOf(lines[j]).Blank?
      invariant i < j <= |lines| && NextText(lines, j) == NextText(lines, i)
    {
      j := j + 1;
    }
  }

  /** `items[-1] = items[-1][:-5] + added + "</li>"` */
  method AddToLast(items: seq<string>, added: string) returns (later: seq<string>)
    requires items != [] && |items[|items| - 1]| >= 5
    ensures later == WithLast(items, added)
  {
    var last := items[|items| - 1];
    later := items[|items| - 1 := last[..|last| - 5] + added + "</li>"];
  }

  lemma EndsHere(lines: seq<string>, i: nat, indent: nat)
    requires i < |lines|
    requires !LineOf(lines[i]).Blank? ==>
      if LineOf(lines[i]).Bullet? then LineOf(lines[i]).indent < indent else LineOf(lines[i]).indent <= indent
    requires LineOf(lines[i]).Blank? ==>
      var j := NextText(lines, i);
      j < |lines| && LineOf(lines[j]).Bullet? ==> LineOf(lines[j]).indent < indent
    ensures Ends(lines, i, indent)
  {
    hide LineOf, NextText;
  }

  /** `parse`: one list and the lists inside it, from line `start` on. */
  method Parse(inline: string -> string, lines: seq<string>, start: nat, indent: nat, ghost l: Level)
    returns (html: string, next: nat, ghost tree: Tree)
    requires IsLevel(lines, l) && l.start == start && l.indent == indent
    ensures start < next <= |lines| && (next == |lines| || Ends(lines, next, indent))
    ensures html == Flat(TreeTokens(inline, tree)) && ReadsList(lines, start, next, l.root, l.stack, tree)
      && Solid(tree)
    decreases |lines| - start
  {
    hide *;
    HoldsAtStart(inline, lines, l);
    var ordered := IsOrdered(lines[start]);
    var items: seq<string> := [];
    ghost var read := NoItems;
    var idx := start;
    while idx < |lines|
      invariant start <= idx <= |lines| && Holds(inline, lines, l, idx, read, items)
    {
      var line := LineOf(lines[idx]);
      if line.Blank? {
        var j := SkipBlanks(lines, idx);
        if j < |lines| && LineOf(lines[j]).Bullet? && LineOf(lines[j]).indent >= indent {
          HoldsGap(inline, lines, l, idx, read, items);
          idx := j;
          continue;
        }
        EndsHere(lines, idx, indent);
        break;
      }
      if line.Other? {
        HasItems(inline, lines, l, idx, read, items);
        if items != [] && line.indent > indent {
          HoldsMore(inline, lines, l, idx, read, items);
          items := AddToLast(items, " " + inline(line.text));
          read := LastItem(read, Continued(read.parts, line.text));
          idx := idx + 1;
          continue;
        }
        EndsHere(lines, idx, indent);
        break;
      }
      if line.indent < indent {
        EndsHere(lines, idx, indent);
        break;
      }
      if line.indent > indent {
        HasItems(inline, lines, l, idx, read, items);
        ghost var inner := Level(idx, line.indent, l.root, l.stack + [indent]);
        assert IsLevel(lines, inner) by { HoldsLevel(inline, lines, l, idx, read, items); InnerIsLevel(lines, l, idx); }
        var sub, after;
        ghost var list;
        sub, after, list := Parse(inline, lines, idx, line.indent, inner);
        HoldsNested(inline, lines, l, idx, after, read, items, list);
        if items != [] {
          items := AddToLast(items, sub);
        }
        read := LastItem(read, Nested(read.parts, list));
        idx := after;
        continue;
      }
      HoldsItem(inline, lines, l, idx, read, items);
      items := items + ["<li>" + inline(line.text) + "</li>"];
      read := Items(read, line.text, NoParts);
      idx := idx + 1;
    }
    next := idx;
    tree := Tree(ordered, read);
    html := "<" + TagOf(ordered) + ">" + Concat(items) + "</" + TagOf(ordered) + ">";
    HoldsAll(inline, lines, l, idx, read, items);
  }

  // ---- A whole list ---------------------------------------------------------------------------

  lemma NothingLeft(lines: seq<string>, i: nat, indent: nat)
    requires i <= |lines| && (i == |lines| || Ends(lines, i, indent))
    ensures Outline(lines, i, indent, []) == Outcome([], i)
  {
    hide LineOf;
  }

  /** `_list`: the tree it shows is the one-pass outline of the lines it consumes. */
  method ReadList(inline: string -> string, lines: seq<string>, start: nat)
    returns (html: string, next: nat, ghost tree: Tree)
    requires start < |lines| && LineOf(lines[start]).Bullet?
    ensures start < next <= |lines|
    ensures html == Flat(TreeTokens(inline, tree)) && Solid(tree)
    ensures Outline(lines, start, LineOf(lines[start]).indent, []) == Outcome(WalkTree(tree, 1), next)
  {
    hide LineOf, Outline, WalkTree, TreeTokens, Flat, Ends;
    var indent := LineOf(lines[start]).indent;
    html, next, tree := Parse(inline, lines, start, indent, Level(start, indent, indent, []));
    NothingLeft(lines, next, indent);
    assert WalkTree(tree, 1) + [] == WalkTree(tree, 1);
  }

  function EntryText(e: Entry): string {
    e.text
  }

  function Texts(entries: seq<Entry>): seq<string> {
    if entries == [] then [] else [EntryText(entries[0])] + Texts(entries[1..])
  }

  /** The texts of the lines that are not blank. */
  function LineTexts(lines: seq<string>, from: nat, to: nat): seq<string>
    requires from <= to <= |lines|
    decreases |lines| - from
  {
    if from == to then []
    else if LineOf(lines[from]).Blank? then LineTexts(lines, from + 1, to)
    else [LineOf(lines[from]).text] + LineTexts(lines, from + 1, to)
  }

  lemma TextOfLine(lines: seq<string>, from: nat, to: nat)
    requires from < to <= |lines| && !LineOf(lines[from]).Blank?
    ensures LineTexts(lines, from, to) == [LineOf(lines[from]).text] + LineTexts(lines, from + 1, to)
  {
    hide LineOf;
  }

  lemma BlankHasNoText(lines: seq<string>, from: nat, to: nat)
    requires from < to <= |lines| && LineOf(lines[from]).Blank?
    ensures LineTexts(lines, from, to) == LineTexts(lines, from + 1, to)
  {
    hide LineOf;
  }

  lemma {:induction false} BlanksHaveNoText(lines: seq<string>, from: nat, to: nat)
    requires from <= |lines| && NextText(lines, from) <= to <= |lines|
    ensures LineTexts(lines, from, to) == LineTexts(lines, NextText(lines, from), to)
    decreases |lines| - from
  {
    hide LineOf, LineTexts;
    if from < |lines| && LineOf(lines[from]).Blank? {
      BlankHasNoText(lines, from, to);
      BlanksHaveNoText(lines, from + 1, to);
    }
  }

  /** Every line of a list that is not blank gives its text to exactly one entry, in order. */
  lemma {:induction false} EveryTextOnceInOrder(lines: seq<string>, i: nat, root: nat, stack: seq<nat>)
    requires i <= |lines|
    ensures var o := Outline(lines, i, root, stack);
      i <= o.next <= |lines| && Texts(o.entries) == LineTexts(lines, i, o.next)
    decreases |lines| - i
  {
    hide LineOf, Texts, LineTexts, UpTo, Below;
    NoTexts(lines, i);
    if i < |lines| {
      match LineOf(lines[i])
      case Blank =>
        if Bridges(lines, i, root) {
          var j := NextText(lines, i);
          EveryTextOnceInOrder(lines, j, root, stack);
          BlanksHaveNoText(lines, i, Outline(lines, j, root, stack).next);
        }
      case Bullet(indent, ordered, text) =>
        var lists := UpTo(stack, indent);
        if indent >= root {
          var known := lists != [] && lists[|lists| - 1] == indent;
          var entry := if known then Item(|lists|, text) else Starts(|lists| + 1, ordered, text);
          var rest := Outline(lines, i + 1, root, if known then lists else lists + [indent]);
          EveryTextOnceInOrder(lines, i + 1, root, if known then lists else lists + [indent]);
          TextsPrepend(entry, rest);
          TextOfLine(lines, i, rest.next);
        }
      case Other(indent, text) =>
        var lists := Below(stack, indent);
        if indent > root {
          var rest := Outline(lines, i + 1, root, lists);
          EveryTextOnceInOrder(lines, i + 1, root, lists);
          TextsPrepend(More(|lists|, text), rest);
          TextOfLine(lines, i, rest.next);
        }
    }
  }

  lemma NoTexts(lines: seq<string>, i: nat)
    requires i <= |lines|
    ensures Texts([]) == [] && LineTexts(lines, i, i) == []
  {
  }

  lemma TextsPrepend(e: Entry, rest: Outcome)
    ensures Texts(Prepend([e], rest).entries) == [EntryText(e)] + Texts(rest.entries)
  {
    assert ([e] + rest.entries)[1..] == rest.entries;
  }

  /** The texts of a tree in reading order: its items', each before what is inside it. */
  lemma TreeHoldsEveryLine(lines: seq<string>, start: nat, next: nat, tree: Tree)
    requires start < |lines| && LineOf(lines[start]).Bullet?
    requires Outline(lines, start, LineOf(lines[start]).indent, []) == Outcome(WalkTree(tree, 1), next)
    ensures start <= next <= |lines| && Texts(WalkTree(tree, 1)) == LineTexts(lines, start, next)
  {
    hide LineOf, Outline, WalkTree;
    EveryTextOnceInOrder(lines, start, LineOf(lines[start]).indent, []);
  }

  // ---- The outline tells the tree ---------------------------------------------------------------

  /** The line of an item of a list at depth d. */
  predicate IsHead(e: Entry, d: nat) {
    e.depth == d && !e.More?
  }

  predicate IsStart(e: Entry, d: nat) {
    e.depth == d && e.Starts?
  }

  /** What follows an item's own line comes from inside the item. */
  lemma {:induction false} PartsAreInside(parts: Parts, d: nat)
    ensures forall e :: e in WalkParts(parts, d) ==> e.depth >= d && !IsHead(e, d)
    decreases parts
  {
    match parts
    case NoParts =>
    case Continued(front, _) => PartsAreInside(front, d);
    case Nested(front, list) =>
      PartsAreInside(front, d);
      ItemsAreDeep(list.items, list.ordered, d + 1);
  }

  lemma {:induction false} ItemsAreDeep(items: Items, ordered: bool, d: nat)
    ensures forall e :: e in WalkItems(items, ordered, d) ==> e.depth >= d
    decreases items
  {
    if items.Items? {
      ItemsAreDeep(items.before, ordered, d);
      PartsAreInside(items.parts, d);
    }
  }

  /** The entries of a list with an item: its first line, and nothing that starts it again. */
  lemma {:induction false} ListStartsOnce(items: Items, ordered: bool, d: nat)
    requires items.Items?
    ensures var w := WalkItems(items, ordered, d);
      && w != [] && IsStart(w[0], d) && w[0].ordered == ordered
      && forall e :: e in w[1..] ==> e.depth >= d && !IsStart(e, d)
    decreases items
  {
    PartsAreInside(items.parts, d);
    var before, inside := WalkItems(items.before, ordered, d), WalkParts(items.parts, d);
    var own := if items.before.NoItems? then Starts(d, ordered, items.text) else Item(d, items.text);
    var w := before + [own] + inside;
    if items.before.Items? {
      ListStartsOnce(items.before, ordered, d);
      assert w[1..] == before[1..] + [own] + inside;
    } else {
      assert w == [own] + inside && w[1..] == inside;
    }
  }

  /** Two ways to split a sequence at its last element of a kind are the same. */
  lemma SplitsAlike(a: seq<Entry>, x: Entry, b: seq<Entry>, a': seq<Entry>, x': Entry, b': seq<Entry>,
      kind: Entry -> bool)
    requires a + [x] + b == a' + [x'] + b' && kind(x) && kind(x')
    requires (forall e :: e in b ==> !kind(e)) && (forall e :: e in b' ==> !kind(e))
    ensures a == a' && x == x' && b == b'
  {
    var s := a + [x] + b;
    assert s[|a|] == x && s[|a'|] == x';
    forall k | |a| < k < |s| ensures !kind(s[k]) {
      assert s[k] == b[k - |a| - 1];
    }
    forall k | |a'| < k < |s| ensures !kind(s[k]) {
      assert s[k] == b'[k - |a'| - 1];
    }
    assert |a| == |a'|;
    assert a == s[..|a|] && a' == s[..|a'|];
    assert b == s[|a| + 1..] && b' == s[|a'| + 1..];
  }

  /** Trees with the same outline are the same tree. */
  lemma {:induction false} TreeByOutline(s: Tree, t: Tree, d: nat)
    requires Solid(s) && Solid(t) && WalkTree(s, d) == WalkTree(t, d)
    ensures s == t
    decreases s, t
  {
    ListStartsOnce(s.items, s.ordered, d);
    ListStartsOnce(t.items, t.ordered, d);
    ItemsByOutline(s.items, s.ordered, t.items, t.ordered, d);
  }

  lemma {:induction false} ItemsByOutline(s: Items, ordered: bool, t: Items, ordered': bool, d: nat)
    requires SolidItems(s) && SolidItems(t) && WalkItems(s, ordered, d) == WalkItems(t, ordered', d)
    ensures s == t
    decreases s, t
  {
    if s.Items? && t.Items? {
      var own := if s.before.NoItems? then Starts(d, ordered, s.text) else Item(d, s.text);
      var own' := if t.before.NoItems? then Starts(d, ordered', t.text) else Item(d, t.text);
      PartsAreInside(s.parts, d);
      PartsAreInside(t.parts, d);
      SplitsAlike(WalkItems(s.before, ordered, d), own, WalkParts(s.parts, d),
                  WalkItems(t.before, ordered', d), own', WalkParts(t.parts, d), e => IsHead(e, d));
      ItemsByOutline(s.before, ordered, t.before, ordered', d);
      PartsByOutline(s.parts, t.parts, d);
    }
  }

  lemma {:induction false} PartsByOutline(s: Parts, t: Parts, d: nat)
    requires SolidParts(s) && SolidParts(t) && WalkParts(s, d) == WalkParts(t, d)
    ensures s == t
    decreases s, t
  {
    if s.Nested? { NestedEndsDeeper(s, d); }
    if t.Nested? { NestedEndsDeeper(t, d); }
    if s.Continued? && t.Continued? {
      assert WalkParts(s, d)[..|WalkParts(s, d)| - 1] == WalkParts(s.front, d);
      assert WalkParts(t, d)[..|WalkParts(t, d)| - 1] == WalkParts(t.front, d);
      PartsByOutline(s.front, t.front, d);
    } else if s.Nested? && t.Nested? {
      NestedSplitsAlike(s, t, d);
      PartsByOutline(s.front, t.front, d);
      TreeByOutline(s.list, t.list, d + 1);
    }
  }

  lemma NestedSplit(parts: Parts, d: nat)
    requires parts.Nested? && Solid(parts.list)
    ensures var w := WalkTree(parts.list, d + 1);
      && w != [] && IsStart(w[0], d + 1) && (forall e :: e in w[1..] ==> !IsStart(e, d + 1))
      && WalkParts(parts, d) == WalkParts(parts.front, d) + [w[0]] + w[1..]
  {
    ListStartsOnce(parts.list.items, parts.list.ordered, d + 1);
    var w := WalkTree(parts.list, d + 1);
    assert w == [w[0]] + w[1..];
  }

  lemma NestedSplitsAlike(s: Parts, t: Parts, d: nat)
    requires s.Nested? && t.Nested? && Solid(s.list) && Solid(t.list) && WalkParts(s, d) == WalkParts(t, d)
    ensures WalkParts(s.front, d) == WalkParts(t.front, d) && WalkTree(s.list, d + 1) == WalkTree(t.list, d + 1)
  {
    NestedSplit(s, d);
    NestedSplit(t, d);
    hide WalkTree, WalkParts, Solid, IsStart;
    var w, w' := WalkTree(s.list, d + 1), WalkTree(t.list, d + 1);
    SplitsAlike(WalkParts(s.front, d), w[0], w[1..], WalkParts(t.front, d), w'[0], w'[1..], e => IsStart(e, d + 1));
    assert w == [w[0]] + w[1..] && w' == [w'[0]] + w'[1..];
  }

  lemma NestedEndsDeeper(parts: Parts, d: nat)
    requires parts.Nested? && Solid(parts.list)
    ensures var w := WalkParts(parts, d); w != [] && w[|w| - 1].depth > d
  {
    var list := WalkTree(parts.list, d + 1);
    ItemsAreDeep(parts.list.items, parts.list.ordered, d + 1);
    ListStartsOnce(parts.list.items, parts.list.ordered, d + 1);
    assert WalkParts(parts, d)[|WalkParts(parts, d)| - 1] == list[|list| - 1];
    assert list[|list| - 1] in list;
  }
}
