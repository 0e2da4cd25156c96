/**
 The kinds of lines the converter tells apart, each as the text its pattern matches:
 what is written so is read so, and what is read so was written so.
 */
module MarkdownLines {
  import opened Basics
  import opened MarkdownBlocks
  import opened MarkdownLists
  import opened Strings

  predicate Only(s: string, c: char) {
    forall x :: x in s ==> x == c
  }

  predicate AllWord(s: string) {
    forall c :: c in s ==> IsWordChar(c)
  }

  /** Letters, digits and the underscore, by code points. */
  lemma WordCharIs(c: char)
    ensures IsWordChar(c) <==> c as int in {48, 49, 50, 51, 52, 53, 54, 55, 56, 57, 65, 66, 67, 68, 69, 70, 71,
      72, 73, 74, 75, 76, 77, 78, 79, 80, 81, 82, 83, 84, 85, 86, 87, 88, 89, 90, 95,
      97, 98, 99, 100, 101, 102, 103, 104, 105, 106, 107, 108, 109,
      110, 111, 112, 113, 114, 115, 116, 117, 118, 119, 120, 121, 122}
  {
  }

  lemma WordIsNoSpace(c: char)
    requires IsWordChar(c) || IsDigit(c) || c in "`#-*_+.>|:"
    ensures !IsSpace(c)
  {
  }

  // ---- Fences: ^```(\w*)\s*$ ------------------------------------------------------------

  lemma {:induction false} WordIsMeasured(word: string, blanks: string)
    requires AllWord(word) && AllSpace(blanks)
    ensures WordLength(word + blanks) == |word|
  {
    hide IsSpace, IsWordChar;
    if word == "" {
      assert word + blanks == blanks;
      if blanks != "" {
        assert blanks[0] in blanks;
        if IsWordChar(blanks[0]) {
          WordIsNoSpace(blanks[0]);
        }
      }
    } else {
      assert (word + blanks)[1..] == word[1..] + blanks;
      TailMembers(word);
      WordIsMeasured(word[1..], blanks);
    }
  }

  lemma {:induction false} WordIsWord(s: string)
    ensures AllWord(s[..WordLength(s)])
  {
    hide IsWordChar;
    if s != "" && IsWordChar(s[0]) {
      WordIsWord(s[1..]);
      assert s[..WordLength(s)] == [s[0]] + s[1..][..WordLength(s[1..])];
    }
  }

  lemma FenceReads(language: string, blanks: string)
    requires AllWord(language) && AllSpace(blanks)
    ensures FenceOf("```" + language + blanks) == Some(language)
  {
    hide WordLength, IsBlank;
    var line := "```" + language + blanks;
    WordIsMeasured(language, blanks);
    assert line[3..] == language + blanks && line[3 + |language|..] == blanks;
    assert line[3..3 + |language|] == language;
    BlankIff(blanks);
  }

  lemma FenceIsWritten(line: string) returns (blanks: string)
    requires FenceOf(line).Some?
    ensures var language := FenceOf(line).value;
      AllWord(language) && AllSpace(blanks) && line == "```" + language + blanks
  {
    hide WordLength, IsBlank;
    var n := WordLength(line[3..]);
    blanks := line[3 + n..];
    WordIsWord(line[3..]);
    BlankIff(blanks);
    assert line[3..][..n] == line[3..3 + n];
    assert line == line[..3] + line[3..3 + n] + line[3 + n..];
  }

  /** A fence is closed by three backquotes and white space, whatever it was opened with. */
  lemma CloseIff(line: string)
    ensures ClosesFence(line) <==> exists blanks :: AllSpace(blanks) && line == "```" + blanks
  {
    hide IsBlank;
    if "```" <= line {
      BlankIff(line[3..]);
      assert line == "```" + line[3..];
      forall blanks | line == "```" + blanks ensures blanks == line[3..] {}
    } else {
      forall blanks ensures line != "```" + blanks {
        assert "```" <= "```" + blanks;
      }
    }
  }

  // ---- Headings: ^(#{1,6})\s+(.*)$ --------------------------------------------------------

  lemma {:induction false} HashesAre(hashes: string, rest: string)
    requires Only(hashes, '#') && (rest != "" ==> rest[0] != '#')
    ensures Hashes(hashes + rest) == |hashes|
  {
    if hashes == "" {
      assert hashes + rest == rest;
    } else {
      assert (hashes + rest)[1..] == hashes[1..] + rest;
      TailMembers(hashes);
      HashesAre(hashes[1..], rest);
    }
  }

  lemma {:induction false} HashesOnly(s: string)
    ensures Only(s[..Hashes(s)], '#')
  {
    if s != "" && s[0] == '#' {
      HashesOnly(s[1..]);
      assert s[..Hashes(s)] == [s[0]] + s[1..][..Hashes(s[1..])];
    }
  }

  lemma HeadingReads(hashes: string, rest: string)
    requires Only(hashes, '#') && 1 <= |hashes| <= 6 && rest != "" && IsSpace(rest[0])
    ensures IsHeading(hashes + rest) && Hashes(hashes + rest) == |hashes|
  {
    hide IsSpace, Hashes;
    WordIsNoSpace('#');
    HashesAre(hashes, rest);
  }

  lemma HeadingIsWritten(line: string) returns (hashes: string, rest: string)
    requires IsHeading(line)
    ensures Only(hashes, '#') && 1 <= |hashes| <= 6 && rest != "" && IsSpace(rest[0]) && line == hashes + rest
  {
    HashesOnly(line);
    hide IsSpace, Hashes;
    hashes, rest := line[..Hashes(line)], line[Hashes(line)..];
  }

  // ---- List lines: ^(\s*)([-*+]|\d+\.)\s+(.*)$ ----------------------------------------------

  predicate AllDigits(s: string) {
    forall c :: c in s ==> '0' <= c <= '9'
  }

  predicate IsMarker(m: string) {
    || m == "-" || m == "*" || m == "+"
    || (|m| >= 2 && AllDigits(m[..|m| - 1]) && m[|m| - 1] == '.')
  }

  lemma {:induction false} DigitsAre(digits: string, rest: string)
    requires AllDigits(digits) && (rest != "" ==> !IsDigit(rest[0]))
    ensures Digits(digits + rest) == |digits|
  {
    if digits == "" {
      assert digits + rest == rest;
    } else {
      assert (digits + rest)[1..] == digits[1..] + rest;
      TailMembers(digits);
      DigitsAre(digits[1..], rest);
    }
  }

  lemma {:induction false} DigitsOnly(s: string)
    ensures AllDigits(s[..Digits(s)])
  {
    if s != "" && IsDigit(s[0]) {
      DigitsOnly(s[1..]);
      assert s[..Digits(s)] == [s[0]] + s[1..][..Digits(s[1..])];
    }
  }

  lemma MarkerIsMeasured(marker: string, rest: string)
    requires IsMarker(marker)
    ensures MarkerLength(marker + rest) == |marker| && !IsSpace((marker + rest)[0])
    ensures Digits(marker + rest) > 0 <==> marker != "-" && marker != "*" && marker != "+"
  {
    var s := marker + rest;
    assert s[0] == marker[0];
    if marker != "-" && marker != "*" && marker != "+" {
      var n := |marker| - 1;
      assert s == marker[..n] + ("." + rest) && marker[0] == marker[..n][0];
      assert marker[..n][0] in marker[..n];
      DigitsAre(marker[..n], "." + rest);
      WordIsNoSpace(marker[0]);
    }
  }

  lemma MarkerIsWritten(s: string)
    requires MarkerLength(s) > 0
    ensures IsMarker(s[..MarkerLength(s)])
  {
    if s[0] == '-' || s[0] == '*' || s[0] == '+' {
      assert s[..1] == [s[0]];
    } else {
      DigitsOnly(s);
      var n := Digits(s);
      assert s[..n + 1][..n] == s[..n];
    }
  }

  lemma MarkedReads(marker: string, gap: string, text: string)
    requires IsMarker(marker) && gap != "" && AllSpace(gap) && (text != "" ==> !IsSpace(text[0]))
    ensures var s := marker + gap + text;
      && MarkerLength(s) == |marker| < |s| && IsSpace(s[|marker|]) && !IsSpace(s[0])
      && s[|marker|..] == gap + text && (Digits(s) > 0 <==> marker != "-" && marker != "*" && marker != "+")
  {
    hide IsSpace, MarkerLength, Digits, IsMarker;
    var s := marker + gap + text;
    MarkerIsMeasured(marker, gap + text);
    assert marker + (gap + text) == s;
    assert s[|marker|] == gap[0] && gap[0] in gap;
  }

  /** A list line is read as its indent, the sort of its marker and its text. */
  lemma ListLineReads(indent: string, marker: string, gap: string, text: string)
    requires AllSpace(indent) && IsMarker(marker) && gap != "" && AllSpace(gap) && (text != "" ==> !IsSpace(text[0]))
    ensures LineOf(indent + marker + gap + text) ==
      Bullet(|indent|, marker != "-" && marker != "*" && marker != "+", text)
  {
    hide IsSpace, MarkerLength, StripLeft, Digits, IsMarker, AllSpace, Lead;
    var line, s := indent + marker + gap + text, marker + gap + text;
    MarkedReads(marker, gap, text);
    assert line == indent + s;
    StripLeftIs(indent, s);
    StripLeftIs(gap, text);
  }

  lemma LeadOfSpace(s: string)
    requires s != "" && IsSpace(s[0])
    ensures 0 < Lead(s) && Lead(s) == |s| - |StripLeft(s)|
  {
  }

  lemma GapAndText(rest: string) returns (gap: string, text: string)
    requires rest != "" && IsSpace(rest[0])
    ensures gap != "" && AllSpace(gap) && (text != "" ==> !IsSpace(text[0])) && rest == gap + text
  {
    LeadOfSpace(rest);
    hide IsSpace, AllSpace;
    LeadIsSpace(rest);
    gap, text := rest[..Lead(rest)], StripLeft(rest);
  }

  lemma MarkedIsWritten(s: string) returns (marker: string, gap: string, text: string)
    requires var n := MarkerLength(s); 0 < n < |s| && IsSpace(s[n])
    ensures IsMarker(marker) && gap != "" && AllSpace(gap) && (text != "" ==> !IsSpace(text[0]))
    ensures s == marker + gap + text
  {
    hide IsSpace, MarkerLength, IsMarker, AllSpace;
    var n := MarkerLength(s);
    MarkerIsWritten(s);
    marker := s[..n];
    gap, text := GapAndText(s[n..]);
    assert s == marker + (gap + text);
  }

  lemma ListLineIsWritten(line: string) returns (indent: string, marker: string, gap: string, text: string)
    requires IsListLine(line)
    ensures AllSpace(indent) && IsMarker(marker) && gap != "" && AllSpace(gap) && (text != "" ==> !IsSpace(text[0]))
    ensures line == indent + marker + gap + text
  {
    hide IsSpace, MarkerLength, StripLeft, IsMarker, AllSpace;
    LeadIsSpace(line);
    indent := line[..Lead(line)];
    marker, gap, text := MarkedIsWritten(StripLeft(line));
    hide Lead;
    assert indent + (marker + gap + text) == indent + marker + gap + text;
  }

  // ---- Rules: ^\s*([-*_])(\s*\1){2,}\s*$, and no list line ------------------------------------

  predicate OnlyMarks(line: string, mark: char) {
    forall c :: c in line ==> c == mark || IsSpace(c)
  }

  lemma {:induction false} DenseKeeps(line: string, c: char)
    ensures multiset(Dense(line))[c] == if IsSpace(c) then 0 else multiset(line)[c]
  {
    hide IsSpace;
    if line == "" {
    } else {
      DenseKeeps(line[1..], c);
      assert line == [line[0]] + line[1..];
      if !IsSpace(line[0]) {
        assert Dense(line) == [line[0]] + Dense(line[1..]);
      }
    }
  }

  lemma {:induction false} OnlyOneCounts(s: string, c: char)
    requires Only(s, c)
    ensures multiset(s)[c] == |s|
  {
    if s != "" {
      assert s == [s[0]] + s[1..];
      forall x | x in s[1..] ensures x == c {
        assert x in s;
      }
      OnlyOneCounts(s[1..], c);
      assert s[0] in s;
    }
  }

  lemma DenseMembers(line: string, c: char)
    ensures c in Dense(line) <==> c in line && !IsSpace(c)
  {
    DenseKeeps(line, c);
    hide IsSpace, Dense;
    assert c in Dense(line) <==> c in multiset(Dense(line));
    assert c in line <==> c in multiset(line);
  }

  /** Three or more of one mark and otherwise white space. */
  lemma RuleIff(line: string)
    ensures IsRule(line) <==>
      !IsListLine(line) && exists mark :: mark in "-*_" && OnlyMarks(line, mark) && multiset(line)[mark] >= 3
  {
    hide IsListLine, IsSpace, Dense;
    var marks := Dense(line);
    forall c ensures c in marks <==> c in line && !IsSpace(c) {
      DenseMembers(line, c);
    }
    if IsRule(line) {
      var mark := marks[0];
      assert mark == "-*_"[0] || mark == "-*_"[1] || mark == "-*_"[2];
      OnlyOneCounts(marks, mark);
      DenseKeeps(line, mark);
      assert OnlyMarks(line, mark);
    }
    forall mark | mark in "-*_" && OnlyMarks(line, mark) && multiset(line)[mark] >= 3 && !IsListLine(line)
      ensures IsRule(line)
    {
      WordIsNoSpace(mark);
      DenseKeeps(line, mark);
      assert Only(marks, mark);
      OnlyOneCounts(marks, mark);
      assert marks[0] in marks;
    }
  }

  // ---- Quotations: ^\s*>\s? ----------------------------------------------------------------------

  lemma QuoteReads(blanks: string, rest: string)
    requires AllSpace(blanks)
    ensures var line := blanks + ">" + rest;
      IsQuoted(line) && Unquoted(line) == if rest != "" && IsSpace(rest[0]) then rest[1..] else rest
  {
    hide IsSpace, StripLeft;
    var line := blanks + ">" + rest;
    WordIsNoSpace('>');
    assert line == blanks + (">" + rest);
    StripLeftIs(blanks, ">" + rest);
    assert (">" + rest)[1..] == rest;
  }

  lemma QuoteIsWritten(line: string) returns (blanks: string, rest: string)
    requires IsQuoted(line)
    ensures AllSpace(blanks) && line == blanks + ">" + rest
  {
    hide IsSpace, StripLeft;
    LeadIsSpace(line);
    blanks, rest := line[..Lead(line)], StripLeft(line)[1..];
    assert StripLeft(line) == ">" + rest;
  }

  // ---- Table lines -----------------------------------------------------------------------------------

  /** The line below a header: bars and dashes, and besides them only colons and blanks. */
  lemma DividerIff(line: string)
    ensures IsDivider(line) <==> '|' in line && '-' in line && forall c :: c in Strip(line) ==> c in "|:- "
  {
    hide Strip;
    assert forall c :: c in "|:- " <==> c == '|' || c == ':' || c == '-' || c == ' ' by {
      forall c ensures c in "|:- " <==> c == '|' || c == ':' || c == '-' || c == ' ' {
        assert "|:- "[0] == '|' && "|:- "[1] == ':' && "|:- "[2] == '-' && "|:- "[3] == ' ';
      }
    }
  }

  predicate NoBar(cells: seq<string>) {
    forall cell :: cell in cells ==> '|' !in cell
  }

  /** Cells written between bars, with a bar at either end and white space anywhere, are
      read back as their stripped texts. */
  lemma RowReads(before: string, cells: seq<string>, after: string)
    requires AllSpace(before) && AllSpace(after) && cells != [] && NoBar(cells)
    ensures CellsOf(before + "|" + Join(cells, '|') + "|" + after) == StripEach(cells)
  {
    hide IsSpace, Strip, Join, Split, StripEach;
    var inner := Join(cells, '|');
    var core := "|" + inner + "|";
    WordIsNoSpace('|');
    assert before + "|" + inner + "|" + after == before + core + after;
    StripIs(before, core, after);
    assert core[1..] == inner + "|" && (inner + "|")[..|inner|] == inner;
    assert "|" <= core;
    SplitJoin(cells, '|');
  }

  /** The bars at the ends may be missing where the ends cannot be taken for bars. */
  lemma BareRowReads(before: string, cells: seq<string>, after: string)
    requires AllSpace(before) && AllSpace(after) && cells != [] && NoBar(cells)
    requires var inner := Join(cells, '|'); inner != "" && Tight(inner) && inner[0] != '|' && inner[|inner| - 1] != '|'
    ensures CellsOf(before + Join(cells, '|') + after) == StripEach(cells)
  {
    hide IsSpace, Strip, Join, Split, StripEach;
    StripIs(before, Join(cells, '|'), after);
    SplitJoin(cells, '|');
  }

  /** The rows of a table are the lines under its divider up to the first one without a bar;
      a line with a bar is never blank. */
  lemma TableTakesBars(
    lines: seq<string>, header: seq<string>, body: seq<seq<string>>, from: nat, to: nat)
    requires from < to <= |lines| && IsTable(lines, header, body, from, to)
    ensures to == from + 2 + |body|
    ensures forall k :: from + 2 <= k < to ==> '|' in lines[k] && body[k - from - 2] == CellsOf(lines[k])
    ensures to == |lines| || '|' !in lines[to]
  {
    hide KindAt, CellsOf, IsBlank;
    forall k | from + 2 <= k < to ensures '|' in lines[k] && body[k - from - 2] == CellsOf(lines[k]) {
      assert BodyRow(lines, body, from, k - from - 2);
    }
    if to < |lines| && '|' in lines[to] {
      NotBlankWithBar(lines[to]);
    }
  }

  lemma NotBlankWithBar(line: string)
    requires '|' in line
    ensures !IsBlank(line)
  {
    BlankIff(line);
    WordIsNoSpace('|');
  }

  // ---- The order of the questions ------------------------------------------------------------------

  lemma FirstIsMark(line: string)
    requires FenceOf(line).Some? || IsHeading(line)
    ensures line != "" && !IsSpace(line[0]) && StripLeft(line) == line
    ensures line[0] == if FenceOf(line).Some? then '`' else '#'
  {
    hide IsSpace, StripLeft, IsBlank, WordLength;
    if FenceOf(line).Some? {
      assert line[0] == "```"[0];
    }
    WordIsNoSpace(line[0]);
    assert "" + line == line;
    StripLeftIs("", line);
  }

  lemma MarkOfRule(line: string) returns (mark: char)
    requires IsRule(line)
    ensures mark in "-*_" && mark in line && OnlyMarks(line, mark)
  {
    hide IsListLine, IsSpace, Dense, IsRule, OnlyMarks;
    RuleIff(line);
    mark :| mark in "-*_" && OnlyMarks(line, mark) && multiset(line)[mark] >= 3;
    assert mark in multiset(line);
  }

  lemma ShapeOfRule(line: string)
    requires IsRule(line)
    ensures '|' !in line && !IsBlank(line) && StripLeft(line) != "" && StripLeft(line)[0] in "-*_"
  {
    hide IsSpace, IsRule, StripLeft;
    var mark := MarkOfRule(line);
    WordIsNoSpace('|');
    WordIsNoSpace(mark);
    BlankIff(line);
    LeadIsSpace(line);
    hide IsBlank, Lead;
    var s := StripLeft(line);
    assert s != "";
    assert s[0] in line;
  }

  lemma ShapeOfFence(line: string)
    requires FenceOf(line).Some?
    ensures '|' !in line
  {
    hide IsSpace, IsWordChar, FenceOf;
    var blanks := FenceIsWritten(line);
    var language := FenceOf(line).value;
    if '|' in line {
      WordIsNoSpace('|');
      BarIsNoWord();
    }
  }

  lemma BarIsNoWord()
    ensures !IsWordChar('|')
  {
  }

  lemma MarkerIsNoMark(line: string)
    requires IsListLine(line) || IsQuoted(line)
    ensures !IsBlank(line) && StripLeft(line) != ""
    ensures StripLeft(line)[0] != '`' && StripLeft(line)[0] != '#'
    ensures IsQuoted(line) ==> !IsListLine(line) && StripLeft(line)[0] == '>'
  {
    hide StripLeft;
  }

  predicate OverDivider(lines: seq<string>, i: nat)
    requires i < |lines|
  {
    '|' in lines[i] && i + 1 < |lines| && IsDivider(lines[i + 1])
  }

  lemma FenceApart(line: string)
    requires FenceOf(line).Some?
    ensures !IsBlank(line) && !IsHeading(line) && !IsRule(line) && !IsQuoted(line) && !IsListLine(line) && '|' !in line
  {
    ShapeOfFence(line);
    FirstIsMark(line);
    if IsRule(line) {
      ShapeOfRule(line);
    } else if IsListLine(line) || IsQuoted(line) {
      MarkerIsNoMark(line);
    }
  }

  lemma HeadingApart(line: string)
    requires IsHeading(line)
    ensures !IsBlank(line) && !IsRule(line) && !IsQuoted(line) && !IsListLine(line)
  {
    FirstIsMark(line);
    if IsRule(line) {
      ShapeOfRule(line);
    } else if IsListLine(line) || IsQuoted(line) {
      MarkerIsNoMark(line);
    }
  }

  lemma RuleApart(line: string)
    requires IsRule(line)
    ensures !IsBlank(line) && !IsQuoted(line) && !IsListLine(line) && '|' !in line
  {
    ShapeOfRule(line);
    if IsQuoted(line) {
      MarkerIsNoMark(line);
    }
  }

  lemma BlankApart(line: string)
    requires IsBlank(line)
    ensures !IsQuoted(line) && !IsListLine(line) && '|' !in line
  {
    BlankIff(line);
    WordIsNoSpace('|');
    if IsListLine(line) || IsQuoted(line) {
      MarkerIsNoMark(line);
    }
  }

  /** What a line is taken for: its own shape decides, and where two shapes meet a heading
      comes before a table and a table before quotations and lists. */
  lemma KindByShape(lines: seq<string>, i: nat)
    requires i < |lines|
    ensures var line, kind, table := lines[i], KindAt(lines, i), OverDivider(lines, i) && !IsHeading(lines[i]);
      && (kind == FenceLine <==> FenceOf(line).Some?)
      && (kind == BlankLine <==> AllSpace(line))
      && (kind == HeadingLine <==> IsHeading(line))
      && (kind == RuleLine <==> IsRule(line))
      && (kind == TableLine <==> table)
      && (kind == QuoteLine <==> IsQuoted(line) && !table)
      && (kind == ListLine <==> IsListLine(line) && !IsRule(line) && !table)
  {
    hide IsListLine, IsQuoted, IsRule, IsHeading, FenceOf, IsDivider, IsBlank, AllSpace;
    var line := lines[i];
    BlankIff(line);
    if FenceOf(line).Some? {
      FenceApart(line);
    } else if IsBlank(line) {
      BlankApart(line);
    } else if IsHeading(line) {
      HeadingApart(line);
    } else if IsRule(line) {
      RuleApart(line);
    }
    if IsQuoted(line) {
      MarkerIsNoMark(line);
    }
    if IsHeading(line) {
      HeadingApart(line);
    }
    if IsRule(line) {
      RuleApart(line);
    }
  }
}
