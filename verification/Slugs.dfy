/** File and URL names made from display names. */
module Slugs {
  import opened Strings

  predicate IsPlain(c: char) {
    'A' <= c <= 'Z' || 'a' <= c <= 'z' || '0' <= c <= '9' || c == '.' || c == '_' || c == '-'
  }

  /** Every maximal run of other characters becomes one dash. */
  function Dashed(name: string): string {
    if name == "" then ""
    else
      var front, last := Dashed(name[..|name| - 1]), name[|name| - 1];
      if IsPlain(last) then front + [last]
      else if |name| > 1 && !IsPlain(name[|name| - 2]) then front
      else front + "-"
  }

  function StripDashes(s: string): string {
    if s != "" && s[0] == '-' then StripDashes(s[1..])
    else if s != "" && s[|s| - 1] == '-' then StripDashes(s[..|s| - 1])
    else s
  }

  function LowerChar(c: char): char {
    if 'A' <= c <= 'Z' then (c as int + 32) as char else c
  }

  function Lower(s: string): (r: string)
    ensures |r| == |s|
  {
    seq(|s|, i requires 0 <= i < |s| => LowerChar(s[i]))
  }

  function Slug(name: string): string {
    var s := StripDashes(Dashed(name));
    if s == "" then "unnamed" else Lower(s)
  }

  // ---- What a slug is ----------------------------------------------------------------

  /** Letters, digits, the dot, the underscore and the dash, by code points. */
  lemma PlainIs(c: char)
    ensures IsPlain(c) <==> c as int in {45, 46, 48, 49, 50, 51, 52, 53, 54, 55, 56, 57, 65, 66, 67, 68, 69, 70, 71,
      72, 73, 74, 75, 76, 77, 78, 79, 80, 81, 82, 83, 84, 85, 86, 87, 88, 89, 90, 95, 97, 98, 99,
      100, 101, 102, 103, 104, 105, 106, 107, 108, 109, 110, 111, 112, 113, 114, 115, 116, 117, 118, 119, 120, 121, 122}
  {
  }

  /** The 26 capitals are lowered, and nothing else is. */
  lemma LowerCharIs(c: char)
    ensures LowerChar(c) as int == c as int + if 65 <= c as int <= 90 then 32 else 0
  {
  }

  predicate Plain(s: string) {
    forall c :: c in s ==> IsPlain(c)
  }

  predicate Foreign(s: string) {
    forall c :: c in s ==> !IsPlain(c)
  }

  /** Words with the foreign runs between them. */
  function Spelt(words: seq<string>, gaps: seq<string>): string
    requires |gaps| + 1 == |words|
  {
    if gaps == [] then words[0]
    else Spelt(words[..|words| - 1], gaps[..|gaps| - 1]) + gaps[|gaps| - 1] + words[|words| - 1]
  }

  lemma {:induction false} DashedWord(front: string, word: string)
    requires Plain(word)
    ensures Dashed(front + word) == Dashed(front) + word
  {
    hide IsPlain;
    if word == "" {
      assert front + word == front;
    } else {
      var n := |word| - 1;
      assert (front + word)[..|front + word| - 1] == front + word[..n];
      assert word[n] in word && forall c :: c in word[..n] ==> c in word;
      DashedWord(front, word[..n]);
    }
  }

  lemma {:induction false} DashedGap(front: string, gap: string)
    requires Foreign(gap) && gap != "" && (front == "" || IsPlain(front[|front| - 1]))
    ensures Dashed(front + gap) == Dashed(front) + "-"
  {
    hide IsPlain;
    var n := |gap| - 1;
    var s := front + gap;
    assert s[..|s| - 1] == front + gap[..n] && gap[n] in gap;
    if n == 0 {
      assert front + gap[..n] == front;
    } else {
      assert gap[n - 1] in gap && s[|s| - 2] == gap[n - 1];
      forall c | c in gap[..n] ensures !IsPlain(c) {
        assert c in gap;
      }
      DashedGap(front, gap[..n]);
    }
  }

  ghost predicate Wordy(words: seq<string>) {
    forall w :: w in words ==> w != "" && Plain(w)
  }

  ghost predicate Gappy(gaps: seq<string>) {
    forall g :: g in gaps ==> g != "" && Foreign(g)
  }

  lemma FrontWords(words: seq<string>)
    requires words != [] && Wordy(words)
    ensures Wordy(words[..|words| - 1])
    ensures var last := words[|words| - 1]; last != "" && Plain(last) && IsPlain(last[|last| - 1])
  {
    hide IsPlain;
    assert words[|words| - 1] in words;
    var last := words[|words| - 1];
    assert last[|last| - 1] in last;
  }

  lemma FrontGaps(gaps: seq<string>)
    requires gaps != [] && Gappy(gaps)
    ensures Gappy(gaps[..|gaps| - 1]) && gaps[|gaps| - 1] != "" && Foreign(gaps[|gaps| - 1])
  {
    assert gaps[|gaps| - 1] in gaps;
  }

  lemma {:induction false} DashedSpelt(lead: string, words: seq<string>, gaps: seq<string>)
    requires |gaps| + 1 == |words| && Wordy(words) && Gappy(gaps) && Foreign(lead)
    ensures Dashed(lead + Spelt(words, gaps)) == (if lead == "" then "" else "-") + Join(words, '-')
    ensures Spelt(words, gaps) != "" && IsPlain(Spelt(words, gaps)[|Spelt(words, gaps)| - 1])
  {
    hide IsPlain, Dashed, Wordy, Gappy, Plain, Foreign;
    var n := |words| - 1;
    var last := words[n];
    FrontWords(words);
    if gaps == [] {
      DashedWord(lead, last);
      DashedLead(lead);
    } else {
      FrontGaps(gaps);
      var front, gap, d := Spelt(words[..n], gaps[..|gaps| - 1]), gaps[|gaps| - 1], if lead == "" then "" else "-";
      hide Join, Spelt;
      DashedSpelt(lead, words[..n], gaps[..|gaps| - 1]);
      DashedAppend(lead, front, gap, last, d + Join(words[..n], '-'));
      assert words == words[..n] + [last];
      JoinSnoc(words[..n], last, '-');
      SpeltNext(words, gaps);
      assert d + Join(words[..n], '-') + "-" + last == d + (Join(words[..n], '-') + ['-'] + last);
      assert (front + gap + last)[|front + gap + last| - 1] == last[|last| - 1];
    }
  }

  lemma DashedAppend(lead: string, front: string, gap: string, last: string, dashed: string)
    requires front != "" && IsPlain(front[|front| - 1]) && gap != "" && Foreign(gap) && Plain(last)
    requires Dashed(lead + front) == dashed
    ensures Dashed(lead + (front + gap + last)) == dashed + "-" + last
  {
    hide IsPlain, Dashed, Plain, Foreign;
    assert lead + (front + gap + last) == lead + front + gap + last;
    assert (lead + front)[|lead + front| - 1] == front[|front| - 1];
    DashedGap(lead + front, gap);
    DashedWord(lead + front + gap, last);
  }

  lemma SpeltNext(words: seq<string>, gaps: seq<string>)
    requires |gaps| + 1 == |words| && gaps != []
    ensures Spelt(words, gaps) ==
      Spelt(words[..|words| - 1], gaps[..|gaps| - 1]) + gaps[|gaps| - 1] + words[|words| - 1]
  {
  }

  lemma DashedLead(lead: string)
    requires Foreign(lead)
    ensures Dashed(lead) == if lead == "" then "" else "-"
  {
    if lead != "" {
      DashedGap("", lead);
      assert "" + lead == lead && Dashed("") == "" && "" + "-" == "-";
    }
  }

  lemma StripsOnce(d: string, core: string, e: string)
    requires (d == "" || d == "-") && (e == "" || e == "-")
    requires core != "" && core[0] != '-' && core[|core| - 1] != '-'
    ensures StripDashes(d + core + e) == core
  {
    StripsBehind(core, e);
    assert d + core + e == d + (core + e);
    if d == "-" {
      assert ("-" + (core + e))[1..] == core + e;
    } else {
      assert "" + (core + e) == core + e;
    }
  }

  lemma StripsBehind(core: string, e: string)
    requires e == "" || e == "-"
    requires core != "" && core[0] != '-' && core[|core| - 1] != '-'
    ensures StripDashes(core + e) == core
  {
    assert StripDashes(core) == core;
    if e == "-" {
      assert (core + e)[..|core + e| - 1] == core && (core + e)[0] == core[0];
    } else {
      assert core + e == core;
    }
  }

  lemma {:induction false} JoinEnds(words: seq<string>)
    requires words != [] && Wordy(words)
    ensures words[0] != "" && words[|words| - 1] != ""
    ensures var s, last := Join(words, '-'), words[|words| - 1];
      s != "" && s[0] == words[0][0] && s[|s| - 1] == last[|last| - 1]
  {
    assert words[0] in words && words[|words| - 1] in words;
    if |words| > 1 {
      assert words == words[..|words| - 1] + [words[|words| - 1]];
      JoinEnds(words[..|words| - 1]);
    }
  }

  /** The slug of any words, with foreign characters anywhere around and between them: the
      words in lower case with one dash between two. */
  lemma SlugOfWords(lead: string, words: seq<string>, gaps: seq<string>, trail: string)
    requires |gaps| + 1 == |words| && Wordy(words) && Gappy(gaps) && Foreign(lead) && Foreign(trail)
    requires words[0] != "" && words[0][0] != '-'
    requires var last := words[|words| - 1]; last != "" && last[|last| - 1] != '-'
    ensures Slug(lead + Spelt(words, gaps) + trail) == Lower(Join(words, '-'))
  {
    hide IsPlain, Dashed, StripDashes, Spelt, Join, Lower, Wordy, Gappy;
    var middle := lead + Spelt(words, gaps);
    DashedSpelt(lead, words, gaps);
    JoinEnds(words);
    var core, d := Join(words, '-'), if lead == "" then "" else "-";
    if trail == "" {
      assert middle + trail == middle && d + core + "" == d + core;
      StripsOnce(d, core, "");
    } else {
      DashedGap(middle, trail);
      StripsOnce(d, core, "-");
    }
  }

  /** A name without a word has no slug of its own. */
  lemma SlugOfNone(name: string)
    requires Foreign(name)
    ensures Slug(name) == "unnamed"
  {
    hide IsPlain, Dashed;
    DashedLead(name);
    assert "-"[1..] == "" && StripDashes("") == "" && StripDashes("-") == "";
  }

  lemma {:induction false} DashedLower(name: string)
    ensures Lower(Dashed(name)) == Dashed(Lower(name))
  {
    if name != "" {
      var n := |name| - 1;
      DashedLower(name[..n]);
      assert Lower(name)[..n] == Lower(name[..n]);
      if n > 0 {
        assert Lower(name)[n - 1] == LowerChar(name[n - 1]);
      }
      var front := Dashed(name[..n]);
      assert Lower(front + [name[n]]) == Lower(front) + [LowerChar(name[n])];
      assert Lower(front + "-") == Lower(front) + "-";
    }
  }

  lemma {:induction false} StripLower(s: string)
    ensures Lower(StripDashes(s)) == StripDashes(Lower(s))
  {
    if s != "" && s[0] == '-' {
      StripLower(s[1..]);
      assert Lower(s)[1..] == Lower(s[1..]);
    } else if s != "" && s[|s| - 1] == '-' {
      StripLower(s[..|s| - 1]);
      assert Lower(s)[..|s| - 1] == Lower(s[..|s| - 1]);
    }
  }

  /** Names that differ only in case share a slug. */
  lemma SlugIgnoresCase(a: string, b: string)
    requires Lower(a) == Lower(b)
    ensures Slug(a) == Slug(b)
  {
    DashedLower(a);
    DashedLower(b);
    StripLower(Dashed(a));
    StripLower(Dashed(b));
    assert Lower(StripDashes(Dashed(a))) == Lower(StripDashes(Dashed(b)));
  }

  /** Slugs are not unique by themselves. */
  lemma SlugsCollide()
    ensures Slug("C") == "c" && Slug("C#") == "c"
  {
    assert "C"[..0] == "" && "C#"[..1] == "C";
    assert Dashed("C") == "" + "C";
    assert Dashed("C#") == "C" + "-" && ("C" + "-")[..1] == "C";
    assert StripDashes("C") == "C" && StripDashes("C" + "-") == "C";
    assert Lower("C") == "c";
  }
}
