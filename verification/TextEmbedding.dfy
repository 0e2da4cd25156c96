/**
 Two text splitters of the generator: the JSON document put inside a
 single-quoted JavaScript literal, and the stylesheet cut into its top-level
 rules.
 */
module TextEmbedding {
  import opened Basics
  import opened Strings

  // ---- JSON inside a JavaScript string literal ---------------------------------

  /** `text.replace(c, sub)` for a one-character c. */
  function Replace(text: string, c: char, sub: string): string {
    if text == "" then "" else (if text[0] == c then sub else [text[0]]) + Replace(text[1..], c, sub)
  }

  /** First every backslash is doubled, then every apostrophe gets one. */
  function Escape(json: string): string {
    Replace(Replace(json, '\\', "\\\\"), '\'', "\\'")
  }

  function Opening(name: string): string {
    "window." + name + " = JSON.parse('"
  }

  function Payload(name: string, json: string): string {
    Opening(name) + Escape(json) + "');\n"
  }

  predicate IsLineTerminator(c: char) {
    c == '\n' || c == '\r'
  }

  /** The two escapes that a payload contains; no other is read. */
  function EscapedChar(c: char): Option<string> {
    if c == '\\' || c == '\'' then Some([c]) else None
  }

  /** The value of a single-quoted literal whose body starts here, and the text after
      its closing quote; `None` if the literal is not well formed. */
  function ReadLiteral(src: string): Option<(string, string)> {
    if src == "" || IsLineTerminator(src[0]) then None
    else if src[0] == '\'' then Some(("", src[1..]))
    else if src[0] == '\\' then
      if |src| < 2 || EscapedChar(src[1]).None? then None
      else Cons(EscapedChar(src[1]).value, ReadLiteral(src[2..]))
    else Cons([src[0]], ReadLiteral(src[1..]))
  }

  function Cons(head: string, rest: Option<(string, string)>): Option<(string, string)> {
    if rest.None? then None else Some((head + rest.value.0, rest.value.1))
  }

  /** Both replacements seen as one: a backslash or apostrophe is preceded by a backslash. */
  function EscapeOnce(json: string): string {
    if json == "" then ""
    else (if json[0] == '\\' || json[0] == '\'' then ['\\', json[0]] else [json[0]]) + EscapeOnce(json[1..])
  }

  lemma {:induction false} ReplaceConcat(a: string, b: string, c: char, sub: string)
    ensures Replace(a + b, c, sub) == Replace(a, c, sub) + Replace(b, c, sub)
  {
    if a == "" {
      assert a + b == b;
    } else {
      assert (a + b)[1..] == a[1..] + b;
      ReplaceConcat(a[1..], b, c, sub);
    }
  }

  lemma {:induction false} EscapeIsOnePass(json: string)
    ensures Escape(json) == EscapeOnce(json)
  {
    if json != "" {
      var c, rest := json[0], json[1..];
      var first := if c == '\\' then "\\\\" else [c];
      assert Replace(json, '\\', "\\\\") == first + Replace(rest, '\\', "\\\\");
      ReplaceConcat(first, Replace(rest, '\\', "\\\\"), '\'', "\\'");
      assert Replace(first, '\'', "\\'") == if c == '\\' || c == '\'' then ['\\', c] else [c] by {
        if c == '\\' {
          assert first[1..] == "\\" && "\\"[1..] == "";
        } else {
          assert first[1..] == "";
        }
      }
      EscapeIsOnePass(rest);
    }
  }

  lemma ReadOneEscaped(c: char, rest: string)
    requires !IsLineTerminator(c)
    ensures ReadLiteral(EscapeOnce([c]) + rest) == Cons([c], ReadLiteral(rest))
  {
    assert [c][1..] == "" && EscapeOnce([c]) == if c == '\\' || c == '\'' then ['\\', c] else [c];
    if c == '\\' || c == '\'' {
      assert (['\\', c] + rest)[2..] == rest;
    } else {
      assert ([c] + rest)[1..] == rest;
    }
  }

  lemma EscapeOnceFirst(json: string, after: string)
    requires json != ""
    ensures EscapeOnce(json) + "'" + after == EscapeOnce([json[0]]) + (EscapeOnce(json[1..]) + "'" + after)
  {
    assert [json[0]][1..] == "";
  }

  lemma {:induction false} ReadEscaped(json: string, after: string)
    requires forall i :: 0 <= i < |json| ==> !IsLineTerminator(json[i])
    ensures ReadLiteral(EscapeOnce(json) + "'" + after) == Some((json, after))
  {
    if json == "" {
      assert EscapeOnce(json) + "'" + after == "'" + after;
    } else {
      EscapeOnceFirst(json, after);
      ReadOneEscaped(json[0], EscapeOnce(json[1..]) + "'" + after);
      ReadEscaped(json[1..], after);
      assert [json[0]] + json[1..] == json;
    }
  }

  lemma {:induction false} RawTerminatorBreaks(json: string, after: string, i: nat)
    requires i < |json| && IsLineTerminator(json[i])
    ensures ReadLiteral(EscapeOnce(json) + "'" + after).None?
  {
    EscapeOnceFirst(json, after);
    if !IsLineTerminator(json[0]) {
      ReadOneEscaped(json[0], EscapeOnce(json[1..]) + "'" + after);
      RawTerminatorBreaks(json[1..], after, i - 1);
    }
  }

  /** Reading the literal gives back the JSON text and stops at the closing quote,
      exactly when the text has no raw line terminator, which ensure_ascii rules out. */
  lemma LiteralReadsBack(json: string, after: string)
    ensures ReadLiteral(Escape(json) + "'" + after) == Some((json, after)) <==> '\n' !in json && '\r' !in json
  {
    EscapeIsOnePass(json);
    if forall i :: 0 <= i < |json| ==> !IsLineTerminator(json[i]) {
      ReadEscaped(json, after);
    } else {
      var i: nat :| i < |json| && IsLineTerminator(json[i]);
      RawTerminatorBreaks(json, after, i);
    }
  }

  /** The statement written to data.js hands JSON.parse the very document. */
  lemma PayloadReadsBack(name: string, json: string)
    ensures "window." + name + " = JSON.parse('" <= Payload(name, json)
    ensures var opening := "window." + name + " = JSON.parse('";
      ReadLiteral(Payload(name, json)[|opening|..]) == Some((json, ");\n")) <==> '\n' !in json && '\r' !in json
  {
    LiteralReadsBack(json, ");\n");
    assert Payload(name, json) == Opening(name) + (Escape(json) + "'" + ");\n");
  }

  // ---- Top-level rules of a stylesheet -----------------------------------------

  function Depth(css: string): int {
    if css == "" then 0
    else Depth(css[..|css| - 1]) + match css[|css| - 1] case '{' => 1 case '}' => -1 case _ => 0
  }

  /** A rule ends after a closing brace that brings the whole text back to depth zero. */
  predicate RuleEnd(css: string, i: nat)
    requires i <= |css|
  {
    i > 0 && css[i - 1] == '}' && Depth(css[..i]) == 0
  }

  /** The pieces between rule ends, and what is left after the last. */
  function Pieces(css: string): (seq<string>, string) {
    if css == "" then ([], "")
    else
      var (done, buf) := Pieces(css[..|css| - 1]);
      var grown := buf + [css[|css| - 1]];
      if RuleEnd(css, |css|) then (done + [grown], "") else (done, grown)
  }

  lemma NoPieces()
    ensures Depth("") == 0 && Pieces("") == ([], "") && StripEach([]) == []
  {
  }

  lemma NextChar(css: string, i: nat)
    requires i < |css|
    ensures Depth(css[..i + 1]) == Depth(css[..i]) + match css[i] case '{' => 1 case '}' => -1 case _ => 0
    ensures var (done, buf) := Pieces(css[..i]);
      var grown := buf + [css[i]];
      Pieces(css[..i + 1]) == if css[i] == '}' && Depth(css[..i + 1]) == 0 then (done + [grown], "") else (done, grown)
  {
    var next := css[..i + 1];
    assert next[..|next| - 1] == css[..i] && next[..|next|] == next;
  }

  lemma StripEachSnoc(pieces: seq<string>, piece: string)
    ensures StripEach(pieces + [piece]) == StripEach(pieces) + [Strip(piece)]
  {
    hide Strip;
  }

  /** The rules, each stripped of surrounding blanks. */
  method TopLevelRules(css: string) returns (out: seq<string>)
    ensures out == StripEach(Pieces(css).0)
  {
    hide *;
    var buf, depth := "", 0;
    out := [];
    NoPieces();
    assert css[..0] == "";
    for i := 0 to |css|
      invariant depth == Depth(css[..i])
      invariant buf == Pieces(css[..i]).1 && out == StripEach(Pieces(css[..i]).0)
    {
      var ch := css[i];
      NextChar(css, i);
      buf := buf + [ch];
      if ch == '{' {
        depth := depth + 1;
      } else if ch == '}' {
        depth := depth - 1;
        if depth == 0 {
          StripEachSnoc(Pieces(css[..i]).0, buf);
          out := out + [Strip(buf)];
          buf := "";
        }
      }
    }
    assert css[..|css|] == css;
  }

  /** The depth is the number of opening braces less that of closing ones, so a rule ends at
      each closing brace that evens them out. */
  lemma {:induction false} DepthIsBalance(css: string)
    ensures Depth(css) == multiset(css)['{'] as int - multiset(css)['}'] as int
  {
    if css != "" {
      var front, last := css[..|css| - 1], css[|css| - 1];
      assert css == front + [last];
      DepthIsBalance(front);
    }
  }

  lemma RuleEndIff(css: string, i: nat)
    requires i <= |css|
    ensures RuleEnd(css, i) <==> i > 0 && css[i - 1] == '}' && multiset(css[..i])['{'] == multiset(css[..i])['}']
  {
    DepthIsBalance(css[..i]);
  }

  /** Nothing is lost: the unstripped pieces and the leftover are the stylesheet. */
  lemma {:induction false} PiecesConcatenate(css: string)
    ensures Concat(Pieces(css).0) + Pieces(css).1 == css
  {
    if css != "" {
      var front, last := css[..|css| - 1], css[|css| - 1];
      PiecesConcatenate(front);
      var (done, buf) := Pieces(front);
      var grown := buf + [last];
      assert Concat(done) + grown == front + [last] == css;
      if RuleEnd(css, |css|) {
        assert (done + [grown])[..|done|] == done;
        assert Concat(done + [grown]) == Concat(done) + grown;
      }
    }
  }

  /** Where piece k starts. */
  function Start(pieces: seq<string>, k: nat): nat
    requires k <= |pieces|
  {
    |Concat(pieces[..k])|
  }

  predicate NoRuleEndBetween(css: string, from: nat, to: nat) {
    forall i :: from < i < to && i <= |css| ==> !RuleEnd(css, i)
  }

  /** Each piece runs from one rule end to the very next one, and no rule end is left over. */
  lemma {:induction false} PiecesEndAtRuleEnds(css: string, k: nat)
    requires k <= |Pieces(css).0|
    ensures var done := Pieces(css).0;
      && Start(done, k) <= |css|
      && (k > 0 ==> RuleEnd(css, Start(done, k)))
      && NoRuleEndBetween(css, Start(done, k), if k < |done| then Start(done, k + 1) else |css| + 1)
  {
    if css != "" {
      var front := css[..|css| - 1];
      var done, all := Pieces(front).0, Pieces(css).0;
      SameEndsInside(css);
      StartsAgree(css);
      if k <= |done| {
        PiecesEndAtRuleEnds(front, k);
        if k < |done| {
          PiecesEndAtRuleEnds(front, k + 1);
        }
        var from, to := Start(all, k), if k < |all| then Start(all, k + 1) else |css| + 1;
        forall i | from < i < to && i <= |css| ensures !RuleEnd(css, i) {
          if i < |css| {
            assert !RuleEnd(front, i);
          }
        }
      }
    }
  }

  /** One more character moves no earlier piece. */
  lemma StartsAgree(css: string)
    requires css != ""
    ensures var done, all := Pieces(css[..|css| - 1]).0, Pieces(css).0;
      && |done| <= |all| && (forall n :: 0 <= n <= |done| ==> Start(all, n) == Start(done, n))
      && (|all| == |done| || (|all| == |done| + 1 && Start(all, |all|) == |css| && RuleEnd(css, |css|)))
      && (|all| == |done| ==> !RuleEnd(css, |css|))
      && Start(done, |done|) <= |css| - 1
  {
    var done, all := Pieces(css[..|css| - 1]).0, Pieces(css).0;
    PiecesConcatenate(css);
    PiecesConcatenate(css[..|css| - 1]);
    assert all[..|all|] == all && done[..|done|] == done;
    forall n | 0 <= n <= |done| ensures Start(all, n) == Start(done, n) {
      assert all[..n] == done[..n];
    }
  }

  lemma SameEndsInside(css: string)
    requires css != ""
    ensures forall i :: 0 <= i < |css| ==> RuleEnd(css, i) == RuleEnd(css[..|css| - 1], i)
  {
    var front := css[..|css| - 1];
    forall i | 0 <= i < |css| ensures RuleEnd(css, i) == RuleEnd(front, i) {
      assert css[..i] == front[..i];
    }
  }
}
