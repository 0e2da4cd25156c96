/** Markup as a sequence of tokens, and what it means for its tags to be balanced. */
module Markup {
  import opened Basics

  datatype Token = Open(tag: string, attributes: string) | Close(tag: string) | Void(tag: string) | Text(text: string)

  function Shown(t: Token): string {
    match t
    case Open(tag, attributes) => "<" + tag + attributes + ">"
    case Close(tag) => "</" + tag + ">"
    case Void(tag) => "<" + tag + ">"
    case Text(text) => text
  }

  function Flat(tokens: seq<Token>): string {
    if tokens == [] then "" else Flat(tokens[..|tokens| - 1]) + Shown(tokens[|tokens| - 1])
  }

  lemma AddThree(a: string, b: string, c: string)
    ensures a + b + c == a + (b + c)
  {
  }

  lemma {:induction false} FlatAppend(a: seq<Token>, b: seq<Token>)
    ensures Flat(a + b) == Flat(a) + Flat(b)
  {
    if b == [] {
      assert a + b == a;
    } else {
      FlatAppend(a, b[..|b| - 1]);
      assert (a + b)[..|a + b| - 1] == a + b[..|b| - 1];
      AddThree(Flat(a), Flat(b[..|b| - 1]), Shown(b[|b| - 1]));
    }
  }

  lemma FlatOne(t: Token)
    ensures Flat([t]) == Shown(t)
  {
    assert [t][..0] == [];
  }

  /** The open tags after one more token. */
  function After(before: Option<seq<string>>, t: Token): Option<seq<string>> {
    if before.None? then None
    else
      match t
      case Open(tag, _) => Some(before.value + [tag])
      case Close(tag) =>
        var n := |before.value|;
        if n > 0 && before.value[n - 1] == tag then Some(before.value[..n - 1]) else None
      case _ => before
  }

  /** The tags left open after reading some tokens, innermost last; None once a closing
      tag does not match. */
  function StillOpen(tokens: seq<Token>, open: seq<string>): Option<seq<string>> {
    if tokens == [] then Some(open)
    else After(StillOpen(tokens[..|tokens| - 1], open), tokens[|tokens| - 1])
  }

  predicate Balanced(tokens: seq<Token>) {
    StillOpen(tokens, []) == Some([])
  }

  lemma OpenAfter(tokens: seq<Token>, last: Token, open: seq<string>)
    ensures StillOpen(tokens + [last], open) == After(StillOpen(tokens, open), last)
  {
    assert (tokens + [last])[..|tokens|] == tokens;
  }

  lemma {:induction false} OpenAppend(a: seq<Token>, b: seq<Token>, open: seq<string>)
    ensures StillOpen(a + b, open) ==
      if StillOpen(a, open).None? then None else StillOpen(b, StillOpen(a, open).value)
  {
    if b == [] {
      assert a + b == a;
    } else {
      var front, last := b[..|b| - 1], b[|b| - 1];
      OpenAppend(a, front, open);
      assert a + b == a + front + [last] && b == front + [last];
      OpenAfter(a + front, last, open);
      if StillOpen(a, open).Some? {
        OpenAfter(front, last, StillOpen(a, open).value);
      }
      hide StillOpen;
    }
  }

  lemma {:induction false} OpenBelow(tokens: seq<Token>, below: seq<string>, open: seq<string>)
    requires StillOpen(tokens, open).Some?
    ensures StillOpen(tokens, below + open) == Some(below + StillOpen(tokens, open).value)
  {
    if tokens != [] {
      var front, last := tokens[..|tokens| - 1], tokens[|tokens| - 1];
      OpenBelow(front, below, open);
      var left := StillOpen(front, open).value;
      if last.Open? {
        assert below + left + [last.tag] == below + (left + [last.tag]);
      } else if last.Close? {
        assert (below + left)[..|below + left| - 1] == below + left[..|left| - 1];
      }
    }
  }

  /** Balanced markup leaves whatever is open around it as it was. */
  lemma BalancedAnywhere(tokens: seq<Token>, open: seq<string>)
    requires Balanced(tokens)
    ensures StillOpen(tokens, open) == Some(open)
  {
    OpenBelow(tokens, open, []);
    assert open + [] == open;
  }

  lemma BalancedAppend(a: seq<Token>, b: seq<Token>)
    requires Balanced(a) && Balanced(b)
    ensures Balanced(a + b)
  {
    OpenAppend(a, b, []);
  }

  lemma BalancedOne(t: Token)
    requires t.Void? || t.Text?
    ensures Balanced([t])
  {
    assert [t][..0] == [];
  }

  function Wrapped(tag: string, attributes: string, tokens: seq<Token>): seq<Token> {
    [Open(tag, attributes)] + tokens + [Close(tag)]
  }

  lemma BalancedWrapped(tag: string, attributes: string, tokens: seq<Token>)
    requires Balanced(tokens)
    ensures Balanced(Wrapped(tag, attributes, tokens))
  {
    var open := [Open(tag, attributes)];
    assert open[..0] == [] && StillOpen([], []) == Some([]);
    assert StillOpen(open, []) == Some([tag]) by { assert [] + [tag] == [tag]; }
    BalancedAnywhere(tokens, [tag]);
    OpenAppend(open, tokens, []);
    assert Wrapped(tag, attributes, tokens)[..|tokens| + 1] == open + tokens;
    assert [tag][..0] == [];
  }

  lemma FlatWrapped(tag: string, attributes: string, tokens: seq<Token>)
    ensures Flat(Wrapped(tag, attributes, tokens)) == Shown(Open(tag, attributes)) + Flat(tokens) + Shown(Close(tag))
  {
    FlatOne(Open(tag, attributes));
    FlatOne(Close(tag));
    FlatAppend([Open(tag, attributes)], tokens);
    FlatAppend([Open(tag, attributes)] + tokens, [Close(tag)]);
  }

  /** `"<tag attributes>%s</tag>" % inside` */
  function Element(tag: string, attributes: string, inside: string): string {
    "<" + tag + attributes + ">" + inside + "</" + tag + ">"
  }

  lemma FlatElement(tag: string, attributes: string, tokens: seq<Token>)
    ensures Flat(Wrapped(tag, attributes, tokens)) == Element(tag, attributes, Flat(tokens))
  {
    hide Flat, Wrapped;
    FlatWrapped(tag, attributes, tokens);
  }
}
