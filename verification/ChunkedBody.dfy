/**
 The body decoder of the fragmentation validator: chunked transfer coding
 (section 7.1 of RFC 9112), Content-Length, or everything that is left.
 Character codes stand for the bytes they name.
 */
module ChunkedBody {
  import opened Basics

  const TAB: Byte := 9
  const LF: Byte := 10
  const CR: Byte := 13
  const SPACE: Byte := 32
  const SEMICOLON: Byte := 59
  const UNDERSCORE: Byte := 95
  const ZERO: Byte := 48
  const CRLF: Bytes := [CR, LF]
  /** "chunked" */
  const CHUNKED: Bytes := [99, 104, 117, 110, 107, 101, 100]

  predicate StartsCrlf(s: Bytes) {
    |s| >= 2 && s[0] == CR && s[1] == LF
  }

  /** `s.partition(b"\r\n")` without the separator. */
  function Partition(s: Bytes): (r: (Bytes, Bytes))
    ensures |r.1| <= |s| && (s != [] ==> |r.1| < |s|)
  {
    if s == [] then ([], [])
    else if StartsCrlf(s) then ([], s[2..])
    else
      var r := Partition(s[1..]);
      ([s[0]] + r.0, r.1)
  }

  /** `s.split(b";")[0]` */
  function BeforeSemicolon(s: Bytes): Bytes {
    if s == [] || s[0] == SEMICOLON then [] else [s[0]] + BeforeSemicolon(s[1..])
  }

  predicate IsSpace(b: Byte) {
    b == SPACE || TAB <= b <= CR
  }

  function TrimLeft(s: Bytes): Bytes {
    if s != [] && IsSpace(s[0]) then TrimLeft(s[1..]) else s
  }

  function TrimRight(s: Bytes): Bytes {
    if s != [] && IsSpace(s[|s| - 1]) then TrimRight(s[..|s| - 1]) else s
  }

  function DigitValue(b: Byte): Option<nat> {
    if 48 <= b <= 57 then Some(b - 48)
    else if 65 <= b <= 70 then Some(b - 55)
    else if 97 <= b <= 102 then Some(b - 87)
    else None
  }

  datatype Base = Decimal | Hexadecimal {
    function Radix(): nat {
      if Decimal? then 10 else 16
    }

    function Shift(high: nat, digit: nat): nat {
      if Decimal? then 10 * high + digit else 16 * high + digit
    }
  }

  /** Digits of the given base, single underscores allowed between two of them. */
  function DigitsValue(s: Bytes, base: Base): Option<nat> {
    if s == [] || DigitValue(s[|s| - 1]).None? || DigitValue(s[|s| - 1]).value >= base.Radix() then None
    else
      var digit, front := DigitValue(s[|s| - 1]).value, s[..|s| - 1];
      if front == [] then Some(digit)
      else
        var high := DigitsValue(if front[|front| - 1] == UNDERSCORE then front[..|front| - 1] else front, base);
        if high.None? then None else Some(base.Shift(high.value, digit))
  }

  predicate HasHexPrefix(s: Bytes) {
    |s| >= 2 && s[0] == ZERO && (s[1] == 120 || s[1] == 88)
  }

  /** Python's `int(s, 10)` or `int(s, 16)`; `None` is its ValueError. */
  function ParseInt(s: Bytes, base: Base): Option<int> {
    IntOf(TrimRight(TrimLeft(s)), base)
  }

  function IntOf(t: Bytes, base: Base): Option<int> {
    var signed := t != [] && (t[0] == 43 || t[0] == 45);
    var u := if signed then t[1..] else t;
    var v := if base.Decimal? || !HasHexPrefix(u) then u
      else if |u| > 2 && u[2] == UNDERSCORE then u[3..] else u[2..];
    var n := DigitsValue(v, base);
    if n.None? then None
    else
      var k: int := n.value;
      Some(if signed && t[0] == 45 then -k else k)
  }

  /** Python's `s[:n]`, for any n. */
  function Upto(s: Bytes, n: int): Bytes {
    if n >= |s| then s else if n >= 0 then s[..n] else if |s| + n >= 0 then s[..|s| + n] else []
  }

  /** Python's `s[n:]`, for any n. */
  function From(s: Bytes, n: int): (r: Bytes)
    ensures |r| <= |s|
  {
    if n >= |s| then [] else if n >= 0 then s[n..] else if |s| + n >= 0 then s[|s| + n..] else s
  }

  /** The chunk size a line announces; an empty line counts as zero. */
  function SizeOf(line: Bytes): Option<int> {
    var field := BeforeSemicolon(line);
    ParseInt(if field == [] then [ZERO] else field, Hexadecimal)
  }

  /** The decoded body, or `None` where the program raises. */
  function Decode(rest: Bytes): Option<Bytes>
    decreases |rest|
  {
    var (line, tail) := Partition(rest);
    EmptyLineIsZero();
    var n := SizeOf(line);
    if n.None? then None
    else if n.value == 0 then Some([])
    else
      Prepend(Upto(tail, n.value), Decode(From(tail, n.value + 2)))
  }

  function Prepend(data: Bytes, more: Option<Bytes>): Option<Bytes> {
    if more.None? then None else Some(data + more.value)
  }

  lemma EmptyLineIsZero()
    ensures SizeOf([]) == Some(0)
  {
  }

  lemma PrependNothing(more: Option<Bytes>)
    ensures Prepend([], more) == more
  {
    if more.Some? {
      assert [] + more.value == more.value;
    }
  }

  lemma PrependTwice(a: Bytes, b: Bytes, more: Option<Bytes>)
    ensures Prepend(a, Prepend(b, more)) == Prepend(a + b, more)
  {
    if more.Some? {
      assert a + (b + more.value) == a + b + more.value;
    }
  }

  lemma PartitionShrinks(s: Bytes)
    ensures s != [] ==> |Partition(s).1| < |s|
    ensures s == [] ==> Partition(s).0 == []
  {
  }

  lemma DecodeStep(rest: Bytes)
    ensures var (line, tail) := Partition(rest);
      match SizeOf(line)
      case None => Decode(rest) == None
      case Some(n) =>
        if n == 0 then Decode(rest) == Some([])
        else |From(tail, n + 2)| < |rest| && Decode(rest) == Prepend(Upto(tail, n), Decode(From(tail, n + 2)))
  {
    hide Partition, SizeOf, Upto, From;
    PartitionShrinks(rest);
    EmptyLineIsZero();
  }

  method DecodeChunked(raw: Bytes) returns (body: Option<Bytes>)
    ensures body == Decode(raw)
  {
    hide *;
    var out, rest := [], raw;
    PrependNothing(Decode(raw));
    while true
      invariant Decode(raw) == Prepend(out, Decode(rest))
      decreases |rest|
    {
      DecodeStep(rest);
      var (line, tail) := Partition(rest);
      var n := SizeOf(line);
      if n.None? {
        PrependEnd(out);
        return None;
      }
      if n.value == 0 {
        PrependEnd(out);
        return Some(out);
      }
      PrependTwice(out, Upto(tail, n.value), Decode(From(tail, n.value + 2)));
      out, rest := out + Upto(tail, n.value), From(tail, n.value + 2);
    }
  }

  lemma PrependEnd(data: Bytes)
    ensures Prepend(data, None) == None && Prepend(data, Some([])) == Some(data)
  {
    assert data + [] == data;
  }

  function Lower(s: Bytes): Bytes {
    seq(|s|, i requires 0 <= i < |s| => if 65 <= s[i] <= 90 then s[i] + 32 else s[i])
  }

  /** The body by the header fields: chunked wins over a length. */
  function Body(transferEncoding: Option<Bytes>, contentLength: Option<Bytes>, rest: Bytes): Option<Bytes> {
    if transferEncoding.Some? && Lower(transferEncoding.value) == CHUNKED then Decode(rest)
    else if contentLength.Some? then
      var n := ParseInt(contentLength.value, Decimal);
      if n.None? then None else Some(Upto(rest, n.value))
    else Some(rest)
  }

  // ---- What a sender writes ---------------------------------------------------

  predicate AllHex(s: Bytes) {
    forall i :: 0 <= i < |s| ==> DigitValue(s[i]).Some?
  }

  predicate AllBlank(s: Bytes) {
    forall i :: 0 <= i < |s| ==> s[i] == 32 || s[i] == 9
  }

  predicate NoCrlf(s: Bytes) {
    forall i :: 0 <= i < |s| ==> !StartsCrlf(s[i..])
  }

  /** A size in hexadecimal of either case with any leading zeros, blanks, and
      extensions: the line in front of a chunk. */
  datatype SizeLine = SizeLine(digits: Bytes, blanks: Bytes, extensions: Bytes) {
    predicate Announces(n: nat) {
      && AllHex(digits) && DigitsValue(digits, Hexadecimal) == Some(n)
      && AllBlank(blanks)
      && (extensions == [] || extensions[0] == 59) && NoCrlf(extensions)
    }

    function Text(): Bytes {
      digits + blanks + extensions
    }
  }

  datatype Chunk = Chunk(line: SizeLine, data: Bytes) {
    predicate WellFormed() {
      data != [] && line.Announces(|data|)
    }

    function Text(): Bytes {
      line.Text() + [13, 10] + data + [13, 10]
    }
  }

  /** The chunks, then the zero-sized one that ends the body. */
  function Encode(chunks: seq<Chunk>, last: SizeLine): Bytes {
    if chunks == [] then last.Text() + [13, 10] else chunks[0].Text() + Encode(chunks[1..], last)
  }

  function Data(chunks: seq<Chunk>): Bytes {
    if chunks == [] then [] else chunks[0].data + Data(chunks[1..])
  }

  /** The shortest lower-case size text. */
  function HexText(n: nat): Bytes {
    var digit := if n % 16 < 10 then 48 + n % 16 else 87 + n % 16;
    if n < 16 then [digit] else HexText(n / 16) + [digit]
  }

  lemma AppendDigit(front: Bytes, high: nat, b: Byte, digit: nat)
    requires front != [] && AllHex(front) && DigitsValue(front, Hexadecimal) == Some(high)
    requires DigitValue(b) == Some(digit) && digit < 16
    ensures AllHex(front + [b]) && DigitsValue(front + [b], Hexadecimal) == Some(16 * high + digit)
  {
    assert (front + [b])[..|front|] == front;
    assert DigitValue(front[|front| - 1]).Some?;
  }

  lemma {:induction false} HexTextReadsBack(n: nat)
    ensures HexText(n) != [] && AllHex(HexText(n)) && DigitsValue(HexText(n), Hexadecimal) == Some(n)
  {
    if n >= 16 {
      HexTextReadsBack(n / 16);
      AppendDigit(HexText(n / 16), n / 16, HexText(n)[|HexText(n)| - 1], n % 16);
    }
  }

  // ---- Round trip -------------------------------------------------------------

  lemma {:induction false} PartitionAtCrlf(line: Bytes, tail: Bytes)
    requires NoCrlf(line)
    ensures Partition(line + CRLF + tail) == (line, tail)
  {
    var s := line + CRLF + tail;
    if line == [] {
      assert s == CRLF + tail && s[2..] == tail;
    } else {
      assert s[1..] == line[1..] + CRLF + tail;
      forall i | 0 <= i < |line| - 1 ensures !StartsCrlf(line[1..][i..]) {
        assert line[1..][i..] == line[i + 1..];
      }
      PartitionAtCrlf(line[1..], tail);
      assert line[0..] == line && !StartsCrlf(line);
      assert s[1] == if |line| == 1 then CR else line[1];
      assert [line[0]] + line[1..] == line;
    }
  }

  lemma {:induction false} FieldOfLine(a: Bytes, extensions: Bytes)
    requires forall i :: 0 <= i < |a| ==> a[i] != SEMICOLON
    requires extensions == [] || extensions[0] == SEMICOLON
    ensures BeforeSemicolon(a + extensions) == a
  {
    var s := a + extensions;
    if a != [] {
      assert s[1..] == a[1..] + extensions;
      FieldOfLine(a[1..], extensions);
      assert [a[0]] + a[1..] == a;
    }
  }

  lemma {:induction false} TrimBlanks(a: Bytes, blanks: Bytes)
    requires a != [] && !IsSpace(a[|a| - 1]) && forall i :: 0 <= i < |blanks| ==> IsSpace(blanks[i])
    ensures TrimRight(a + blanks) == a
  {
    if blanks == [] {
      assert a + blanks == a;
    } else {
      var front := blanks[..|blanks| - 1];
      assert (a + blanks)[..|a| + |front|] == a + front;
      TrimBlanks(a, front);
    }
  }

  lemma SizeOfDigits(digits: Bytes, spaces: Bytes, extensions: Bytes, n: nat)
    requires AllHex(digits) && DigitsValue(digits, Hexadecimal) == Some(n)
    requires forall i :: 0 <= i < |spaces| ==> IsSpace(spaces[i])
    requires extensions == [] || extensions[0] == SEMICOLON
    ensures SizeOf(digits + spaces + extensions) == Some(n)
  {
    var field := digits + spaces;
    FieldOfLine(field, extensions);
    assert DigitValue(digits[0]).Some? && field[0] == digits[0];
    assert TrimLeft(field) == field;
    TrimBlanks(digits, spaces);
    assert |digits| >= 2 ==> DigitValue(digits[1]).Some?;
  }

  lemma SizeLineReadsBack(line: SizeLine, n: nat, tail: Bytes)
    requires line.Announces(n)
    ensures Partition(line.Text() + CRLF + tail) == (line.Text(), tail) && SizeOf(line.Text()) == Some(n)
  {
    var t := line.Text();
    forall i | 0 <= i < |t| ensures !StartsCrlf(t[i..]) {
      var k := |line.digits| + |line.blanks|;
      if i >= k {
        assert t[i..] == line.extensions[i - k..];
      } else if i < |line.digits| {
        assert DigitValue(line.digits[i]).Some?;
      }
    }
    PartitionAtCrlf(t, tail);
    SizeOfDigits(line.digits, line.blanks, line.extensions, n);
  }

  lemma DecodeChunk(c: Chunk, tail: Bytes)
    requires c.WellFormed()
    ensures Decode(c.Text() + tail) == Prepend(c.data, Decode(tail))
  {
    var rest := c.data + CRLF + tail;
    assert c.Text() + tail == c.line.Text() + CRLF + rest;
    SizeLineReadsBack(c.line, |c.data|, rest);
    assert rest[..|c.data|] == c.data && rest[|c.data| + 2..] == tail;
  }

  /** Whatever the data hold, CRLF included, and whatever comes after the zero
      chunk, the decoder returns exactly the data of the chunks in order. */
  lemma {:induction false} DecodeInvertsEncode(chunks: seq<Chunk>, last: SizeLine, after: Bytes)
    requires (forall c :: c in chunks ==> c.WellFormed()) && last.Announces(0)
    ensures Decode(Encode(chunks, last) + after) == Some(Data(chunks))
  {
    if chunks == [] {
      SizeLineReadsBack(last, 0, after);
    } else {
      var tail := Encode(chunks[1..], last) + after;
      assert Encode(chunks, last) + after == chunks[0].Text() + tail;
      DecodeInvertsEncode(chunks[1..], last, after);
      DecodeChunk(chunks[0], tail);
    }
  }

  // ---- Numbers as Python reads them ---------------------------------------------

  /** The number that digits stand for. */
  function Horner(ds: seq<nat>, radix: nat): nat {
    if ds == [] then 0 else radix * Horner(ds[..|ds| - 1], radix) + ds[|ds| - 1]
  }

  /** Byte b is the digit d, as a figure or as a letter of either case. */
  predicate Writes(b: Byte, d: nat) {
    if d < 10 then b == 48 + d else d < 16 && (b == 55 + d || b == 87 + d)
  }

  /** The digits one after the other, with a single underscore between two or none. */
  predicate IsNumeral(s: Bytes, ds: seq<nat>, radix: nat)
    decreases |s|, 0
  {
    && s != [] && ds != [] && ds[|ds| - 1] < radix && Writes(s[|s| - 1], ds[|ds| - 1])
    && Continues(s[..|s| - 1], ds[..|ds| - 1], radix)
  }

  predicate Continues(front: Bytes, more: seq<nat>, radix: nat)
    decreases |front|, 1
  {
    if more == [] then front == []
    else if IsNumeral(front, more, radix) then true
    else front != [] && front[|front| - 1] == 95 && IsNumeral(front[..|front| - 1], more, radix)
  }

  function RadixOf(base: Base): nat {
    match base case Decimal => 10 case Hexadecimal => 16
  }

  lemma DigitIff(b: Byte, d: nat)
    ensures DigitValue(b) == Some(d) <==> Writes(b, d)
  {
  }

  lemma NumeralEnds(s: Bytes, ds: seq<nat>, radix: nat)
    requires IsNumeral(s, ds, radix)
    ensures s != [] && DigitValue(s[0]).Some? && DigitValue(s[|s| - 1]).Some?
    decreases |ds|
  {
    DigitIff(s[|s| - 1], ds[|ds| - 1]);
    var front, more := s[..|s| - 1], ds[..|ds| - 1];
    if more != [] {
      if IsNumeral(front, more, radix) {
        NumeralEnds(front, more, radix);
      } else {
        NumeralEnds(front[..|front| - 1], more, radix);
      }
    }
  }

  lemma {:induction false} NumeralReads(s: Bytes, ds: seq<nat>, base: Base)
    requires IsNumeral(s, ds, RadixOf(base))
    ensures DigitsValue(s, base) == Some(Horner(ds, RadixOf(base)))
    decreases |ds|
  {
    hide DigitValue, Writes;
    DigitIff(s[|s| - 1], ds[|ds| - 1]);
    var front, more := s[..|s| - 1], ds[..|ds| - 1];
    if more != [] {
      if IsNumeral(front, more, RadixOf(base)) {
        NumeralEnds(front, more, RadixOf(base));
        UnderscoreIsNoDigit();
        NumeralReads(front, more, base);
      } else {
        NumeralReads(front[..|front| - 1], more, base);
      }
    }
  }

  lemma UnderscoreIsNoDigit()
    ensures DigitValue(95).None? && DigitValue(32).None? && DigitValue(43).None? && DigitValue(45).None?
    ensures DigitValue(120).None? && DigitValue(88).None?
  {
  }

  /** Digits are read exactly if they are such a numeral, and as its number. */
  lemma {:induction false} ReadsNumeral(s: Bytes, base: Base) returns (ds: seq<nat>)
    requires DigitsValue(s, base).Some?
    ensures IsNumeral(s, ds, RadixOf(base)) && DigitsValue(s, base) == Some(Horner(ds, RadixOf(base)))
    decreases |s|
  {
    hide DigitValue, Writes;
    var last := DigitValue(s[|s| - 1]).value;
    DigitIff(s[|s| - 1], last);
    var front := s[..|s| - 1];
    if front == [] {
      ds := [last];
      assert ds[..0] == [];
    } else {
      var plain := if front[|front| - 1] == UNDERSCORE then front[..|front| - 1] else front;
      var more := ReadsNumeral(plain, base);
      ds := more + [last];
      assert ds[..|ds| - 1] == more;
    }
  }

  /** The white space of bytes. */
  lemma SpaceIs(b: Byte)
    ensures IsSpace(b) <==> b in [9, 10, 11, 12, 13, 32]
  {
  }

  predicate AllSpace(s: Bytes) {
    forall i :: 0 <= i < |s| ==> IsSpace(s[i])
  }

  lemma {:induction false} TrimLeftIs(blanks: Bytes, rest: Bytes)
    requires AllSpace(blanks) && (rest != [] ==> !IsSpace(rest[0]))
    ensures TrimLeft(blanks + rest) == rest
  {
    hide IsSpace;
    if blanks == [] {
      assert blanks + rest == rest;
    } else {
      assert (blanks + rest)[1..] == blanks[1..] + rest;
      TrimLeftIs(blanks[1..], rest);
    }
  }

  lemma {:induction false} TrimRightIs(front: Bytes, blanks: Bytes)
    requires AllSpace(blanks) && (front != [] ==> !IsSpace(front[|front| - 1]))
    ensures TrimRight(front + blanks) == front
  {
    hide IsSpace;
    if blanks == [] {
      assert front + blanks == front;
    } else {
      assert (front + blanks)[..|front + blanks| - 1] == front + blanks[..|blanks| - 1];
      TrimRightIs(front, blanks[..|blanks| - 1]);
    }
  }

  /** Trimming takes away the white space at both ends and nothing else. */
  lemma TrimIs(before: Bytes, core: Bytes, after: Bytes)
    requires AllSpace(before) && AllSpace(after)
    requires core != [] && !IsSpace(core[0]) && !IsSpace(core[|core| - 1])
    ensures TrimRight(TrimLeft(before + core + after)) == core
  {
    hide IsSpace, TrimLeft, TrimRight;
    assert before + core + after == before + (core + after);
    TrimLeftIs(before, core + after);
    TrimRightIs(core, after);
  }

  predicate IsSign(sign: Bytes) {
    sign == [] || sign == [43] || sign == [45]
  }

  /** What may stand in front of hexadecimal digits. */
  predicate IsPrefix(prefix: Bytes, base: Base) {
    prefix == [] || (base == Hexadecimal
      && prefix in [[48, 120], [48, 88], [48, 120, 95], [48, 88, 95]])
  }

  lemma DigitIsNoSpace(b: Byte)
    requires DigitValue(b).Some? || b == 43 || b == 45
    ensures !IsSpace(b) && b != 120 && b != 88 && b != 95 && (DigitValue(b).Some? ==> b != 43 && b != 45)
  {
  }

  lemma PrefixIsCut(prefix: Bytes, s: Bytes, ds: seq<nat>, base: Base)
    requires IsPrefix(prefix, base) && IsNumeral(s, ds, RadixOf(base))
    ensures var u := prefix + s;
      s == if base.Decimal? || !HasHexPrefix(u) then u
           else if |u| > 2 && u[2] == UNDERSCORE then u[3..] else u[2..]
  {
    hide IsNumeral, DigitValue;
    NumeralEnds(s, ds, RadixOf(base));
    DigitIsNoSpace(s[0]);
    var u := prefix + s;
    if prefix == [] {
      assert u == s;
      if |s| >= 2 && base.Hexadecimal? {
        SecondIsNoX(s, ds);
      }
    } else {
      assert u[0] == prefix[0] && u[1] == prefix[1] && u[|prefix|..] == s;
      if |prefix| == 3 {
        assert u[2] == prefix[2];
      } else {
        assert u[2] == s[0];
      }
    }
  }

  lemma {:induction false} SecondIsNoX(s: Bytes, ds: seq<nat>)
    requires IsNumeral(s, ds, 16) && |s| >= 2
    ensures s[1] != 120 && s[1] != 88
    decreases |ds|
  {
    hide DigitValue;
    DigitIff(s[|s| - 1], ds[|ds| - 1]);
    DigitIsNoSpace(s[|s| - 1]);
    var front, more := s[..|s| - 1], ds[..|ds| - 1];
    if |s| > 2 {
      if IsNumeral(front, more, 16) {
        SecondIsNoX(front, more);
      } else if |s| > 3 {
        SecondIsNoX(front[..|front| - 1], more);
      }
    }
  }

  /** `int(...)`: white space around, a sign, 0x in either case if the base is sixteen, and a
      numeral give the number. */
  lemma IntIsRead(before: Bytes, sign: Bytes, prefix: Bytes, s: Bytes, after: Bytes, ds: seq<nat>, base: Base)
    requires AllSpace(before) && AllSpace(after) && IsSign(sign) && IsPrefix(prefix, base)
    requires IsNumeral(s, ds, RadixOf(base))
    ensures var n: int := Horner(ds, RadixOf(base));
      ParseInt(before + sign + prefix + s + after, base) == Some(if sign == [45] then -n else n)
  {
    hide *;
    var core := sign + (prefix + s);
    NumeralEnds(s, ds, RadixOf(base));
    DigitIsNoSpace(s[0]);
    DigitIsNoSpace(s[|s| - 1]);
    SignedEnds(sign, prefix, s, base);
    assert before + sign + prefix + s + after == before + core + after;
    TrimIs(before, core, after);
    TrimmedIsRead(before + core + after, core, base);
    CoreIsRead(sign, prefix, s, ds, base);
  }

  lemma TrimmedIsRead(s: Bytes, core: Bytes, base: Base)
    requires TrimRight(TrimLeft(s)) == core
    ensures ParseInt(s, base) == IntOf(core, base)
  {
  }

  lemma CoreIsRead(sign: Bytes, prefix: Bytes, s: Bytes, ds: seq<nat>, base: Base)
    requires IsSign(sign) && IsPrefix(prefix, base) && IsNumeral(s, ds, RadixOf(base))
    requires sign + (prefix + s) != []
    requires ((sign + (prefix + s))[0] == 43 <==> sign == [43]) && ((sign + (prefix + s))[0] == 45 <==> sign == [45])
    ensures var n: int := Horner(ds, RadixOf(base));
      IntOf(sign + (prefix + s), base) == Some(if sign == [45] then -n else n)
  {
    hide IsNumeral, DigitsValue, HasHexPrefix, Horner, RadixOf, IsPrefix;
    PrefixIsCut(prefix, s, ds, base);
    NumeralReads(s, ds, base);
    var u := prefix + s;
    if sign == [] {
      assert sign + u == u;
    } else {
      assert (sign + u)[1..] == u;
    }
  }

  lemma SignedEnds(sign: Bytes, prefix: Bytes, s: Bytes, base: Base)
    requires IsSign(sign) && IsPrefix(prefix, base) && s != [] && DigitValue(s[0]).Some? && !IsSpace(s[|s| - 1])
    ensures var core := sign + (prefix + s);
      && core != [] && !IsSpace(core[0]) && !IsSpace(core[|core| - 1])
      && (core[0] == 43 <==> sign == [43]) && (core[0] == 45 <==> sign == [45])
  {
    var core := sign + (prefix + s);
    assert core[|core| - 1] == s[|s| - 1];
    assert core[0] == if sign != [] then sign[0] else if prefix != [] then prefix[0] else s[0];
  }

  /** `s[:n]` and `s[n:]` are the whole for every n; a negative n counts from the end. */
  lemma SlicesAreWhole(s: Bytes, n: int)
    ensures Upto(s, n) + From(s, n) == s
    ensures 0 <= n <= |s| ==> |Upto(s, n)| == n
    ensures 0 <= -n <= |s| && n != 0 ==> |From(s, n)| == -n
    ensures n > |s| ==> Upto(s, n) == s
    ensures -n > |s| ==> From(s, n) == s
  {
  }

  // ---- A stream that ends early -----------------------------------------------

  lemma {:induction false} PartitionWithoutCrlf(s: Bytes)
    requires NoCrlf(s)
    ensures Partition(s) == (s, [])
  {
    if s != [] {
      assert s[0..] == s;
      forall i | 0 <= i < |s| - 1 ensures !StartsCrlf(s[1..][i..]) {
        assert s[1..][i..] == s[i + 1..];
      }
      PartitionWithoutCrlf(s[1..]);
      assert [s[0]] + s[1..] == s;
    }
  }

  lemma {:induction false} HexHasValue(s: Bytes)
    requires s != [] && AllHex(s)
    ensures DigitsValue(s, Hexadecimal).Some?
  {
    var front := s[..|s| - 1];
    assert DigitValue(s[|s| - 1]).Some?;
    if front != [] {
      assert forall i :: 0 <= i < |front| ==> front[i] == s[i];
      assert DigitValue(front[|front| - 1]).Some?;
      HexHasValue(front);
    }
  }

  lemma CutBlanks(line: SizeLine, cut: nat)
    requires AllBlank(line.blanks) && |line.digits| < cut < |line.Text() + CRLF|
    requires line.extensions == [] || cut <= |line.digits| + |line.blanks|
    ensures var spaces := (line.Text() + CRLF)[..cut][|line.digits|..]; forall i :: 0 <= i < |spaces| ==>
      IsSpace(spaces[i])
  {
    var d, b := |line.digits|, |line.blanks|;
    var spaces := (line.Text() + CRLF)[..cut][d..];
    forall i | 0 <= i < |spaces| ensures IsSpace(spaces[i]) {
      if i < b {
        assert spaces[i] == line.Text()[d + i] == line.blanks[i];
      } else {
        assert spaces[i] == CRLF[i - b] == CR;
      }
    }
  }

  lemma CutLineHasASize(line: SizeLine, n: nat, cut: nat)
    requires line.Announces(n) && cut < |line.Text() + CRLF|
    ensures SizeOf((line.Text() + CRLF)[..cut]).Some?
  {
    var piece := (line.Text() + CRLF)[..cut];
    var d, b := |line.digits|, |line.blanks|;
    if cut == 0 {
      EmptyLineIsZero();
    } else if cut <= d {
      var digits := line.digits[..cut];
      assert piece == digits + [] + [];
      assert AllHex(digits);
      HexHasValue(digits);
      SizeOfDigits(digits, [], [], DigitsValue(digits, Hexadecimal).value);
    } else if line.extensions == [] || cut <= d + b {
      var spaces := piece[d..];
      assert piece == line.digits + spaces + [];
      CutBlanks(line, cut);
      SizeOfDigits(line.digits, spaces, [], n);
    } else {
      var extensions := piece[d + b..];
      assert piece == line.digits + line.blanks + extensions;
      assert extensions[0] == line.extensions[0];
      SizeOfDigits(line.digits, line.blanks, extensions, n);
    }
  }

  lemma LoneLineDecodesToNothing(line: Bytes)
    requires NoCrlf(line) && SizeOf(line).Some?
    ensures Decode(line) == Some([])
  {
    PartitionWithoutCrlf(line);
    EmptyLineIsZero();
    var n := SizeOf(line).value;
    assert Upto([], n) == [] && From([], n + 2) == [] && Decode([]) == Some([]);
    PrependNothing(Decode([]));
  }

  /** A size line cut anywhere before its CRLF is complete still reads as some number,
      and no data follow it. */
  lemma CutLineDecodesToNothing(line: SizeLine, n: nat, cut: nat)
    requires line.Announces(n) && cut < |line.Text() + CRLF|
    ensures Decode((line.Text() + CRLF)[..cut]) == Some([])
  {
    CutLineHasNoCrlf(line, n, cut);
    CutLineHasASize(line, n, cut);
    LoneLineDecodesToNothing((line.Text() + CRLF)[..cut]);
  }

  lemma CutLineHasNoCrlf(line: SizeLine, n: nat, cut: nat)
    requires line.Announces(n) && cut < |line.Text() + CRLF|
    ensures NoCrlf((line.Text() + CRLF)[..cut])
  {
    var piece, k := (line.Text() + CRLF)[..cut], |line.digits| + |line.blanks|;
    forall i | 0 <= i < |piece| ensures !StartsCrlf(piece[i..]) {
      if i < |line.digits| {
        assert DigitValue(line.digits[i]).Some?;
      } else if k <= i && i + 1 < |line.Text()| {
        assert !StartsCrlf(line.extensions[i - k..]);
        assert piece[i] == line.extensions[i - k];
        assert i + 1 < cut ==> piece[i + 1] == line.extensions[i + 1 - k];
      }
    }
  }

  lemma CutDataDecodesToPrefix(c: Chunk, d: Bytes)
    requires c.WellFormed() && d < c.data + CRLF
    ensures Decode(c.line.Text() + CRLF + d) == Some(Upto(d, |c.data|)) && Upto(d, |c.data|) <= c.data
  {
    SizeLineReadsBack(c.line, |c.data|, d);
    EmptyLineIsZero();
    assert Decode([]) == Some([]);
    assert Upto(d, |c.data|) + [] == Upto(d, |c.data|);
  }

  lemma CutConcat(a: Bytes, b: Bytes, cut: nat)
    requires cut <= |a + b|
    ensures (a + b)[..cut] == if cut <= |a| then a[..cut] else a + b[..cut - |a|]
  {
  }

  lemma CutChunk(c: Chunk, cut: nat)
    requires c.WellFormed() && cut < |c.Text()|
    ensures var body := Decode(c.Text()[..cut]);
      && body.Some? && body.value <= c.data
      && (body.value == c.data <==> cut >= |c.line.Text() + CRLF| + |c.data|)
  {
    var head, data := c.line.Text() + CRLF, c.data + CRLF;
    assert c.Text() == head + data;
    CutConcat(head, data, cut);
    if cut < |head| {
      CutLineDecodesToNothing(c.line, |c.data|, cut);
    } else {
      assert head + data[..cut - |head|] == (head + data)[..cut];
      CutDataDecodesToPrefix(c, data[..cut - |head|]);
    }
  }

  lemma CutLastLine(last: SizeLine, cut: nat)
    requires last.Announces(0) && cut <= |last.Text() + CRLF|
    ensures Decode((last.Text() + CRLF)[..cut]) == Some([])
  {
    var whole := last.Text() + CRLF;
    if cut == |whole| {
      SizeLineReadsBack(last, 0, []);
      assert whole[..cut] == whole + [];
    } else {
      CutLineDecodesToNothing(last, 0, cut);
    }
  }

  /** How much of a response the decoder needs: all bytes up to the last chunk's data. */
  function Needed(chunks: seq<Chunk>): nat {
    if chunks == [] then 0
    else if |chunks| == 1 then |chunks[0].line.Text() + CRLF| + |chunks[0].data|
    else |chunks[0].Text()| + Needed(chunks[1..])
  }

  /** Decoding works and gives a beginning of `data`. */
  predicate YieldsPrefix(stream: Bytes, data: Bytes) {
    var body := Decode(stream);
    body.Some? && body.value <= data
  }

  lemma PrefixAfterChunk(c: Chunk, tail: Bytes, data: Bytes)
    requires c.WellFormed() && YieldsPrefix(tail, data)
    ensures YieldsPrefix(c.Text() + tail, c.data + data)
  {
    DecodeChunk(c, tail);
    var rest := Decode(tail).value;
    assert (c.data + data)[..|c.data + rest|] == c.data + data[..|rest|];
  }

  lemma PrefixWithinChunk(c: Chunk, cut: nat, data: Bytes)
    requires c.WellFormed() && cut < |c.Text()|
    ensures YieldsPrefix(c.Text()[..cut], c.data + data)
  {
    CutChunk(c, cut);
    var body := Decode(c.Text()[..cut]).value;
    assert (c.data + data)[..|body|] == c.data[..|body|];
  }

  /** If the peer stops sending anywhere, the decoder reports no error and returns a
      beginning of the body: it may lose bytes, silently, but invents none. */
  lemma {:induction false} TruncationYieldsPrefix(chunks: seq<Chunk>, last: SizeLine, cut: nat)
    requires (forall c :: c in chunks ==> c.WellFormed()) && last.Announces(0)
    requires cut <= |Encode(chunks, last)|
    ensures YieldsPrefix(Encode(chunks, last)[..cut], Data(chunks))
  {
    if chunks == [] {
      CutLastLine(last, cut);
    } else {
      var c, tail, data := chunks[0], Encode(chunks[1..], last), Data(chunks[1..]);
      assert Encode(chunks, last) == c.Text() + tail && Data(chunks) == c.data + data;
      CutConcat(c.Text(), tail, cut);
      if cut < |c.Text()| {
        PrefixWithinChunk(c, cut, data);
        assert Encode(chunks, last)[..cut] == c.Text()[..cut];
      } else {
        var rest := tail[..cut - |c.Text()|];
        TruncationYieldsPrefix(chunks[1..], last, cut - |c.Text()|);
        PrefixAfterChunk(c, rest, data);
        assert Encode(chunks, last)[..cut] == c.Text() + rest;
      }
    }
  }

  lemma {:induction false} NeededAtMost(chunks: seq<Chunk>)
    requires chunks != []
    ensures |chunks[0].line.Text() + CRLF| + |chunks[0].data| <= Needed(chunks)
    ensures |chunks| > 1 ==> |chunks[0].Text()| < Needed(chunks)
  {
    if |chunks| > 1 {
      NeededAtMost(chunks[1..]);
    }
  }

  lemma PrependComplete(a: Bytes, body: Option<Bytes>, data: Bytes)
    ensures Prepend(a, body) == Some(a + data) <==> body == Some(data)
  {
    if body.Some? && a + body.value == a + data {
      assert body.value == (a + body.value)[|a|..] && data == (a + data)[|a|..];
    }
  }

  /** The whole body comes back exactly if the cut leaves all data of the last chunk. */
  lemma {:induction false} TruncationLosesNothingIff(chunks: seq<Chunk>, last: SizeLine, cut: nat)
    requires (forall c :: c in chunks ==> c.WellFormed()) && last.Announces(0)
    requires cut <= |Encode(chunks, last)|
    ensures Decode(Encode(chunks, last)[..cut]) == Some(Data(chunks)) <==> cut >= Needed(chunks)
  {
    hide Decode, Chunk.WellFormed;
    if chunks == [] {
      CutLastLine(last, cut);
    } else {
      var c, tail, data := chunks[0], Encode(chunks[1..], last), Data(chunks[1..]);
      assert Encode(chunks, last) == c.Text() + tail && Data(chunks) == c.data + data;
      NeededAtMost(chunks);
      CutConcat(c.Text(), tail, cut);
      if cut < |c.Text()| {
        CutChunk(c, cut);
        assert Encode(chunks, last)[..cut] == c.Text()[..cut];
        DataIsShort(chunks);
      } else {
        var rest := tail[..cut - |c.Text()|];
        TruncationLosesNothingIff(chunks[1..], last, cut - |c.Text()|);
        DecodeChunk(c, rest);
        PrependComplete(c.data, Decode(rest), data);
        assert Encode(chunks, last)[..cut] == c.Text() + rest;
      }
    }
  }

  lemma DataIsShort(chunks: seq<Chunk>)
    requires chunks != [] && forall c :: c in chunks ==> c.WellFormed()
    ensures Data(chunks) == chunks[0].data + Data(chunks[1..])
    ensures |chunks| == 1 ==> Data(chunks) == chunks[0].data
    ensures |chunks| > 1 ==> |Data(chunks)| > |chunks[0].data|
  {
    if |chunks| > 1 {
      assert chunks[1] in chunks && chunks[1].WellFormed();
      assert Data(chunks[1..]) == chunks[1].data + Data(chunks[2..]);
    }
  }
}
