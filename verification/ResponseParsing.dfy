/**
 A whole HTTP/1.1 response taken apart: the blank line, the status, the header
 fields in a dictionary, and the body they call for.
 */
module ResponseParsing {
  import opened Basics
  import opened ChunkedBody

  const COLON: Byte := 58
  /** "transfer-encoding" and "content-length" */
  const TRANSFER_ENCODING: Bytes := [116, 114, 97, 110, 115, 102, 101, 114, 45, 101, 110, 99, 111, 100, 105, 110, 103]
  const CONTENT_LENGTH: Bytes := [99, 111, 110, 116, 101, 110, 116, 45, 108, 101, 110, 103, 116, 104]

  datatype Parsed = Parsed(status: int, body: Bytes)

  predicate StartsBlank(s: Bytes) {
    StartsCrlf(s) && StartsCrlf(s[2..])
  }

  /** `raw.partition(b"\r\n\r\n")`, if the separator is there. */
  function PartitionBlank(s: Bytes): Option<(Bytes, Bytes)> {
    if s == [] then None
    else if StartsBlank(s) then Some(([], s[4..]))
    else Push(s[0], PartitionBlank(s[1..]))
  }

  function Push(b: Byte, r: Option<(Bytes, Bytes)>): Option<(Bytes, Bytes)> {
    if r.None? then None else Some(([b] + r.value.0, r.value.1))
  }

  /** `s.split(b"\r\n")` */
  function Lines(s: Bytes): (r: seq<Bytes>)
    ensures r != []
  {
    if s == [] then [[]]
    else if StartsCrlf(s) then [[]] + Lines(s[2..])
    else
      var r := Lines(s[1..]);
      [[s[0]] + r[0]] + r[1..]
  }

  function Before(s: Bytes, b: Byte): Bytes {
    if s == [] || s[0] == b then [] else [s[0]] + Before(s[1..], b)
  }

  function After(s: Bytes, b: Byte): Option<Bytes> {
    if s == [] then None else if s[0] == b then Some(s[1..]) else After(s[1..], b)
  }

  function Trim(s: Bytes): Bytes {
    TrimRight(TrimLeft(s))
  }

  /** `int(line.split(b" ")[1])`; None is its IndexError or ValueError. */
  function StatusOf(line: Bytes): Option<int> {
    var rest := After(line, SPACE);
    if rest.None? then None else ParseInt(Before(rest.value, SPACE), Decimal)
  }

  function NameOf(line: Bytes): Bytes {
    Lower(Trim(Before(line, COLON)))
  }

  /** What follows the first colon; nothing if there is none. */
  function ValueOf(line: Bytes): Bytes {
    var v := After(line, COLON);
    if v.None? then [] else Trim(v.value)
  }

  /** The last line of a name decides. */
  function Lookup(lines: seq<Bytes>, name: Bytes): Option<Bytes> {
    if lines == [] then None
    else if NameOf(lines[|lines| - 1]) == name then Some(ValueOf(lines[|lines| - 1]))
    else Lookup(lines[..|lines| - 1], name)
  }

  /** Status and undecoded body, or None where the program answers -1. */
  function Parse(raw: Bytes): Option<Parsed> {
    var parts := PartitionBlank(raw);
    if parts.None? then None
    else
      var lines := Lines(parts.value.0);
      var status := StatusOf(lines[0]);
      var body := Body(Lookup(lines[1..], TRANSFER_ENCODING), Lookup(lines[1..], CONTENT_LENGTH), parts.value.1);
      if status.None? || body.None? then None else Some(Parsed(status.value, body.value))
  }

  function Get(m: map<Bytes, Bytes>, name: Bytes): Option<Bytes> {
    if name in m then Some(m[name]) else None
  }

  /** The header dictionary. */
  method ReadFields(lines: seq<Bytes>) returns (fields: map<Bytes, Bytes>)
    ensures forall name :: Get(fields, name) == Lookup(lines, name)
  {
    hide NameOf, ValueOf;
    fields := map[];
    for i := 0 to |lines|
      invariant forall name :: Get(fields, name) == Lookup(lines[..i], name)
    {
      assert lines[..i + 1][..i] == lines[..i];
      fields := fields[NameOf(lines[i]) := ValueOf(lines[i])];
    }
    assert lines[..|lines|] == lines;
  }

  /** `parse`, up to the decoding of the body as text. */
  method ParseResponse(raw: Bytes) returns (r: Option<Parsed>)
    ensures r == Parse(raw)
  {
    hide PartitionBlank, Lines, StatusOf, Lookup, Decode, ParseInt, Lower;
    var parts := PartitionBlank(raw);
    if parts.None? {
      return None;
    }
    var lines, rest := Lines(parts.value.0), parts.value.1;
    var status := StatusOf(lines[0]);
    if status.None? {
      return None;
    }
    var fields := ReadFields(lines[1..]);
    assert Get(fields, TRANSFER_ENCODING) == Lookup(lines[1..], TRANSFER_ENCODING);
    assert Get(fields, CONTENT_LENGTH) == Lookup(lines[1..], CONTENT_LENGTH);
    if TRANSFER_ENCODING in fields && Lower(fields[TRANSFER_ENCODING]) == CHUNKED {
      var body := DecodeChunked(rest);
      r := if body.None? then None else Some(Parsed(status.value, body.value));
    } else if CONTENT_LENGTH in fields {
      var n := ParseInt(fields[CONTENT_LENGTH], Decimal);
      r := if n.None? then None else Some(Parsed(status.value, Upto(rest, n.value)));
    } else {
      r := Some(Parsed(status.value, rest));
    }
  }

  // ---- What a server writes -----------------------------------------------------------

  /** A header field as written: blanks may stand around name and value. */
  datatype Field = Field(name: Bytes, value: Bytes) {
    predicate Plain() {
      NoCrlf(name + [58] + value) && 58 !in name
    }

    function Text(): Bytes {
      name + [58] + value
    }
  }

  function Texts(fields: seq<Field>): (r: seq<Bytes>)
    ensures |r| == |fields|
  {
    if fields == [] then [] else Texts(fields[..|fields| - 1]) + [fields[|fields| - 1].Text()]
  }

  /** Lines with CRLF between them. */
  function Head(lines: seq<Bytes>): Bytes {
    if lines == [] then []
    else if |lines| == 1 then lines[0]
    else lines[0] + [13, 10] + Head(lines[1..])
  }

  predicate FullLine(line: Bytes) {
    line != [] && NoCrlf(line)
  }

  /** What a field of this name was last set to. */
  function LastSet(fields: seq<Field>, name: Bytes): Option<Bytes> {
    if fields == [] then None
    else
      var last := fields[|fields| - 1];
      if Lower(Trim(last.name)) == name then Some(Trim(last.value)) else LastSet(fields[..|fields| - 1], name)
  }

  // ---- Reading it back -----------------------------------------------------------------

  lemma NoCrlfTail(s: Bytes)
    requires NoCrlf(s) && s != []
    ensures NoCrlf(s[1..]) && !StartsCrlf(s)
  {
    assert s[0..] == s;
    forall i | 0 <= i < |s| - 1 ensures !StartsCrlf(s[1..][i..]) {
      assert s[1..][i..] == s[i + 1..];
    }
  }

  lemma NoStartBeforeEnd(line: Bytes, rest: Bytes)
    requires NoCrlf(line) && line != []
    ensures !StartsCrlf(line + CRLF + rest)
    ensures (line + CRLF + rest)[1..] == line[1..] + CRLF + rest && (line + CRLF + rest)[0] == line[0]
  {
    NoCrlfTail(line);
    assert (line + CRLF + rest)[1] == if |line| == 1 then CR else line[1];
  }

  /** Within a line and at its end no blank line begins, if another line follows. */
  lemma {:induction false} BlankIsLater(line: Bytes, rest: Bytes)
    requires NoCrlf(line) && rest != [] && !StartsCrlf(rest)
    ensures PartitionBlank(line + CRLF + rest) ==
      if PartitionBlank(rest).None? then None
      else Some((line + CRLF + PartitionBlank(rest).value.0, PartitionBlank(rest).value.1))
  {
    var s := line + CRLF + rest;
    if line == [] {
      assert s == CRLF + rest && s[2..] == rest && s[1..] == [LF] + rest && s[1..][1..] == rest;
      var p := PartitionBlank(rest);
      assert PartitionBlank(s[1..]) == Push(LF, p) && PartitionBlank(s) == Push(CR, Push(LF, p));
      if p.Some? {
        assert [CR] + ([LF] + p.value.0) == [] + CRLF + p.value.0;
      }
    } else {
      NoStartBeforeEnd(line, rest);
      NoCrlfTail(line);
      BlankIsLater(line[1..], rest);
      var p := PartitionBlank(rest);
      if p.Some? {
        assert [line[0]] + (line[1..] + CRLF + p.value.0) == line + CRLF + p.value.0;
      }
    }
  }

  lemma {:induction false} BlankIsHere(line: Bytes, body: Bytes)
    requires NoCrlf(line)
    ensures PartitionBlank(line + CRLF + CRLF + body) == Some((line, body))
  {
    var s := line + CRLF + CRLF + body;
    assert s == line + CRLF + (CRLF + body);
    if line == [] {
      assert s == CRLF + (CRLF + body) && s[2..] == CRLF + body && s[4..] == body;
    } else {
      NoStartBeforeEnd(line, CRLF + body);
      NoCrlfTail(line);
      BlankIsHere(line[1..], body);
      assert s[1..] == line[1..] + CRLF + CRLF + body;
      assert [line[0]] + line[1..] == line;
    }
  }

  /** The head ends at the first blank line and nowhere before. */
  lemma {:induction false} HeadIsCutOff(lines: seq<Bytes>, body: Bytes)
    requires lines != [] && forall l :: l in lines ==> FullLine(l)
    ensures PartitionBlank(Head(lines) + CRLF + CRLF + body) == Some((Head(lines), body))
  {
    hide PartitionBlank, NoCrlf;
    assert FullLine(lines[0]);
    if |lines| == 1 {
      BlankIsHere(lines[0], body);
    } else {
      var rest := Head(lines[1..]) + CRLF + CRLF + body;
      HeadIsCutOff(lines[1..], body);
      assert Head(lines) + CRLF + CRLF + body == lines[0] + CRLF + rest;
      HeadStarts(lines[1..], CRLF + CRLF + body);
      assert rest == Head(lines[1..]) + (CRLF + CRLF + body);
      BlankIsLater(lines[0], rest);
    }
  }

  lemma HeadStarts(lines: seq<Bytes>, after: Bytes)
    requires lines != [] && forall l :: l in lines ==> FullLine(l)
    requires StartsCrlf(after)
    ensures Head(lines) + after != [] && !StartsCrlf(Head(lines) + after)
  {
    var line, s := lines[0], Head(lines) + after;
    assert FullLine(line);
    NoCrlfTail(line);
    assert s[0] == line[0];
    assert s[1] == if |line| == 1 then CR else line[1];
  }

  lemma {:induction false} LineIsSplitOff(line: Bytes, rest: Bytes)
    requires NoCrlf(line)
    ensures Lines(line + CRLF + rest) == [line] + Lines(rest)
  {
    var s := line + CRLF + rest;
    if line == [] {
      assert s == CRLF + rest && s[2..] == rest;
    } else {
      NoStartBeforeEnd(line, rest);
      NoCrlfTail(line);
      LineIsSplitOff(line[1..], rest);
      assert [line[0]] + line[1..] == line;
    }
  }

  lemma {:induction false} LoneLine(line: Bytes)
    requires NoCrlf(line)
    ensures Lines(line) == [line]
  {
    if line != [] {
      NoCrlfTail(line);
      LoneLine(line[1..]);
      assert [line[0]] + line[1..] == line;
    }
  }

  lemma HeadOf(lines: seq<Bytes>)
    requires |lines| > 1
    ensures Head(lines) == lines[0] + CRLF + Head(lines[1..])
  {
  }

  lemma {:induction false} LinesReadBack(lines: seq<Bytes>)
    requires lines != [] && forall l :: l in lines ==> NoCrlf(l)
    ensures Lines(Head(lines)) == lines
  {
    hide NoCrlf, Lines;
    if |lines| == 1 {
      LoneLine(lines[0]);
    } else {
      HeadOf(lines);
      hide Head;
      LinesReadBack(lines[1..]);
      LineIsSplitOff(lines[0], Head(lines[1..]));
      assert [lines[0]] + lines[1..] == lines;
    }
  }

  lemma {:induction false} FieldReadsBack(name: Bytes, value: Bytes)
    requires COLON !in name
    ensures Before(name + [COLON] + value, COLON) == name && After(name + [COLON] + value, COLON) == Some(value)
  {
    var s := name + [COLON] + value;
    if name == [] {
      assert s == [COLON] + value && s[1..] == value;
    } else {
      assert s[0] == name[0] && s[1..] == name[1..] + [COLON] + value;
      FieldReadsBack(name[1..], value);
      assert [name[0]] + name[1..] == name;
    }
  }

  lemma {:induction false} FieldsReadBack(fields: seq<Field>, name: Bytes)
    requires forall f :: f in fields ==> f.Plain()
    ensures Lookup(Texts(fields), name) == LastSet(fields, name)
  {
    hide Trim, Lower, NoCrlf;
    if fields != [] {
      var last := fields[|fields| - 1];
      assert last.Plain();
      FieldReadsBack(last.name, last.value);
      FieldsReadBack(fields[..|fields| - 1], name);
      assert Texts(fields)[..|fields| - 1] == Texts(fields[..|fields| - 1]);
    }
  }

  lemma {:induction false} TextsAreFull(fields: seq<Field>)
    requires forall f :: f in fields ==> f.Plain()
    ensures forall l :: l in Texts(fields) ==> FullLine(l)
  {
    hide NoCrlf;
    if fields != [] {
      TextsAreFull(fields[..|fields| - 1]);
      assert fields[|fields| - 1].Plain();
    }
  }

  /** Whatever fields a response has, in any order and letter case, and whatever its body
      holds: the status is the second word of its first line, and the body is what the last
      transfer coding and length fields call for. */
  lemma ResponseReadsBack(first: Bytes, fields: seq<Field>, body: Bytes)
    requires FullLine(first) && forall f :: f in fields ==> f.Plain()
    ensures var te, length := LastSet(fields, TRANSFER_ENCODING), LastSet(fields, CONTENT_LENGTH);
      Parse(Head([first] + Texts(fields)) + CRLF + CRLF + body) ==
      if StatusOf(first).None? || Body(te, length, body).None? then None
      else Some(Parsed(StatusOf(first).value, Body(te, length, body).value))
  {
    hide Body, StatusOf, LastSet, Lookup, PartitionBlank, Lines, Head;
    var lines := [first] + Texts(fields);
    TextsAreFull(fields);
    HeadIsCutOff(lines, body);
    LinesReadBack(lines);
    assert lines[1..] == Texts(fields);
    FieldsReadBack(fields, TRANSFER_ENCODING);
    FieldsReadBack(fields, CONTENT_LENGTH);
  }

  /** The response as it is sent. */
  function Response(first: Bytes, fields: seq<Field>, rest: Bytes): Bytes {
    Head([first] + Texts(fields)) + [13, 10, 13, 10] + rest
  }

  lemma BlankLineIs(head: Bytes, rest: Bytes)
    ensures head + [13, 10, 13, 10] + rest == head + CRLF + CRLF + rest
  {
  }

  predicate WellFormed(first: Bytes, fields: seq<Field>) {
    FullLine(first) && StatusOf(first).Some? && forall f :: f in fields ==> f.Plain()
  }

  predicate IsAscii(s: string) {
    forall i :: 0 <= i < |s| ==> (s[i] as int) < 128
  }

  function Ascii(s: string): (b: Bytes)
    requires IsAscii(s)
    ensures |b| == |s|
  {
    seq(|s|, i requires 0 <= i < |s| => s[i] as int)
  }

  lemma NamesAre()
    ensures TRANSFER_ENCODING == Ascii("transfer-encoding") && CONTENT_LENGTH == Ascii("content-length")
    ensures CHUNKED == Ascii("chunked")
  {
  }

  predicate SetsChunked(fields: seq<Field>) {
    var te := LastSet(fields, Ascii("transfer-encoding"));
    te.Some? && Lower(te.value) == Ascii("chunked")
  }

  /** Capitals are lowered byte by byte. */
  lemma LowerIs(s: Bytes, i: nat)
    requires i < |s|
    ensures |Lower(s)| == |s| && Lower(s)[i] == s[i] + if 65 <= s[i] <= 90 then 32 else 0
  {
  }

  lemma {:induction false} WordAt(word: Bytes, rest: Bytes)
    requires 32 !in word && (rest != [] ==> rest[0] == 32)
    ensures Before(word + rest, 32) == word
    ensures After(word + rest, 32) == if rest == [] then None else Some(rest[1..])
  {
    if word == [] {
      assert word + rest == rest;
    } else {
      assert (word + rest)[1..] == word[1..] + rest;
      WordAt(word[1..], rest);
      assert [word[0]] + word[1..] == word;
    }
  }

  /** The status is the number in the second word of the first line. */
  lemma StatusIs(version: Bytes, digits: Bytes, ds: seq<nat>, reason: Bytes)
    requires 32 !in version && IsNumeral(digits, ds, 10) && 32 !in digits && (reason != [] ==> reason[0] == 32)
    ensures StatusOf(version + [32] + digits + reason) == Some(Horner(ds, 10))
  {
    hide ParseInt, IsNumeral, Horner, Before, After;
    var rest := [32] + (digits + reason);
    assert version + [32] + digits + reason == version + rest && rest[1..] == digits + reason;
    WordAt(version, rest);
    WordAt(digits, reason);
    assert [] + [] + [] + digits + [] == digits;
    IntIsRead([], [], [], digits, [], ds, Decimal);
  }

  /** A chunked response gives the data of its chunks, whatever length it claims besides. */
  lemma ChunkedResponseReadsBack(first: Bytes, fields: seq<Field>, chunks: seq<Chunk>, last: SizeLine, after: Bytes)
    requires WellFormed(first, fields) && SetsChunked(fields)
    requires (forall c :: c in chunks ==> c.WellFormed()) && last.Announces(0)
    ensures Parse(Response(first, fields, Encode(chunks, last) + after)) ==
      Some(Parsed(StatusOf(first).value, Data(chunks)))
  {
    hide Parse, StatusOf, LastSet, Decode, ParseInt, Lower, Encode, Data, FullLine, Chunk.WellFormed;
    NamesAre();
    BlankLineIs(Head([first] + Texts(fields)), Encode(chunks, last) + after);
    ResponseReadsBack(first, fields, Encode(chunks, last) + after);
    DecodeInvertsEncode(chunks, last, after);
  }

  /** One that is not gives as many bytes as its last length field says, and no more. */
  lemma SizedResponseReadsBack(first: Bytes, fields: seq<Field>, digits: Bytes, body: Bytes, after: Bytes)
    requires WellFormed(first, fields) && !SetsChunked(fields)
    requires LastSet(fields, Ascii("content-length")) == Some(digits) && ParseInt(digits, Decimal) == Some(|body|)
    ensures Parse(Response(first, fields, body + after)) == Some(Parsed(StatusOf(first).value, body))
  {
    hide Parse, StatusOf, LastSet, Decode, ParseInt, Lower, FullLine;
    NamesAre();
    BlankLineIs(Head([first] + Texts(fields)), body + after);
    ResponseReadsBack(first, fields, body + after);
    assert Upto(body + after, |body|) == (body + after)[..|body|] == body;
  }

  /** And one without a length, everything that was sent. */
  lemma UnsizedResponseReadsBack(first: Bytes, fields: seq<Field>, body: Bytes)
    requires WellFormed(first, fields) && !SetsChunked(fields) && LastSet(fields, Ascii("content-length")).None?
    ensures Parse(Response(first, fields, body)) == Some(Parsed(StatusOf(first).value, body))
  {
    hide Parse, StatusOf, LastSet, Decode, ParseInt, Lower, FullLine;
    NamesAre();
    BlankLineIs(Head([first] + Texts(fields)), body);
    ResponseReadsBack(first, fields, body);
  }

  /** No blank line, no response. */
  lemma {:induction false} NoBlankNoResponse(raw: Bytes)
    requires forall i :: 0 <= i < |raw| ==> !StartsBlank(raw[i..])
    ensures PartitionBlank(raw) == None && Parse(raw) == None
  {
    if raw != [] {
      assert raw[0..] == raw;
      forall i | 0 <= i < |raw| - 1 ensures !StartsBlank(raw[1..][i..]) {
        assert raw[1..][i..] == raw[i + 1..];
      }
      NoBlankNoResponse(raw[1..]);
    }
  }
}
