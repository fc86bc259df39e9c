/**
  The wire format of version 1.1 of the BSON specification, as far as `mongo_auth.go` reads or
  writes it, as a relation between bytes and fields of its own; and what the encoder and the
  decoder of `Bson` do in terms of it.
 */
module BsonGrammar {
  import opened Bytes
  import Bson

  /** A field of a document on the wire.  64-bit integers, dates and doubles come from servers only. */
  datatype Field = Field(key: seq<byte>, content: Content)

  datatype Content =
    | Double(word: nat)
    | String(text: seq<byte>)
    | Sub(fields: seq<Field>)
    | Bin(subtype: byte, data: seq<byte>)
    | Boolean(b: bool)
    | DateTime(ms: int)
    | Int32(n: int)
    | Int64(n: int)

  // ----- the grammar -----

  function Word32(s: seq<byte>): (v: nat)
    requires |s| == 4
    ensures v < 0x1_0000_0000
  {
    var a: int, b: int, c: int, d: int := s[0], s[1], s[2], s[3];
    a + 0x100 * b + 0x1_0000 * c + 0x100_0000 * d
  }

  function Word64(s: seq<byte>): (v: nat)
    requires |s| == 8
    ensures v < 0x1_0000_0000_0000_0000
  {
    Word32(s[..4]) + 0x1_0000_0000 * Word32(s[4..])
  }

  /** The word of 32 bits that stands for `n` in two's complement. */
  ghost predicate Stands32(s: seq<byte>, n: int) {
    |s| == 4 && -0x8000_0000 <= n < 0x8000_0000 && Word32(s) == if n < 0 then n + 0x1_0000_0000 else n
  }

  ghost predicate Stands64(s: seq<byte>, n: int) {
    && |s| == 8 && -0x8000_0000_0000_0000 <= n < 0x8000_0000_0000_0000
    && Word64(s) == if n < 0 then n + 0x1_0000_0000_0000_0000 else n
  }

  ghost predicate IsContent(kind: byte, s: seq<byte>, c: Content)
    decreases c, 0
  {
    match c
    case Double(word) => kind == 0x01 && |s| == 8 && Word64(s) == word
    case String(text) =>
      && kind == 0x02 && |s| == |text| + 5
      && Word32(s[..4]) == |text| + 1 && s[4..|text| + 4] == text && s[|text| + 4] == 0
    case Sub(fields) => kind == 0x03 && IsDocument(s, fields)
    case Bin(subtype, data) =>
      kind == 0x05 && |s| == |data| + 5 && Word32(s[..4]) == |data| && s[4] == subtype && s[5..] == data
    case Boolean(b) => kind == 0x08 && s == [if b then 1 else 0]
    case DateTime(ms) => kind == 0x09 && Stands64(s, ms)
    case Int32(n) => kind == 0x10 && Stands32(s, n)
    case Int64(n) => kind == 0x12 && Stands64(s, n)
  }

  /** A type byte, the key with a zero byte behind it, the content; and so on. */
  ghost predicate IsElements(s: seq<byte>, fields: seq<Field>)
    decreases fields, 1
  {
    if fields == [] then s == []
    else exists kind, content, rest :: IsFirst(s, fields, kind, content, rest)
  }

  ghost predicate IsFirst(s: seq<byte>, fields: seq<Field>, kind: byte, content: seq<byte>, rest: seq<byte>)
    requires fields != []
    decreases fields, 0
  {
    && 0 !in fields[0].key && s == [kind] + fields[0].key + [0] + content + rest
    && IsContent(kind, content, fields[0].content) && IsElements(rest, fields[1..])
  }

  /** The length of the whole, the elements and a zero byte. */
  ghost predicate IsDocument(s: seq<byte>, fields: seq<Field>)
    decreases fields, 2
  {
    && |s| >= 5 && Word32(s[..4]) == |s| && s[|s| - 1] == 0
    && IsElements(s[4..|s| - 1], fields)
  }

  // ----- what fields mean to the two programs -----

  /** The fields of a document that the encoder is given. */
  function Described(doc: seq<Bson.Entry>): seq<Field>
    decreases doc, 0
  {
    if doc == [] then []
    else [Field(doc[0].key, ContentOf(doc[0].value))] + Described(doc[1..])
  }

  function ContentOf(v: Bson.Value): Content
    decreases v
  {
    match v
    case Int(n) => Int32(Signed32(n % 0x1_0000_0000))
    case Text(text) => String(text)
    case Bool(b) => Boolean(b)
    case Binary(data) => Bin(0, data)
    case Document(entries) => Sub(Described(entries))
  }

  /** What the decoder makes of some fields: dates are passed over, a later field replaces an earlier
      one of the same name, and the subtype of a binary is not kept. */
  function Meant(found: map<seq<byte>, Bson.Json>, fields: seq<Field>): map<seq<byte>, Bson.Json>
    decreases fields, 1
  {
    if fields == [] then found
    else if fields[0].content.DateTime? then Meant(found, fields[1..])
    else Meant(found[fields[0].key := JsonOf(fields[0].content)], fields[1..])
  }

  function JsonOf(c: Content): Bson.Json
    requires !c.DateTime?
    decreases c
  {
    match c
    case Double(word) => Bson.Double(word)
    case String(text) => Bson.Str(text)
    case Sub(fields) => Bson.Object(Meant(map[], fields))
    case Bin(_, data) => Bson.Blob(data)
    case Boolean(b) => Bson.Truth(b)
    case Int32(n) => Bson.Number(n)
    case Int64(n) => Bson.Number(n)
  }

  // ----- the encoder writes this format -----

  lemma WordIs(s: seq<byte>)
    requires |s| == 4
    ensures Word32(s) == Le32(s)
  {
    assert s[..2] == [s[0], s[1]] && s[2..] == [s[2], s[3]];
  }

  lemma Put32Is(v: int)
    ensures Word32(Put32(v)) == v % 0x1_0000_0000
  {
    WordIs(Put32(v));
  }

  lemma Signed32Stands(n: int)
    ensures Stands32(Put32(n), Signed32(n % 0x1_0000_0000))
  {
    Put32Is(n);
  }

  lemma {:induction false} ContentWritten(v: Bson.Value)
    requires |Bson.Payload(v)| < TWO32 && (v.Document? ==> Bson.KeysClean(v.entries))
    ensures IsContent(Bson.Kind(v), Bson.Payload(v), ContentOf(v))
    decreases v, 0
  {
    hide Put32, Word32;
    var s := Bson.Payload(v);
    match v
    case Int(n) =>
      Signed32Stands(n);
    case Text(text) =>
      Put32Is(|text| + 1);
      assert s[..4] == Put32(|text| + 1) && s[4..|text| + 4] == text;
    case Bool(b) =>
    case Binary(data) =>
      Put32Is(|data|);
      assert s[..4] == Put32(|data|) && s[5..] == data;
    case Document(entries) =>
      DocumentWritten(entries);
  }

  lemma {:induction false} ElementsWritten(doc: seq<Bson.Entry>)
    requires Bson.KeysClean(doc) && |Bson.Elements(doc)| < TWO32
    ensures IsElements(Bson.Elements(doc), Described(doc))
    decreases doc, 0
  {
    hide IsContent, Bson.Payload, Bson.Kind;
    if doc != [] {
      var e, rest := doc[0], doc[1..];
      assert e in doc && forall x :: x in rest ==> x in doc;
      ContentWritten(e.value);
      ElementsWritten(rest);
      var fields := Described(doc);
      assert fields[1..] == Described(rest);
      assert Bson.Element(e) == [Bson.Kind(e.value)] + e.key + [0] + Bson.Payload(e.value);
      assert IsFirst(Bson.Elements(doc), fields, Bson.Kind(e.value), Bson.Payload(e.value), Bson.Elements(rest));
    }
  }

  /** What the encoder writes is a document with the fields of the map it was given, integers cut to
      32 bits. */
  lemma {:induction false} DocumentWritten(doc: seq<Bson.Entry>)
    requires Bson.KeysClean(doc) && |Bson.Encode(doc)| < TWO32
    ensures IsDocument(Bson.Encode(doc), Described(doc))
    decreases doc, 1
  {
    hide Put32, Word32, IsElements, Bson.Elements, Bson.KeysClean;
    var s, body := Bson.Encode(doc), Bson.Elements(doc);
    Put32Is(|body| + 5);
    ElementsWritten(doc);
    assert s[..4] == Put32(|body| + 5) && s[4..|s| - 1] == body;
  }

  // ----- the decoder reads this format -----

  lemma Le64Is(s: seq<byte>)
    requires |s| == 8
    ensures Word64(s) == Bson.Le64(s)
  {
    WordIs(s[..4]);
    WordIs(s[4..]);
  }

  /** How the decoder goes on after an element. */
  function TurnOf(c: Content, next: nat): Bson.Turn {
    if c.DateTime? then Bson.Skip(next) else Bson.Store(JsonOf(c), next)
  }

  lemma ScalarRead(before: seq<byte>, kind: byte, s: seq<byte>, c: Content, after: seq<byte>)
    requires IsContent(kind, s, c) && !c.Sub?
    ensures Bson.ReadValue(kind, before + s + after, |before|) == TurnOf(c, |before| + |s|)
  {
    hide Le32, Bson.Le64, Word32, Word64, Bson.Decode;
    var data, pos := before + s + after, |before|;
    assert data[pos..pos + |s|] == s;
    if |s| >= 4 {
      WordIs(s[..4]);
      assert data[pos..pos + 4] == s[..4];
    }
    match c
    case Double(_) =>
      Le64Is(s);
    case String(text) =>
      assert data[pos + 4..pos + 4 + |text|] == s[4..4 + |text|];
    case Bin(_, bytes) =>
      assert data[pos + 5..pos + 5 + |bytes|] == s[5..];
    case Boolean(_) =>
      assert data[pos] == s[0];
    case DateTime(_) =>
    case Int32(_) =>
      assert s[..4] == s;
    case Int64(_) =>
      Le64Is(s);
  }

  lemma {:induction false} ContentRead(before: seq<byte>, kind: byte, s: seq<byte>, c: Content, after: seq<byte>)
    requires IsContent(kind, s, c)
    ensures Bson.ReadValue(kind, before + s + after, |before|) == TurnOf(c, |before| + |s|)
    decreases c, 0
  {
    if c.Sub? {
      hide Le32, Bson.Decode, Word32, IsElements, Meant;
      var data, pos := before + s + after, |before|;
      assert data[pos..] == s + after && data[pos..pos + 4] == s[..4];
      WordIs(s[..4]);
      DocumentRead(s, c.fields, after);
    } else {
      ScalarRead(before, kind, s, c, after);
    }
  }

  function AfterTurn(data: seq<byte>, found: map<seq<byte>, Bson.Json>, key: seq<byte>, t: Bson.Turn): Bson.Outcome {
    match t
    case Store(value, next) => Bson.Scan(data, next, found[key := value])
    case Skip(next) => Bson.Scan(data, next, found)
    case Stop => Bson.Ok(found)
    case Fail => Bson.Err
    case Crash => Bson.Panic
  }

  /** One element at `pos`: the turn that its content takes decides how the scan goes on. */
  lemma ElementTurn(before: seq<byte>, kind: byte, key: seq<byte>, tail: seq<byte>, found: map<seq<byte>, Bson.Json>)
    requires kind != 0 && 0 !in key
    ensures var data, pos := before + [kind] + key + [0] + tail, |before|;
      Bson.Scan(data, pos, found) == AfterTurn(data, found, key, Bson.ReadValue(kind, data, pos + |key| + 2))
  {
    hide Bson.ReadValue, Bson.IndexOfZero, Bson.Scan;
    var data, pos := before + [kind] + key + [0] + tail, |before|;
    assert data[pos + 1..] == key + [0] + tail;
    Bson.ZeroAfter(key, tail);
    assert data[pos + 1..pos + 1 + |key|] == key && data[pos] == kind;
    Bson.ScanUnfolds(data, pos, found);
  }

  lemma KindOf(kind: byte, s: seq<byte>, c: Content)
    requires IsContent(kind, s, c)
    ensures kind != 0 && |s| >= 1
  {
  }

  lemma {:induction false} ElementsRead(before: seq<byte>, s: seq<byte>, fields: seq<Field>, after: seq<byte>,
                                        found: map<seq<byte>, Bson.Json>)
    requires IsElements(s, fields)
    ensures var data := before + s + after;
      Bson.Scan(data, |before|, found) == Bson.Scan(data, |before| + |s|, Meant(found, fields))
    decreases fields, 0
  {
    hide Bson.Scan, IsContent, JsonOf, Bson.ReadValue;
    if fields != [] {
      var kind, content, rest :| IsFirst(s, fields, kind, content, rest);
      var key, c := fields[0].key, fields[0].content;
      var data, lead := before + s + after, before + [kind] + key + [0];
      assert data == before + [kind] + key + [0] + (content + rest + after);
      assert data == lead + content + (rest + after) && data == (lead + content) + rest + after;
      KindOf(kind, content, c);
      ContentRead(lead, kind, content, c, rest + after);
      ElementTurn(before, kind, key, content + rest + after, found);
      assert |lead| == |before| + |key| + 2;
      ElementsRead(lead + content, rest, fields[1..], after,
                   if c.DateTime? then found else found[key := JsonOf(c)]);
      assert |lead + content| + |rest| == |before| + |s|;
    }
  }

  /** Whatever bytes make up a document, and whatever follows them, decode to its fields. */
  lemma {:induction false} DocumentRead(s: seq<byte>, fields: seq<Field>, after: seq<byte>)
    requires IsDocument(s, fields)
    ensures Bson.Decode(s + after) == Bson.Ok(Meant(map[], fields))
    decreases fields, 2
  {
    hide Word32, Le32, Bson.Scan, Meant, IsElements;
    var n := |s|;
    var body := s[4..n - 1];
    WordIs(s[..4]);
    assert (s + after)[..4] == s[..4] && (s + after)[..n] == s;
    assert s == s[..4] + body + [0];
    ElementsRead(s[..4], body, fields, [0], map[]);
    Bson.ScanEnd(s, n - 1, Meant(map[], fields));
  }

  /** The same bytes do not stand for two documents that the decoder tells apart. */
  lemma OneMeaning(s: seq<byte>, fields: seq<Field>, others: seq<Field>)
    requires IsDocument(s, fields) && IsDocument(s, others)
    ensures Meant(map[], fields) == Meant(map[], others)
  {
    hide Bson.Decode, Meant, IsDocument;
    DocumentRead(s, fields, []);
    DocumentRead(s, others, []);
  }

  // ----- bytes that are no document -----

  /** `data` is a length and some whole elements with `tail` behind them. */
  ghost predicate Starts(data: seq<byte>, elements: seq<byte>, fields: seq<Field>, tail: seq<byte>) {
    && |data| >= 5 && Word32(data[..4]) == |data|
    && data == data[..4] + elements + tail && IsElements(elements, fields)
  }

  lemma DecodeScans(data: seq<byte>, after: seq<byte>)
    requires |data| >= 5 && Word32(data[..4]) == |data|
    ensures Bson.Decode(data + after) == Bson.Scan(data, 4, map[])
  {
    hide Word32, Le32, Bson.Scan;
    WordIs(data[..4]);
    assert (data + after)[..4] == data[..4] && (data + after)[..|data|] == data;
  }

  function Lead(data: seq<byte>, elements: seq<byte>, fields: seq<Field>, tail: seq<byte>): (lead: seq<byte>)
    requires Starts(data, elements, fields, tail)
    ensures lead == data[..4] + elements && data == lead + tail && |lead| == 4 + |elements|
  {
    data[..4] + elements
  }

  lemma Reaches(data: seq<byte>, elements: seq<byte>, fields: seq<Field>, tail: seq<byte>, after: seq<byte>)
    requires Starts(data, elements, fields, tail)
    ensures Bson.Decode(data + after) == Bson.Scan(data, 4 + |elements|, Meant(map[], fields))
  {
    hide Word32, Bson.Scan, Meant, IsElements, Bson.Decode;
    DecodeScans(data, after);
    ElementsRead(data[..4], elements, fields, tail, map[]);
  }

  /** A document ends at a zero byte, at its last byte, and before a key that does not end. */
  lemma EndsThere(data: seq<byte>, elements: seq<byte>, fields: seq<Field>, tail: seq<byte>, after: seq<byte>)
    requires Starts(data, elements, fields, tail)
    requires |tail| <= 1 || tail[0] == 0 || 0 !in tail[1..]
    ensures Bson.Decode(data + after) == Bson.Ok(Meant(map[], fields))
  {
    hide Bson.Decode, Meant, IsElements, Word32, Bson.ReadValue;
    Reaches(data, elements, fields, tail, after);
    var pos := 4 + |elements|;
    if pos < |data| - 1 {
      assert data[pos] == tail[0] && data[pos + 1..] == tail[1..];
      Bson.ScanUnfolds(data, pos, Meant(map[], fields));
    } else {
      Bson.ScanEnd(data, pos, Meant(map[], fields));
    }
  }

  lemma Grouped(lead: seq<byte>, kind: byte, key: seq<byte>, rest: seq<byte>)
    ensures var data := lead + ([kind] + key + [0] + rest);
      && data == lead + [kind] + key + [0] + rest && |data| == |lead| + |key| + 2 + |rest|
      && data[|data| - |rest|..] == rest
  {
    var data := lead + ([kind] + key + [0] + rest);
    assert data == lead + [kind] + key + [0] + rest;
  }

  /** What the decoder comes to at an element behind whole elements. */
  lemma AtElement(data: seq<byte>, elements: seq<byte>, fields: seq<Field>, kind: byte, key: seq<byte>,
                  rest: seq<byte>, after: seq<byte>)
    requires Starts(data, elements, fields, [kind] + key + [0] + rest) && 0 !in key && kind != 0
    ensures |rest| <= |data| && data[|data| - |rest|..] == rest
    ensures Bson.Decode(data + after)
         == AfterTurn(data, Meant(map[], fields), key, Bson.ReadValue(kind, data, |data| - |rest|))
  {
    hide *;
    var lead, tail := Lead(data, elements, fields, [kind] + key + [0] + rest), [kind] + key + [0] + rest;
    Reaches(data, elements, fields, tail, after);
    Grouped(lead, kind, key, rest);
    ElementTurn(lead, kind, key, rest, Meant(map[], fields));
  }

  /** An element of unknown type ends the scan: what stands before it is the result. */
  lemma UnknownType(data: seq<byte>, elements: seq<byte>, fields: seq<Field>, kind: byte, key: seq<byte>,
                    rest: seq<byte>, after: seq<byte>)
    requires Starts(data, elements, fields, [kind] + key + [0] + rest) && 0 !in key
    requires kind !in {0x00, 0x01, 0x02, 0x03, 0x05, 0x08, 0x09, 0x10, 0x12}
    ensures Bson.Decode(data + after) == Bson.Ok(Meant(map[], fields))
  {
    hide Bson.Decode, Meant, Starts, Bson.Scan;
    AtElement(data, elements, fields, kind, key, rest, after);
  }

  /** What the decoder cannot read makes it panic or fail: a string of length zero, a boolean without
      a byte, and a subdocument that makes it panic or fail. */
  lemma Unreadable(data: seq<byte>, elements: seq<byte>, fields: seq<Field>, kind: byte, key: seq<byte>,
                   rest: seq<byte>, after: seq<byte>)
    requires Starts(data, elements, fields, [kind] + key + [0] + rest) && 0 !in key
    ensures kind == 0x02 && |rest| >= 4 && Word32(rest[..4]) == 0 ==> Bson.Decode(data + after) == Bson.Panic
    ensures kind == 0x08 && rest == [] ==> Bson.Decode(data + after) == Bson.Panic
    ensures kind == 0x03 && !Bson.Decode(rest).Ok? ==> Bson.Decode(data + after) == Bson.Decode(rest)
  {
    hide Bson.Decode, Meant, Starts, Bson.Scan, Bson.ReadValue, Word32;
    if kind in {0x02, 0x03, 0x08} {
      AtElement(data, elements, fields, kind, key, rest, after);
      UnreadableTurn(kind, data, |data| - |rest|, rest);
    }
  }

  lemma UnreadableTurn(kind: byte, data: seq<byte>, pos: nat, rest: seq<byte>)
    requires pos <= |data| && data[pos..] == rest
    ensures kind == 0x02 && |rest| >= 4 && Word32(rest[..4]) == 0 ==> Bson.ReadValue(kind, data, pos) == Bson.Crash
    ensures kind == 0x08 && rest == [] ==> Bson.ReadValue(kind, data, pos) == Bson.Crash
    ensures kind == 0x03 && Bson.Decode(rest) == Bson.Panic ==> Bson.ReadValue(kind, data, pos) == Bson.Crash
    ensures kind == 0x03 && Bson.Decode(rest) == Bson.Err ==> Bson.ReadValue(kind, data, pos) == Bson.Fail
  {
    hide Le32, Word32, Bson.Le64, Bson.Decode, Signed32, Signed64;
    if |rest| >= 4 {
      WordIs(rest[..4]);
      assert data[pos..pos + 4] == rest[..4];
    }
  }

  /** The two turns do the same from positions that differ by what stands before. */
  predicate SameTurn(t: Bson.Turn, u: Bson.Turn, a: nat, b: nat) {
    match t
    case Store(value, next) => u.Store? && u.value == value && next - a == u.next - b
    case Skip(next) => u.Skip? && next - a == u.next - b
    case Stop => u.Stop?
    case Fail => u.Fail?
    case Crash => u.Crash?
  }

  lemma ReadShifts(kind: byte, a: seq<byte>, b: seq<byte>, s: seq<byte>, i: nat)
    requires i <= |s|
    ensures SameTurn(Bson.ReadValue(kind, a + s, |a| + i), Bson.ReadValue(kind, b + s, |b| + i), |a|, |b|)
  {
    if kind in {0x01, 0x08, 0x09, 0x10, 0x12} {
      FixedShifts(kind, a, b, s, i);
    } else if kind == 0x02 {
      TextShifts(a, b, s, i);
    } else if kind == 0x03 {
      hide Le32, Bson.Decode;
      assert (a + s)[|a| + i..] == s[i..] == (b + s)[|b| + i..];
      if |s| >= i + 4 { Shifted(a, b, s, i, i + 4); }
    } else if kind == 0x05 {
      BinaryShifts(a, b, s, i);
    }
  }

  lemma FixedShifts(kind: byte, a: seq<byte>, b: seq<byte>, s: seq<byte>, i: nat)
    requires i <= |s| && kind in {0x01, 0x08, 0x09, 0x10, 0x12}
    ensures SameTurn(Bson.ReadValue(kind, a + s, |a| + i), Bson.ReadValue(kind, b + s, |b| + i), |a|, |b|)
  {
    hide Le32, Bson.Le64, Bson.Decode, Signed32, Signed64;
    if i < |s| {
      assert (a + s)[|a| + i] == s[i] == (b + s)[|b| + i];
    }
    if |s| >= i + 4 { Shifted(a, b, s, i, i + 4); }
    if |s| >= i + 8 { Shifted(a, b, s, i, i + 8); }
  }

  lemma TextShifts(a: seq<byte>, b: seq<byte>, s: seq<byte>, i: nat)
    requires i <= |s|
    ensures SameTurn(Bson.ReadValue(0x02, a + s, |a| + i), Bson.ReadValue(0x02, b + s, |b| + i), |a|, |b|)
  {
    hide Le32, Bson.Le64, Bson.Decode, Signed32, Signed64;
    if |s| >= i + 4 {
      Shifted(a, b, s, i, i + 4);
      var n := Le32(s[i..i + 4]);
      if |s| >= i + 4 + n && n > 0 { Shifted(a, b, s, i + 4, i + 4 + n - 1); }
    }
  }

  lemma BinaryShifts(a: seq<byte>, b: seq<byte>, s: seq<byte>, i: nat)
    requires i <= |s|
    ensures SameTurn(Bson.ReadValue(0x05, a + s, |a| + i), Bson.ReadValue(0x05, b + s, |b| + i), |a|, |b|)
  {
    hide Le32, Bson.Le64, Bson.Decode, Signed32, Signed64;
    if |s| >= i + 5 {
      Shifted(a, b, s, i, i + 4);
      var n := Le32(s[i..i + 4]);
      if |s| >= i + 5 + n { Shifted(a, b, s, i + 5, i + 5 + n); }
    }
  }

  lemma Shifted(a: seq<byte>, b: seq<byte>, s: seq<byte>, j: nat, k: nat)
    requires j <= k <= |s|
    ensures (a + s)[|a| + j..|a| + k] == s[j..k] == (b + s)[|b| + j..|b| + k]
  {
  }

  /** The scan looks at nothing before its position. */
  lemma {:induction false} ScanShifts(a: seq<byte>, b: seq<byte>, s: seq<byte>, i: nat, found: map<seq<byte>, Bson.Json>)
    requires i <= |s| && s != []
    ensures Bson.Scan(a + s, |a| + i, found) == Bson.Scan(b + s, |b| + i, found)
    decreases |s| - i
  {
    hide Bson.ReadValue, Bson.IndexOfZero, Bson.Scan;
    if i < |s| - 1 {
      Bson.ScanUnfolds(a + s, |a| + i, found);
      Bson.ScanUnfolds(b + s, |b| + i, found);
      assert (a + s)[|a| + i] == s[i] == (b + s)[|b| + i];
      assert (a + s)[|a| + i + 1..] == s[i + 1..] == (b + s)[|b| + i + 1..];
      var z := Bson.IndexOfZero(s[i + 1..]);
      if s[i] != 0 && z >= 0 {
        Shifted(a, b, s, i + 1, i + 1 + z);
        var key := s[i + 1..i + 1 + z];
        ReadShifts(s[i], a, b, s, i + z + 2);
        match Bson.ReadValue(s[i], a + s, |a| + i + z + 2)
        case Store(value, next) => ScanGoesOn(a, b, s, next - |a|, found[key := value], i);
        case Skip(next) => ScanGoesOn(a, b, s, next - |a|, found, i);
        case _ =>
      }
    } else {
      Bson.ScanEnd(a + s, |a| + i, found);
      Bson.ScanEnd(b + s, |b| + i, found);
    }
  }

  lemma {:induction false} ScanGoesOn(a: seq<byte>, b: seq<byte>, s: seq<byte>, j: int,
                                      found: map<seq<byte>, Bson.Json>, i: nat)
    requires i < j && s != [] && i <= |s|
    ensures Bson.Scan(a + s, |a| + j, found) == Bson.Scan(b + s, |b| + j, found)
    decreases |s| - i, 0
  {
    hide Bson.Scan;
    if j <= |s| {
      ScanShifts(a, b, s, j, found);
    } else {
      Bson.ScanEnd(a + s, |a| + j, found);
      Bson.ScanEnd(b + s, |b| + j, found);
    }
  }

  /** A value whose bytes the document does not hold: the scan goes on with `kept`. */
  ghost predicate CutOff(kind: byte, rest: seq<byte>, kept: seq<byte>) {
    || (kind in {0x01, 0x09, 0x12} && |rest| < 8 && kept == rest)
    || (kind == 0x10 && |rest| < 4 && kept == rest)
    || (kind == 0x02 && |rest| < 4 && kept == rest)
    || (kind == 0x02 && |rest| >= 4 && Word32(rest[..4]) > |rest| - 4 && kept == rest[4..])
    || (kind == 0x05 && |rest| < 5 && kept == rest)
    || (kind == 0x05 && |rest| >= 5 && Word32(rest[..4]) > |rest| - 5 && kept == rest[5..])
  }

  lemma CutOffIsSkipped(kind: byte, data: seq<byte>, pos: nat, rest: seq<byte>, kept: seq<byte>)
    requires pos <= |data| && data[pos..] == rest && CutOff(kind, rest, kept)
    ensures |kept| <= |rest| && data[|data| - |kept|..] == kept
    ensures Bson.ReadValue(kind, data, pos) == Bson.Skip(|data| - |kept|)
  {
    hide Le32, Word32, Bson.Le64, Bson.Decode, Signed32, Signed64;
    if |rest| >= 4 {
      WordIs(rest[..4]);
      assert data[pos..pos + 4] == rest[..4];
    }
  }

  /** Such an element is passed over, and what is left of its bytes is read as further elements: the
      document decodes as it would without the element's head. */
  lemma CutShort(data: seq<byte>, elements: seq<byte>, fields: seq<Field>, kind: byte, key: seq<byte>,
                 rest: seq<byte>, kept: seq<byte>, after: seq<byte>, without: seq<byte>)
    requires Starts(data, elements, fields, [kind] + key + [0] + rest) && 0 !in key && CutOff(kind, rest, kept)
    ensures kept == [] ==> Bson.Decode(data + after) == Bson.Ok(Meant(map[], fields))
    ensures kept != [] && |without| == 4 && Word32(without) == 4 + |elements| + |kept| ==>
              Bson.Decode(data + after) == Bson.Decode(without + elements + kept)
  {
    hide Bson.Decode, Meant, IsElements, Word32, Bson.Scan, Bson.ReadValue;
    var all := Meant(map[], fields);
    assert kind != 0;
    AtElement(data, elements, fields, kind, key, rest, after);
    CutOffIsSkipped(kind, data, |data| - |rest|, rest, kept);
    var next := |data| - |kept|;
    assert Bson.Decode(data + after) == Bson.Scan(data, next, all);
    if kept == [] {
      Bson.ScanEnd(data, next, all);
    } else if |without| == 4 && Word32(without) == 4 + |elements| + |kept| {
      SameRest(data, without, elements, fields, kept);
    }
  }

  lemma SameRest(data: seq<byte>, without: seq<byte>, elements: seq<byte>, fields: seq<Field>, kept: seq<byte>)
    requires kept != [] && |kept| <= |data| && data[|data| - |kept|..] == kept
    requires |without| == 4 && Word32(without) == 4 + |elements| + |kept| && IsElements(elements, fields)
    ensures var all := Meant(map[], fields);
      Bson.Scan(data, |data| - |kept|, all) == Bson.Decode(without + elements + kept)
  {
    hide Bson.Decode, Meant, IsElements, Word32, Bson.Scan;
    var shorter := without + elements + kept;
    var front := data[..|data| - |kept|];
    assert shorter[..4] == without && shorter + [] == shorter;
    assert Starts(shorter, elements, fields, kept);
    Reaches(shorter, elements, fields, kept, []);
    assert data == front + kept && shorter == (without + elements) + kept;
    ScanShifts(front, without + elements, kept, 0, Meant(map[], fields));
  }

  /** A length that is too small or too large: the outermost checks. */
  lemma Lengths(data: seq<byte>)
    ensures Bson.Decode(data) == Bson.Err <== |data| < 5 || Word32(data[..4]) > |data|
    ensures |data| >= 5 && Word32(data[..4]) <= 5 ==> Bson.Decode(data) == Bson.Ok(map[])
  {
    hide Word32, Le32;
    if |data| >= 5 {
      WordIs(data[..4]);
    }
  }
}
