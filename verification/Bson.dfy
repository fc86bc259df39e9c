/**
  The BSON encoder and decoder of `experiments/mongo-scram/mongo_auth.go`, a subset of version
  1.1 of the BSON specification.  A Go map is a list of entries in the order in which the
  encoder happens to range over it.
 */
module Bson {
  import opened Bytes

  datatype Value =
    | Int(n: int)
    | Text(text: seq<byte>)
    | Bool(b: bool)
    | Binary(data: seq<byte>)
    | Document(entries: seq<Entry>)

  datatype Entry = Entry(key: seq<byte>, value: Value)

  /** What the decoder makes.  `Number` is the float64 of an int32 or int64, `Double` that of
      an unsigned 64-bit word. */
  datatype Json =
    | Number(n: int)
    | Double(word: nat)
    | Str(text: seq<byte>)
    | Truth(b: bool)
    | Blob(data: seq<byte>)
    | Object(fields: map<seq<byte>, Json>)

  /** `Panic` is an index or slice expression out of range. */
  datatype Outcome = Ok(fields: map<seq<byte>, Json>) | Err | Panic

  // ----- the encoder -----

  function Kind(v: Value): byte {
    match v
    case Int(_) => 0x10
    case Text(_) => 0x02
    case Bool(_) => 0x08
    case Binary(_) => 0x05
    case Document(_) => 0x03
  }

  function Payload(v: Value): seq<byte>
    decreases v
  {
    match v
    case Int(n) => Put32(n)
    case Text(text) => Put32(|text| + 1) + text + [0]
    case Bool(b) => [if b then 1 else 0]
    case Binary(data) => Put32(|data|) + [0] + data
    case Document(entries) => Encode(entries)
  }

  function Element(e: Entry): seq<byte>
    decreases e
  {
    [Kind(e.value)] + e.key + [0] + Payload(e.value)
  }

  function Elements(doc: seq<Entry>): seq<byte>
    decreases doc, 0
  {
    if doc == [] then [] else Element(doc[0]) + Elements(doc[1..])
  }

  /** The length, the elements and a zero byte. */
  function Encode(doc: seq<Entry>): (b: seq<byte>)
    ensures |b| >= 5
    decreases doc, 1
  {
    var body := Elements(doc);
    Put32(|body| + 5) + body + [0]
  }

  // ----- the decoder -----

  function IndexOfZero(s: seq<byte>): (i: int)
    ensures -1 <= i < |s|
    ensures i >= 0 ==> s[i] == 0 && forall k :: 0 <= k < i ==> s[k] != 0
    ensures i < 0 ==> 0 !in s
  {
    if s == [] then -1
    else if s[0] == 0 then 0
    else var i := IndexOfZero(s[1..]); if i < 0 then -1 else i + 1
  }

  /** What one turn of the switch does: store a value and move on, only move on, stop with what
      there is, or fail. */
  datatype Turn = Store(value: Json, next: nat) | Skip(next: nat) | Stop | Fail | Crash

  function Le64(s: seq<byte>): (v: nat)
    requires |s| == 8
    ensures v < TWO64
  {
    Le32(s[..4]) + TWO32 * Le32(s[4..])
  }

  function ReadValue(kind: byte, data: seq<byte>, pos: nat): (t: Turn)
    requires pos <= |data|
    ensures t.Store? || t.Skip? ==> t.next >= pos
    decreases |data| - pos, 1
  {
    if kind == 0x01 then
      if pos + 8 > |data| then Skip(pos) else Store(Double(Le64(data[pos..pos + 8])), pos + 8)
    else if kind == 0x02 then
      if pos + 4 > |data| then Skip(pos)
      else
        var n := Le32(data[pos..pos + 4]);
        if pos + 4 + n > |data| then Skip(pos + 4)
        else if n == 0 then Crash
        else Store(Str(data[pos + 4..pos + 4 + n - 1]), pos + 4 + n)
    else if kind == 0x03 then
      match Decode(data[pos..])
      case Ok(fields) => Store(Object(fields), pos + Le32(data[pos..pos + 4]))
      case Err => Fail
      case Panic => Crash
    else if kind == 0x05 then
      if pos + 5 > |data| then Skip(pos)
      else
        var n := Le32(data[pos..pos + 4]);
        if pos + 5 + n > |data| then Skip(pos + 5)
        else Store(Blob(data[pos + 5..pos + 5 + n]), pos + 5 + n)
    else if kind == 0x08 then
      if pos >= |data| then Crash else Store(Truth(data[pos] != 0), pos + 1)
    else if kind == 0x09 then
      if pos + 8 > |data| then Skip(pos) else Skip(pos + 8)
    else if kind == 0x10 then
      if pos + 4 > |data| then Skip(pos) else Store(Number(Signed32(Le32(data[pos..pos + 4]))), pos + 4)
    else if kind == 0x12 then
      if pos + 8 > |data| then Skip(pos) else Store(Number(Signed64(Le64(data[pos..pos + 8]))), pos + 8)
    else Stop
  }

  /** The loop from `pos` on, `found` being the fields so far. */
  function Scan(data: seq<byte>, pos: nat, found: map<seq<byte>, Json>): Outcome
    decreases |data| - pos, 1
  {
    if pos >= |data| - 1 || data[pos] == 0 then Ok(found)
    else
      var z := IndexOfZero(data[pos + 1..]);
      if z < 0 then Ok(found)
      else
        var key := data[pos + 1..pos + 1 + z];
        match ReadValue(data[pos], data, pos + 1 + z + 1)
        case Store(value, next) => Scan(data, next, found[key := value])
        case Skip(next) => Scan(data, next, found)
        case Stop => Ok(found)
        case Fail => Err
        case Crash => Panic
  }

  function Decode(data: seq<byte>): (r: Outcome)
    ensures r.Ok? ==> |data| >= 5
    decreases |data|, 0
  {
    if |data| < 5 then Err
    else
      var n := Le32(data[..4]);
      if n > |data| then Err else Scan(data[..n], 4, map[])
  }

  // ----- what a document means -----

  /** The decoded form of a value.  With `cut`, integers keep only their low 32 bits. */
  function ToJson(v: Value, cut: bool): Json
    decreases v, 0
  {
    match v
    case Int(n) => Number(if cut then Signed32(n % TWO32) else n)
    case Text(text) => Str(text)
    case Bool(b) => Truth(b)
    case Binary(data) => Blob(data)
    case Document(entries) => Object(Fill(map[], entries, cut))
  }

  function Fill(found: map<seq<byte>, Json>, doc: seq<Entry>, cut: bool): map<seq<byte>, Json>
    decreases doc, 1
  {
    if doc == [] then found
    else Fill(found[doc[0].key := ToJson(doc[0].value, cut)], doc[1..], cut)
  }

  function Fields(doc: seq<Entry>): map<seq<byte>, Json> { Fill(map[], doc, false) }

  /** No key at any depth holds a zero byte. */
  ghost predicate KeysClean(doc: seq<Entry>)
    decreases doc
  {
    forall e :: e in doc ==> 0 !in e.key && (e.value.Document? ==> KeysClean(e.value.entries))
  }

  ghost predicate IntsFit(doc: seq<Entry>)
    decreases doc
  {
    forall e :: e in doc ==>
      && (e.value.Int? ==> -0x8000_0000 <= e.value.n < 0x8000_0000)
      && (e.value.Document? ==> IntsFit(e.value.entries))
  }

  /** The entries of a map have different keys. */
  ghost predicate IsMap(doc: seq<Entry>)
    decreases doc
  {
    && (forall i, j :: 0 <= i < j < |doc| ==> doc[i].key != doc[j].key)
    && forall e :: e in doc ==> e.value.Document? ==> IsMap(e.value.entries)
  }

  // ----- reading back what was written -----

  lemma ZeroAfter(key: seq<byte>, after: seq<byte>)
    requires 0 !in key
    ensures IndexOfZero(key + [0] + after) == |key|
  {
    var s := key + [0] + after;
    var z := IndexOfZero(s);
    assert s[|key|] == 0;
    assert forall k :: 0 <= k < |key| ==> s[k] == key[k];
  }

  lemma ScalarRead(before: seq<byte>, v: Value, after: seq<byte>)
    requires !v.Document? && |Payload(v)| < TWO32
    ensures ReadValue(Kind(v), before + Payload(v) + after, |before|)
         == Store(ToJson(v, true), |before| + |Payload(v)|)
  {
    match v
    case Int(n) => IntRead(before, n, after);
    case Text(text) => TextRead(before, text, after);
    case Bool(b) => BoolRead(before, b, after);
    case Binary(bytes) => BinaryRead(before, bytes, after);
  }

  lemma IntRead(before: seq<byte>, n: int, after: seq<byte>)
    ensures ReadValue(0x10, before + Put32(n) + after, |before|) == Store(Number(Signed32(n % TWO32)), |before| + 4)
  {
    hide Put32, Le32, Le64, Decode, Signed32, Signed64;
    var data, pos := before + Put32(n) + after, |before|;
    assert data[pos..pos + 4] == Put32(n);
  }

  lemma TextRead(before: seq<byte>, text: seq<byte>, after: seq<byte>)
    requires |text| + 5 < TWO32
    ensures var s := Put32(|text| + 1) + text + [0];
      ReadValue(0x02, before + s + after, |before|) == Store(Str(text), |before| + |s|)
  {
    hide Put32, Le32, Le64, Decode, Signed32, Signed64;
    var s := Put32(|text| + 1) + text + [0];
    var data, pos := before + s + after, |before|;
    assert data[pos..pos + 4] == Put32(|text| + 1);
    assert data[pos + 4..pos + 4 + |text|] == text;
  }

  lemma BoolRead(before: seq<byte>, b: bool, after: seq<byte>)
    ensures ReadValue(0x08, before + [if b then 1 else 0] + after, |before|) == Store(Truth(b), |before| + 1)
  {
    hide Le32, Le64, Decode, Signed32, Signed64;
    var s: seq<byte> := [if b then 1 else 0];
    assert (before + s + after)[|before|] == s[0];
  }

  lemma BinaryRead(before: seq<byte>, bytes: seq<byte>, after: seq<byte>)
    requires |bytes| + 5 < TWO32
    ensures var s := Put32(|bytes|) + [0] + bytes;
      ReadValue(0x05, before + s + after, |before|) == Store(Blob(bytes), |before| + |s|)
  {
    hide Put32, Le32, Le64, Decode, Signed32, Signed64;
    var s := Put32(|bytes|) + [0] + bytes;
    var data, pos := before + s + after, |before|;
    assert data[pos..pos + 4] == Put32(|bytes|);
    assert data[pos + 5..pos + 5 + |bytes|] == bytes;
  }

  /** An encoded document begins with its length, and that many bytes are the document. */
  lemma EncodedParts(doc: seq<Entry>, rest: seq<byte>)
    requires |Encode(doc)| < TWO32
    ensures var body := Elements(doc); var n := |body| + 5;
      && Encode(doc) == Put32(n) + body + [0] && |Encode(doc)| == n
      && Le32((Encode(doc) + rest)[..4]) == n && (Encode(doc) + rest)[..n] == Encode(doc)
  {
    hide Put32, Elements;
    assert (Encode(doc) + rest)[..4] == Put32(|Elements(doc)| + 5);
  }

  lemma DocumentAt(before: seq<byte>, doc: seq<Entry>, after: seq<byte>)
    requires |Encode(doc)| < TWO32
    ensures var data, pos := before + Encode(doc) + after, |before|;
      && data[pos..] == Encode(doc) + after && Le32(data[pos..pos + 4]) == |Encode(doc)|
  {
    hide Encode;
    EncodedParts(doc, after);
    var data, pos := before + Encode(doc) + after, |before|;
    assert data[pos..] == Encode(doc) + after;
    assert data[pos..pos + 4] == data[pos..][..4];
  }

  lemma {:induction false} ValueRead(before: seq<byte>, v: Value, after: seq<byte>)
    requires |Payload(v)| < TWO32 && (v.Document? ==> KeysClean(v.entries))
    ensures ReadValue(Kind(v), before + Payload(v) + after, |before|)
         == Store(ToJson(v, true), |before| + |Payload(v)|)
    decreases v, 0
  {
    if v.Document? {
      hide Encode, Decode, Fill, KeysClean;
      DocumentAt(before, v.entries, after);
      DecodeEncode(v.entries, after);
    } else {
      ScalarRead(before, v, after);
    }
  }

  lemma ElementIn(before: seq<byte>, e: Entry, after: seq<byte>)
    ensures var data, pos := before + Element(e) + after, |before|;
      && data[pos + 1..] == e.key + [0] + (Payload(e.value) + after)
      && data == (before + [Kind(e.value)] + e.key + [0]) + Payload(e.value) + after
      && data[pos] == Kind(e.value) && |Element(e)| == |e.key| + 2 + |Payload(e.value)|
  {
    hide Payload, Kind;
    var data, pos := before + Element(e) + after, |before|;
    assert Element(e) == [Kind(e.value)] + e.key + [0] + Payload(e.value);
  }

  lemma ScanStep(data: seq<byte>, pos: nat, found: map<seq<byte>, Json>, key: seq<byte>, value: Json, next: nat)
    requires pos < |data| - 1 && data[pos] != 0 && IndexOfZero(data[pos + 1..]) == |key|
    requires data[pos + 1..pos + 1 + |key|] == key
    requires ReadValue(data[pos], data, pos + |key| + 2) == Store(value, next)
    ensures Scan(data, pos, found) == Scan(data, next, found[key := value])
  {
    hide ReadValue;
  }

  lemma ScanEnd(data: seq<byte>, pos: nat, found: map<seq<byte>, Json>)
    requires pos >= |data| - 1
    ensures Scan(data, pos, found) == Ok(found)
  {
  }

  /** One element is stored, and the scan goes on right behind it. */
  lemma {:induction false} ElementRead(before: seq<byte>, e: Entry, after: seq<byte>, found: map<seq<byte>, Json>)
    requires |Element(e)| < TWO32 && 0 !in e.key && (e.value.Document? ==> KeysClean(e.value.entries)) && |after| > 0
    ensures var data := before + Element(e) + after;
      Scan(data, |before|, found) == Scan(data, |before| + |Element(e)|, found[e.key := ToJson(e.value, true)])
    decreases e
  {
    hide Scan, ReadValue, Payload, Element, ToJson, KeysClean;
    var data, pos := before + Element(e) + after, |before|;
    ElementIn(before, e, after);
    ZeroAfter(e.key, Payload(e.value) + after);
    var lead := before + [Kind(e.value)] + e.key + [0];
    assert |lead| == pos + |e.key| + 2;
    assert data[pos + 1..pos + 1 + |e.key|] == data[pos + 1..][..|e.key|] == e.key;
    ValueRead(lead, e.value, after);
    ScanStep(data, pos, found, e.key, ToJson(e.value, true), pos + |Element(e)|);
  }

  lemma {:induction false} ScanElements(before: seq<byte>, doc: seq<Entry>, after: seq<byte>, found: map<seq<byte>, Json>)
    requires KeysClean(doc) && |Elements(doc)| < TWO32 && |after| > 0
    ensures var data := before + Elements(doc) + after;
      Scan(data, |before|, found) == Scan(data, |before| + |Elements(doc)|, Fill(found, doc, true))
    decreases doc, 0
  {
    hide Scan, Element, ToJson;
    if doc != [] {
      var e, rest := doc[0], doc[1..];
      var data := before + Elements(doc) + after;
      assert e in doc && forall x :: x in rest ==> x in doc;
      assert data == before + Element(e) + (Elements(rest) + after);
      ElementRead(before, e, Elements(rest) + after, found);
      assert data == (before + Element(e)) + Elements(rest) + after;
      ScanElements(before + Element(e), rest, after, found[e.key := ToJson(e.value, true)]);
    }
  }

  /** Decoding an encoded document gives it back and looks at nothing behind it; integers come
      back as their low 32 bits. */
  lemma {:induction false} DecodeEncode(doc: seq<Entry>, rest: seq<byte>)
    requires KeysClean(doc) && |Encode(doc)| < TWO32
    ensures Decode(Encode(doc) + rest) == Ok(Fill(map[], doc, true))
    decreases doc, 1
  {
    hide Encode, Elements, Put32, Fill, KeysClean, Scan;
    var n := |Encode(doc)|;
    EncodedParts(doc, rest);
    ScanElements(Put32(n), doc, [0], map[]);
    ScanEnd(Encode(doc), n - 1, Fill(map[], doc, true));
  }

  // ----- exactly when the round trip holds -----

  /** No key of an object, at any depth, holds a zero byte. */
  ghost predicate NoZeroKeys(j: Json)
    decreases j
  {
    j.Object? ==> forall k :: k in j.fields ==> 0 !in k && NoZeroKeys(j.fields[k])
  }

  /** Whatever the bytes, no key that comes out of the decoder holds a zero byte. */
  lemma {:induction false} DecodedKeys(data: seq<byte>)
    ensures Decode(data).Ok? ==> NoZeroKeys(Object(Decode(data).fields))
    decreases |data|, 0
  {
    hide Scan;
    if |data| >= 5 {
      var n := Le32(data[..4]);
      if n <= |data| { ScannedKeys(data[..n], 4, map[]); }
    }
  }

  lemma {:induction false} ReadKeys(kind: byte, data: seq<byte>, pos: nat)
    requires pos <= |data|
    ensures ReadValue(kind, data, pos).Store? ==> NoZeroKeys(ReadValue(kind, data, pos).value)
    decreases |data| - pos, 1
  {
    hide Decode;
    if kind == 0x03 { DecodedKeys(data[pos..]); }
  }

  lemma KeyStored(found: map<seq<byte>, Json>, key: seq<byte>, value: Json)
    requires NoZeroKeys(Object(found)) && 0 !in key && NoZeroKeys(value)
    ensures NoZeroKeys(Object(found[key := value]))
  {
  }

  lemma {:induction false} ScannedKeys(data: seq<byte>, pos: nat, found: map<seq<byte>, Json>)
    requires NoZeroKeys(Object(found))
    ensures Scan(data, pos, found).Ok? ==> NoZeroKeys(Object(Scan(data, pos, found).fields))
    decreases |data| - pos, 2
  {
    hide ReadValue, NoZeroKeys, IndexOfZero, Decode;
    if pos < |data| - 1 && data[pos] != 0 {
      var z := IndexOfZero(data[pos + 1..]);
      if z >= 0 {
        var key := data[pos + 1..pos + 1 + z];
        assert 0 !in key by {
          assert forall k :: 0 <= k < z ==> key[k] == data[pos + 1..][k];
        }
        ReadKeys(data[pos], data, pos + 1 + z + 1);
        ScanUnfolds(data, pos, found);
        match ReadValue(data[pos], data, pos + 1 + z + 1)
        case Store(value, next) =>
          KeyStored(found, key, value);
          ScannedKeys(data, next, found[key := value]);
        case Skip(next) => ScannedKeys(data, next, found);
        case _ =>
      }
    }
  }

  lemma {:induction false} FillKeeps(found: map<seq<byte>, Json>, doc: seq<Entry>, cut: bool, k: seq<byte>)
    requires forall e :: e in doc ==> e.key != k
    ensures (k in Fill(found, doc, cut)) == (k in found)
    ensures k in found ==> Fill(found, doc, cut)[k] == found[k]
    decreases |doc|
  {
    if doc != [] {
      assert doc[0] in doc && forall e :: e in doc[1..] ==> e in doc;
      FillKeeps(found[doc[0].key := ToJson(doc[0].value, cut)], doc[1..], cut, k);
    }
  }

  lemma MapRest(doc: seq<Entry>)
    requires IsMap(doc) && doc != []
    ensures IsMap(doc[1..]) && forall e :: e in doc[1..] ==> e.key != doc[0].key && e in doc
  {
  }

  /** Every entry of a map is found under its key. */
  lemma {:induction false} FillHas(found: map<seq<byte>, Json>, doc: seq<Entry>, cut: bool, e: Entry)
    requires IsMap(doc) && e in doc
    ensures e.key in Fill(found, doc, cut) && Fill(found, doc, cut)[e.key] == ToJson(e.value, cut)
    decreases doc
  {
    hide IsMap;
    MapRest(doc);
    var next := found[doc[0].key := ToJson(doc[0].value, cut)];
    if e == doc[0] {
      FillKeeps(next, doc[1..], cut, e.key);
    } else {
      FillHas(next, doc[1..], cut, e);
    }
  }

  lemma {:induction false} ZeroKeyShows(doc: seq<Entry>)
    requires IsMap(doc) && !KeysClean(doc)
    ensures !NoZeroKeys(Object(Fields(doc)))
    decreases doc
  {
    var e :| e in doc && !(0 !in e.key && (e.value.Document? ==> KeysClean(e.value.entries)));
    FillHas(map[], doc, false, e);
    if 0 !in e.key {
      ZeroKeyShows(e.value.entries);
    }
  }

  lemma {:induction false} FitsUncut(found: map<seq<byte>, Json>, doc: seq<Entry>)
    requires IntsFit(doc)
    ensures Fill(found, doc, true) == Fill(found, doc, false)
    decreases doc
  {
    if doc != [] {
      var e := doc[0];
      assert e in doc && forall x :: x in doc[1..] ==> x in doc;
      if e.value.Document? { FitsUncut(map[], e.value.entries); }
      FitsUncut(found[e.key := ToJson(e.value, false)], doc[1..]);
    }
  }

  lemma {:induction false} UncutFits(doc: seq<Entry>)
    requires IsMap(doc) && Fill(map[], doc, true) == Fill(map[], doc, false)
    ensures IntsFit(doc)
    decreases doc
  {
    forall e | e in doc
      ensures e.value.Int? ==> -0x8000_0000 <= e.value.n < 0x8000_0000
      ensures e.value.Document? ==> IntsFit(e.value.entries)
    {
      FillHas(map[], doc, true, e);
      FillHas(map[], doc, false, e);
      if e.value.Document? { UncutFits(e.value.entries); }
    }
  }

  /** Decoding undoes encoding exactly for the documents whose keys, at every depth, hold no
      zero byte and whose integers fit 32 bits. */
  lemma RoundTrip(doc: seq<Entry>)
    requires IsMap(doc) && |Encode(doc)| < TWO32
    ensures Decode(Encode(doc)) == Ok(Fields(doc)) <==> KeysClean(doc) && IntsFit(doc)
  {
    hide Encode, Decode, IsMap;
    if KeysClean(doc) {
      DecodeEncode(doc, []);
      assert Encode(doc) + [] == Encode(doc);
      if IntsFit(doc) {
        FitsUncut(map[], doc);
      } else if Fill(map[], doc, true) == Fill(map[], doc, false) {
        UncutFits(doc);
      }
    } else {
      DecodedKeys(Encode(doc));
      ZeroKeyShows(doc);
    }
  }

  // ----- the order of the entries does not matter -----

  ghost predicate Alike(v: Value, w: Value)
    decreases v, 0
  {
    if v.Document? && w.Document? then SameMap(v.entries, w.entries) else v == w
  }

  /** The same map, ranged over in another order at any depth. */
  ghost predicate SameMap(a: seq<Entry>, b: seq<Entry>)
    decreases a, 0
  {
    && (forall e :: e in a ==> exists f :: f in b && f.key == e.key && Alike(e.value, f.value))
    && (forall f :: f in b ==> HasKey(a, f.key))
  }

  ghost predicate HasKey(doc: seq<Entry>, k: seq<byte>) { exists e :: e in doc && e.key == k }

  lemma {:induction false} FillKeys(found: map<seq<byte>, Json>, doc: seq<Entry>, cut: bool, k: seq<byte>)
    ensures k in Fill(found, doc, cut) <==> k in found || HasKey(doc, k)
    decreases |doc|
  {
    if doc != [] {
      FillKeys(found[doc[0].key := ToJson(doc[0].value, cut)], doc[1..], cut, k);
      assert forall e :: e in doc <==> e == doc[0] || e in doc[1..];
    }
  }

  lemma {:induction false} SameFields(a: seq<Entry>, b: seq<Entry>, cut: bool)
    requires IsMap(a) && IsMap(b) && SameMap(a, b)
    ensures Fill(map[], a, cut) == Fill(map[], b, cut)
    decreases a, 1
  {
    hide IsMap, Fill;
    var x, y := Fill(map[], a, cut), Fill(map[], b, cut);
    forall k ensures (k in x <==> k in y) && (k in x ==> x[k] == y[k]) {
      FillKeys(map[], a, cut, k);
      FillKeys(map[], b, cut, k);
      if k in x { SameField(a, b, cut, k); }
    }
  }

  lemma {:induction false} SameField(a: seq<Entry>, b: seq<Entry>, cut: bool, k: seq<byte>)
    requires IsMap(a) && IsMap(b) && SameMap(a, b) && HasKey(a, k)
    ensures k in Fill(map[], a, cut) && k in Fill(map[], b, cut)
    ensures Fill(map[], a, cut)[k] == Fill(map[], b, cut)[k]
    decreases a, 0
  {
    hide Fill;
    var e :| e in a && e.key == k;
    var f :| f in b && f.key == e.key && Alike(e.value, f.value);
    FillHas(map[], a, cut, e);
    FillHas(map[], b, cut, f);
    if e.value.Document? && f.value.Document? { SameFields(e.value.entries, f.value.entries, cut); }
  }

  /** Whatever order the encoder ranges in, the decoder sees the same document. */
  lemma AnyOrder(a: seq<Entry>, b: seq<Entry>)
    requires IsMap(a) && IsMap(b) && SameMap(a, b) && KeysClean(a) && KeysClean(b)
    requires |Encode(a)| < TWO32 && |Encode(b)| < TWO32
    ensures Decode(Encode(a)) == Decode(Encode(b))
  {
    hide Encode, Decode;
    DecodeEncode(a, []);
    DecodeEncode(b, []);
    assert Encode(a) + [] == Encode(a) && Encode(b) + [] == Encode(b);
    SameFields(a, b, true);
  }

  /** With a zero byte in a key it may matter: the same two entries decode to different documents
      in their two orders. */
  lemma OrderMatters()
    ensures exists a, b :: IsMap(a) && IsMap(b) && SameMap(a, b) && IntsFit(a) && Decode(Encode(a)) != Decode(Encode(b))
  {
    hide *;
    var e, f := Entry([65, 0], Bool(true)), Entry([66], Bool(true));
    var a, b := [e, f], [f, e];
    Reordered(e, f);
    BothEncoded(e, f);
    TwoResults();
    assert IsMap(a) && IsMap(b) && SameMap(a, b) && IntsFit(a) && Decode(Encode(a)) != Decode(Encode(b));
  }

  lemma TwoResults()
    ensures Decode(FIRST) != Decode(SECOND)
  {
    FirstOrder();
    SecondOrder();
    hide *;
    var x: map<seq<byte>, Json>, y: map<seq<byte>, Json> :=
      map[[65] := Truth(false)], map[[66] := Truth(true), [65] := Truth(false)];
    assert [65][0] != [66][0] && [66] !in x && [66] in y;
  }

  lemma Reordered(e: Entry, f: Entry)
    requires |e.key| != |f.key| && e.value.Bool? && f.value.Bool?
    ensures IsMap([e, f]) && IsMap([f, e]) && SameMap([e, f], [f, e]) && IntsFit([e, f])
  {
    var a, b := [e, f], [f, e];
    assert a[0] == e && a[1] == f && b[0] == f && b[1] == e && e.key != f.key;
    assert e in a && f in a && e in b && f in b && Alike(e.value, e.value) && Alike(f.value, f.value);
  }

  lemma TwoElements(x: Entry, y: Entry)
    ensures Encode([x, y]) == Put32(|Element(x)| + |Element(y)| + 5) + Element(x) + Element(y) + [0]
  {
    hide Element, Put32;
    var doc := [x, y];
    assert doc[1..] == [y] && doc[1..][1..] == [];
    assert Elements([]) == [] && Elements([y]) == Element(y) + [] && Elements(doc) == Element(x) + Elements([y]);
    assert Element(y) + [] == Element(y);
    assert Put32(|Element(x)| + |Element(y)| + 5) + (Element(x) + Element(y)) + [0]
        == Put32(|Element(x)| + |Element(y)| + 5) + Element(x) + Element(y) + [0];
  }

  const FIRST: seq<byte> := [14, 0, 0, 0, 8, 65, 0, 0, 1, 8, 66, 0, 1, 0]
  const SECOND: seq<byte> := [14, 0, 0, 0, 8, 66, 0, 1, 8, 65, 0, 0, 1, 0]

  lemma BothEncoded(e: Entry, f: Entry)
    requires e == Entry([65, 0], Bool(true)) && f == Entry([66], Bool(true))
    ensures Encode([e, f]) == FIRST && Encode([f, e]) == SECOND
  {
    TwoElements(e, f);
    TwoElements(f, e);
    hide Encode;
    assert Element(e) == [8, 65, 0, 0, 1] && Element(f) == [8, 66, 0, 1];
    assert Put32(14) == [14, 0, 0, 0];
  }

  lemma FirstOrder()
    ensures Decode(FIRST) == Ok(map[[65] := Truth(false)])
  {
    hide Decode, Scan;
    DecodeIs(FIRST);
    var found := map[[65] := Truth(false)];
    assert map[][[65] := Truth(false)] == found;
    BoolTurn(FIRST, 4, [65], map[]);
    ShortTurn(FIRST, 8, [8, 66], found);
    ShortTurn(FIRST, 12, [], found);
    ScanEnd(FIRST, 14, found);
  }

  lemma SecondOrder()
    ensures Decode(SECOND) == Ok(map[[66] := Truth(true), [65] := Truth(false)])
  {
    hide Decode, Scan;
    DecodeIs(SECOND);
    var one: map<seq<byte>, Json> := map[][[66] := Truth(true)];
    var two := one[[65] := Truth(false)];
    BoolTurn(SECOND, 4, [66], map[]);
    BoolTurn(SECOND, 8, [65], one);
    ShortTurn(SECOND, 12, [], two);
    ScanEnd(SECOND, 14, two);
  }

  lemma DecodeIs(d: seq<byte>)
    requires |d| == 14 && d[0] == 14 && d[1] == 0 && d[2] == 0 && d[3] == 0
    ensures Decode(d) == Scan(d, 4, map[])
  {
    hide Scan;
    assert d[..|d|] == d && d[..4][..2] == [14, 0] && d[..4][2..] == [0, 0];
  }

  /** A boolean under `key` at `pos`. */
  lemma BoolTurn(d: seq<byte>, pos: nat, key: seq<byte>, found: map<seq<byte>, Json>)
    requires pos + |key| + 2 < |d| && d[pos] == 0x08
    requires d[pos + 1..pos + 1 + |key|] == key && d[pos + 1 + |key|] == 0 && 0 !in key
    ensures Scan(d, pos, found)
         == Scan(d, pos + |key| + 3, found[key := Truth(d[pos + |key| + 2] != 0)])
  {
    hide Scan, Decode;
    Zeros(d, pos + 1, key);
    ScanUnfolds(d, pos, found);
  }

  /** A double under `key` at `pos` with too few bytes left. */
  lemma ShortTurn(d: seq<byte>, pos: nat, key: seq<byte>, found: map<seq<byte>, Json>)
    requires pos + 1 + |key| < |d| < pos + |key| + 10 && d[pos] == 0x01
    requires d[pos + 1..pos + 1 + |key|] == key && d[pos + 1 + |key|] == 0 && 0 !in key
    ensures Scan(d, pos, found) == Scan(d, pos + |key| + 2, found)
  {
    hide Scan, Decode;
    Zeros(d, pos + 1, key);
    ScanUnfolds(d, pos, found);
  }

  /** The key that stands at `at`. */
  lemma Zeros(d: seq<byte>, at: nat, key: seq<byte>)
    requires at + |key| < |d| && d[at..at + |key|] == key && d[at + |key|] == 0 && 0 !in key
    ensures IndexOfZero(d[at..]) == |key|
  {
    ZeroAfter(key, d[at + |key| + 1..]);
    assert d[at..] == key + [0] + d[at + |key| + 1..];
  }

  // ----- the program -----

  lemma {:induction false} ElementsPush(doc: seq<Entry>, e: Entry)
    ensures Elements(doc + [e]) == Elements(doc) + Element(e)
    decreases |doc|
  {
    hide Element;
    if doc == [] {
      assert [e][1..] == [];
    } else {
      ElementsPush(doc[1..], e);
      assert (doc + [e])[1..] == doc[1..] + [e];
    }
  }

  /** The encoder as written: a growing buffer whose first four bytes are filled in last. */
  method JsonToBSON(doc: seq<Entry>) returns (b: seq<byte>)
    ensures b == Encode(doc)
    decreases doc
  {
    hide Put32, Elements;
    var buf: seq<byte> := [0, 0, 0, 0];
    NoElements(doc);
    for i := 0 to |doc|
      invariant |buf| >= 4 && buf[..4] + Elements(doc[..i]) == buf
    {
      ghost var before := buf;
      var e := doc[i];
      ElementsPush(doc[..i], e);
      assert doc[..i + 1] == doc[..i] + [e];
      var payload;
      match e.value {
        case Int(n) =>
          payload := Put32(n);
        case Text(text) =>
          payload := Put32(|text| + 1) + text + [0];
        case Bool(on) =>
          payload := [if on then 1 else 0];
        case Binary(data) =>
          payload := Put32(|data|) + [0] + data;
        case Document(entries) =>
          assert e in doc;
          payload := JsonToBSON(entries);
      }
      buf := buf + ([Kind(e.value)] + e.key + [0] + payload);
      Appended(before[..4], Elements(doc[..i]), Element(e));
    }
    assert doc[..|doc|] == doc;
    buf := buf + [0];
    b := Put32(|buf|) + buf[4..];
    assert buf[4..] == Elements(doc) + [0];
  }

  lemma NoElements(doc: seq<Entry>)
    ensures Elements(doc[..0]) == []
  {
  }

  lemma Appended(a: seq<byte>, b: seq<byte>, c: seq<byte>)
    ensures (a + b) + c == a + (b + c)
  {
  }

  /** The switch of the decoder.  A `break` in it leaves only the switch, so a value that is cut
      short is skipped and the scan goes on. */
  method ReadElement(kind: byte, data: seq<byte>, start: nat) returns (t: Turn)
    requires start <= |data|
    ensures t == ReadValue(kind, data, start)
    decreases |data| - start, 1
  {
    var pos := start;
    if kind == 0x01 {
      if pos + 8 > |data| { return Skip(pos); }
      return Store(Double(Le64(data[pos..pos + 8])), pos + 8);
    } else if kind == 0x02 {
      if pos + 4 > |data| { return Skip(pos); }
      var n := Le32(data[pos..pos + 4]);
      pos := pos + 4;
      if pos + n > |data| { return Skip(pos); }
      if n == 0 { return Crash; }
      return Store(Str(data[pos..pos + n - 1]), pos + n);
    } else if kind == 0x03 {
      var sub := BsonToJSON(data[pos..]);
      if sub.Panic? { return Crash; }
      if sub.Err? { return Fail; }
      return Store(Object(sub.fields), pos + Le32(data[pos..pos + 4]));
    } else if kind == 0x05 {
      if pos + 5 > |data| { return Skip(pos); }
      var n := Le32(data[pos..pos + 4]);
      pos := pos + 5;
      if pos + n > |data| { return Skip(pos); }
      return Store(Blob(data[pos..pos + n]), pos + n);
    } else if kind == 0x08 {
      if pos >= |data| { return Crash; }
      return Store(Truth(data[pos] != 0), pos + 1);
    } else if kind == 0x09 {
      if pos + 8 > |data| { return Skip(pos); }
      return Skip(pos + 8);
    } else if kind == 0x10 {
      if pos + 4 > |data| { return Skip(pos); }
      return Store(Number(Signed32(Le32(data[pos..pos + 4]))), pos + 4);
    } else if kind == 0x12 {
      if pos + 8 > |data| { return Skip(pos); }
      return Store(Number(Signed64(Le64(data[pos..pos + 8]))), pos + 8);
    }
    return Stop;
  }

  /** The decoder as written: a moving position and a result that fills up. */
  method BsonToJSON(input: seq<byte>) returns (r: Outcome)
    ensures r == Decode(input)
    decreases |input|, 0
  {
    hide Scan, IndexOfZero, ReadValue;
    if |input| < 5 { return Err; }
    var docLen := Le32(input[..4]);
    if docLen > |input| { return Err; }
    var data := input[..docLen];
    var pos: nat := 4;
    var result: map<seq<byte>, Json> := map[];
    while pos < |data| - 1
      invariant Scan(data, 4, map[]) == Scan(data, pos, result)
      invariant pos >= 4
      decreases |data| - pos
    {
      ScanUnfolds(data, pos, result);
      if data[pos] == 0 { return Ok(result); }
      var kind := data[pos];
      pos := pos + 1;
      var keyEnd := IndexOfZero(data[pos..]);
      if keyEnd < 0 { return Ok(result); }
      var key := data[pos..pos + keyEnd];
      pos := pos + keyEnd + 1;
      var t := ReadElement(kind, data, pos);
      match t {
        case Store(value, next) =>
          result := result[key := value];
          pos := next;
        case Skip(next) =>
          pos := next;
        case Stop => return Ok(result);
        case Fail => return Err;
        case Crash => return Panic;
      }
    }
    ScanEnd(data, pos, result);
    return Ok(result);
  }

  lemma ScanUnfolds(data: seq<byte>, pos: nat, found: map<seq<byte>, Json>)
    requires pos < |data| - 1
    ensures Scan(data, pos, found)
         == if data[pos] == 0 || IndexOfZero(data[pos + 1..]) < 0 then Ok(found)
            else
              var key := data[pos + 1..pos + 1 + IndexOfZero(data[pos + 1..])];
              match ReadValue(data[pos], data, pos + 1 + |key| + 1)
              case Store(value, next) => Scan(data, next, found[key := value])
              case Skip(next) => Scan(data, next, found)
              case Stop => Ok(found)
              case Fail => Err
              case Crash => Panic
  {
    hide ReadValue, IndexOfZero;
  }
}
