/**
  The RIFF/WAVE reader of `audio/local/local.go` and the header writers of
  `audio/local/check.go` and `examples/voice-broadcast/main.go`, after chapters 2 and 3 of the
  Multimedia Programming Interface and Data Specifications 1.0.
 */
module Wav {
  import opened Wrappers
  import opened Bytes

  const RIFF: seq<byte> := [82, 73, 70, 70]
  const WAVE: seq<byte> := [87, 65, 86, 69]
  const FMT: seq<byte> := [102, 109, 116, 32]
  const DATA: seq<byte> := [100, 97, 116, 97]
  const HEADER_SIZE := 44

  datatype Chunk = Chunk(id: seq<byte>, body: seq<byte>)

  /** What a `fmt ` chunk says, as far as the reader keeps it. */
  datatype Format = Format(channels: nat, rate: nat, bits: nat)

  const NO_FORMAT := Format(0, 0, 0)

  datatype Error = TooShort | NotRiffWave | Malformed | UnsupportedDepth(bits: nat)

  datatype Result = Ok(pcm: seq<byte>, rate: nat, channels: nat) | Err(error: Error)

  // ----- the chunks of a file -----

  function Min(a: int, b: int): int { if a < b then a else b }

  /** The chunks from `off` on.  A size that reaches past the end is cut short, and an odd size
      is followed by a pad byte. */
  function Chunks(data: seq<byte>, off: nat): (cs: seq<Chunk>)
    decreases |data| - off
  {
    if off + 8 > |data| then []
    else [ChunkAt(data, off)] + Chunks(data, NextChunk(data, off))
  }

  function SizeAt(data: seq<byte>, off: nat): nat
    requires off + 8 <= |data|
  {
    Le32(data[off + 4..off + 8])
  }

  function ChunkAt(data: seq<byte>, off: nat): Chunk
    requires off + 8 <= |data|
  {
    Chunk(data[off..off + 4], data[off + 8..Min(off + 8 + SizeAt(data, off), |data|)])
  }

  function NextChunk(data: seq<byte>, off: nat): (next: nat)
    requires off + 8 <= |data|
    ensures next > off
  {
    var size := SizeAt(data, off);
    off + 8 + size + size % 2
  }

  predicate IsFormat(c: Chunk) { c.id == FMT && |c.body| >= 16 }

  function FormatOf(body: seq<byte>): Format
    requires |body| >= 16
  {
    Format(Le16(body[2..4]), Le32(body[4..8]), Le16(body[14..16]))
  }

  /** The body of the last data chunk. */
  function LastData(cs: seq<Chunk>): Option<seq<byte>> {
    if cs == [] then None
    else
      var k := |cs| - 1;
      if cs[k].id == DATA then Some(cs[k].body) else LastData(cs[..k])
  }

  /** What the last complete format chunk says. */
  function LastFormat(cs: seq<Chunk>): Format {
    if cs == [] then NO_FORMAT
    else
      var k := |cs| - 1;
      if IsFormat(cs[k]) then FormatOf(cs[k].body) else LastFormat(cs[..k])
  }

  function Verdict(pcm: Option<seq<byte>>, f: Format): Result {
    if pcm.None? || f.rate == 0 then Err(Malformed)
    else if f.bits != 16 then Err(UnsupportedDepth(f.bits))
    else Ok(pcm.value, f.rate, f.channels)
  }

  function Decode(data: seq<byte>): Result {
    if |data| < HEADER_SIZE then Err(TooShort)
    else if data[0..4] != RIFF || data[8..12] != WAVE then Err(NotRiffWave)
    else
      var cs := Chunks(data, 12);
      Verdict(LastData(cs), LastFormat(cs))
  }

  lemma LastAfter(cs: seq<Chunk>, c: Chunk)
    ensures LastData(cs + [c]) == if c.id == DATA then Some(c.body) else LastData(cs)
    ensures LastFormat(cs + [c]) == if IsFormat(c) then FormatOf(c.body) else LastFormat(cs)
  {
    assert (cs + [c])[..|cs|] == cs;
  }

  lemma NothingYet(data: seq<byte>)
    ensures [] + Chunks(data, 12) == Chunks(data, 12) && LastData([]) == None && LastFormat([]) == NO_FORMAT
  {
  }

  lemma NothingMore(data: seq<byte>, off: nat, seen: seq<Chunk>)
    requires off + 8 > |data|
    ensures seen + Chunks(data, off) == seen
  {
  }

  lemma SeenNext(data: seq<byte>, off: nat, seen: seq<Chunk>)
    requires off + 8 <= |data|
    ensures seen + Chunks(data, off) == (seen + [ChunkAt(data, off)]) + Chunks(data, NextChunk(data, off))
  {
    hide ChunkAt, NextChunk;
    var c, rest := ChunkAt(data, off), Chunks(data, NextChunk(data, off));
    assert seen + ([c] + rest) == (seen + [c]) + rest;
  }

  /** The reader as written: one pass with an offset. */
  method DecodeWAV(data: seq<byte>) returns (r: Result)
    ensures r == Decode(data)
  {
    hide Chunks, LastData, LastFormat;
    if |data| < HEADER_SIZE { return Err(TooShort); }
    if data[0..4] != RIFF || data[8..12] != WAVE { return Err(NotRiffWave); }
    var rate, channels, bits := 0, 0, 0;
    var pcm: Option<seq<byte>> := None;
    var off: nat := 12;
    ghost var seen: seq<Chunk> := [];
    NothingYet(data);
    while off + 8 <= |data|
      invariant Chunks(data, 12) == seen + Chunks(data, off)
      invariant pcm == LastData(seen) && Format(channels, rate, bits) == LastFormat(seen)
      decreases |data| - off
    {
      var id := data[off..off + 4];
      var size := Le32(data[off + 4..off + 8]);
      var body := data[off + 8..Min(off + 8 + size, |data|)];
      if id == FMT {
        if |body| >= 16 {
          channels, rate, bits := Le16(body[2..4]), Le32(body[4..8]), Le16(body[14..16]);
        }
      } else if id == DATA {
        pcm := Some(body);
      }
      SeenNext(data, off, seen);
      LastAfter(seen, Chunk(id, body));
      seen := seen + [Chunk(id, body)];
      var next := off + 8 + size;
      if size % 2 == 1 {
        next := next + 1;
      }
      off := next;
    }
    NothingMore(data, off, seen);
    if pcm == None || rate == 0 { return Err(Malformed); }
    if bits != 16 { return Err(UnsupportedDepth(bits)); }
    return Ok(pcm.value, rate, channels);
  }

  // ----- what the reader finds -----

  datatype Wanted = AData | AFormat

  predicate Is(c: Chunk, wanted: Wanted) { if wanted.AData? then IsData(c) else IsFormat(c) }

  ghost predicate LastSuch(cs: seq<Chunk>, k: int, wanted: Wanted) {
    && 0 <= k < |cs| && Is(cs[k], wanted)
    && forall j :: k < j < |cs| ==> !Is(cs[j], wanted)
  }

  predicate IsData(c: Chunk) { c.id == DATA }

  /** The position of the last such chunk, or -1. */
  lemma {:induction false} FindLast(cs: seq<Chunk>, wanted: Wanted) returns (k: int)
    ensures -1 <= k < |cs|
    ensures k >= 0 ==> LastSuch(cs, k, wanted)
    ensures k < 0 ==> forall j :: 0 <= j < |cs| ==> !Is(cs[j], wanted)
  {
    k := |cs| - 1;
    if k >= 0 && !Is(cs[k], wanted) {
      k := FindLast(cs[..k], wanted);
    }
  }

  lemma {:induction false} LastDataOf(cs: seq<Chunk>, k: int)
    requires -1 <= k < |cs| && forall j :: k < j < |cs| ==> !IsData(cs[j])
    requires k >= 0 ==> IsData(cs[k])
    ensures LastData(cs) == if k < 0 then None else Some(cs[k].body)
  {
    if k < |cs| - 1 { LastDataOf(cs[..|cs| - 1], k); }
  }

  lemma {:induction false} LastFormatOf(cs: seq<Chunk>, k: int)
    requires -1 <= k < |cs| && forall j :: k < j < |cs| ==> !IsFormat(cs[j])
    requires k >= 0 ==> IsFormat(cs[k])
    ensures LastFormat(cs) == if k < 0 then NO_FORMAT else FormatOf(cs[k].body)
  {
    hide FormatOf;
    if k < |cs| - 1 { LastFormatOf(cs[..|cs| - 1], k); }
  }

  /** Whatever is the last such chunk is the one found. */
  lemma OnlyLast(cs: seq<Chunk>, wanted: Wanted, k: int)
    requires if k < 0 then forall j :: 0 <= j < |cs| ==> !Is(cs[j], wanted) else LastSuch(cs, k, wanted)
    ensures forall j :: LastSuch(cs, j, wanted) <==> j == k && k >= 0
  {
  }

  /** A file is accepted exactly when its last data chunk and its last complete format chunk
      make it so, and they alone determine the result. */
  lemma DecodeIs(data: seq<byte>, pcm: seq<byte>, rate: nat, channels: nat)
    ensures Decode(data) == Ok(pcm, rate, channels)
      <==> (&& |data| >= HEADER_SIZE && data[0..4] == RIFF && data[8..12] == WAVE
            && rate != 0 && Says(Chunks(data, 12), pcm, rate, channels))
  {
    hide Chunks, FormatOf, LastData, LastFormat;
    var cs := Chunks(data, 12);
    var d := FindLast(cs, AData);
    var f := FindLast(cs, AFormat);
    LastDataOf(cs, d);
    LastFormatOf(cs, f);
    OnlyLast(cs, AData, d);
    OnlyLast(cs, AFormat, f);
  }

  /** The last data chunk holds `pcm`, and the last complete format chunk describes it so. */
  ghost predicate Says(cs: seq<Chunk>, pcm: seq<byte>, rate: nat, channels: nat) {
    exists d, f :: LastSuch(cs, d, AData) && LastSuch(cs, f, AFormat)
      && cs[d].body == pcm && FormatOf(cs[f].body) == Format(channels, rate, 16)
  }

  /** The other outcomes, each exactly when. */
  lemma DecodeFails(data: seq<byte>)
    requires |data| >= HEADER_SIZE && data[0..4] == RIFF && data[8..12] == WAVE
    ensures var cs, r := Chunks(data, 12), Decode(data);
      && (r == Err(Malformed) <==>
            || (forall c :: c in cs ==> !IsData(c))
            || (forall c :: c in cs ==> !IsFormat(c))
            || exists f :: LastSuch(cs, f, AFormat) && FormatOf(cs[f].body).rate == 0)
      && (r.Err? && r.error.UnsupportedDepth? <==>
            && (exists c :: c in cs && IsData(c))
            && exists f :: LastSuch(cs, f, AFormat) && FormatOf(cs[f].body).rate != 0 && FormatOf(cs[f].body).bits != 16)
  {
    hide Chunks, FormatOf, LastData, LastFormat;
    var cs := Chunks(data, 12);
    var d := FindLast(cs, AData);
    var f := FindLast(cs, AFormat);
    LastDataOf(cs, d);
    LastFormatOf(cs, f);
    OnlyLast(cs, AFormat, f);
    assert (d < 0 <==> forall c :: c in cs ==> !IsData(c)) && (f < 0 <==> forall c :: c in cs ==> !IsFormat(c));
    hide LastSuch;
  }

  // ----- writing chunks and reading them back -----

  /** A chunk that the container can hold. */
  ghost predicate Fits(c: Chunk) { |c.id| == 4 && |c.body| < TWO32 }

  function HeadOf(c: Chunk): (s: seq<byte>)
    ensures |s| == |c.id| + 4
  {
    c.id + Put32(|c.body|) }

  /** The chunks one after the other, each padded with its `pads` byte to a whole word. */
  function Serial(cs: seq<Chunk>, pads: seq<byte>): seq<byte>
    requires |pads| == |cs|
  {
    if cs == [] then []
    else Padded(cs[0], pads[0]) + Serial(cs[1..], pads[1..])
  }

  function Padded(c: Chunk, pad: byte): seq<byte> {
    HeadOf(c) + c.body + (if |c.body| % 2 == 1 then [pad] else [])
  }

  /** One chunk that stands at `off` is read, whatever surrounds it. */
  lemma OneChunk(before: seq<byte>, c: Chunk, after: seq<byte>)
    requires Fits(c)
    ensures var data, off := before + (HeadOf(c) + c.body) + after, |before|;
      && off + 8 <= |data| && ChunkAt(data, off) == c
      && NextChunk(data, off) == off + 8 + |c.body| + |c.body| % 2
  {
    hide Put32, Le32;
    var data, off := before + (HeadOf(c) + c.body) + after, |before|;
    assert data[off..off + 4] == c.id;
    assert data[off + 4..off + 8] == Put32(|c.body|);
    assert data[off + 8..off + 8 + |c.body|] == c.body;
  }

  lemma Regroup(a: seq<byte>, b: seq<byte>, c: seq<byte>, d: seq<byte>, e: seq<byte>)
    ensures a + (b + c + d) + e == a + b + (c + d + e) == (a + (b + c)) + d + e
  {
  }

  /** Whole chunks are read one by one, and reading goes on behind them. */
  lemma {:induction false} ReadBack(before: seq<byte>, cs: seq<Chunk>, pads: seq<byte>, after: seq<byte>)
    requires |pads| == |cs| && forall c :: c in cs ==> Fits(c)
    ensures var s := Serial(cs, pads);
      Chunks(before + s + after, |before|) == cs + Chunks(before + s + after, |before| + |s|)
    decreases |cs|
  {
    hide ChunkAt, NextChunk, HeadOf;
    if cs != [] {
      var c, p := cs[0], Padded(cs[0], pads[0]);
      var s, rest := Serial(cs, pads), Serial(cs[1..], pads[1..]);
      var data := before + s + after;
      var pad: seq<byte> := if |c.body| % 2 == 1 then [pads[0]] else [];
      Regroup(before, HeadOf(c) + c.body, pad, rest, after);
      OneChunk(before, c, pad + rest + after);
      ReadBack(before + p, cs[1..], pads[1..], after);
      assert cs == [c] + cs[1..];
      assert [c] + (cs[1..] + Chunks(data, |before| + |s|)) == cs + Chunks(data, |before| + |s|);
    }
  }

  function Container(size: seq<byte>, rest: seq<byte>): seq<byte> { RIFF + size + WAVE + rest }

  lemma ContainerIs(size: seq<byte>, rest: seq<byte>)
    requires |size| == 4
    ensures var data := Container(size, rest);
      |data| == 12 + |rest| && data[0..4] == RIFF && data[8..12] == WAVE
  {
    var data := Container(size, rest);
    assert data[0..4] == RIFF && data[8..12] == WAVE;
  }

  /** Any list of padded chunks, in any order and with any unknown chunks among them, is read
      back as that list.  Neither the size in the RIFF header nor fewer than eight bytes at the
      end matter. */
  lemma ContainerRoundTrip(size: seq<byte>, cs: seq<Chunk>, pads: seq<byte>, junk: seq<byte>)
    requires |size| == 4 && |pads| == |cs| && |junk| < 8 && forall c :: c in cs ==> Fits(c)
    requires 12 + |Serial(cs, pads)| + |junk| >= HEADER_SIZE
    ensures var data := Container(size, Serial(cs, pads) + junk);
      Chunks(data, 12) == cs && Decode(data) == Verdict(LastData(cs), LastFormat(cs))
  {
    hide Serial, LastData, LastFormat, ChunkAt, NextChunk, Verdict;
    var s := Serial(cs, pads);
    var data, before := Container(size, s + junk), RIFF + size + WAVE;
    ContainerIs(size, s + junk);
    ReadBack(before, cs, pads, junk);
    assert data == before + s + junk;
    assert cs + [] == cs;
  }

  // ----- the header writer -----

  function FormatBody(rate: int, channels: int): (s: seq<byte>)
    ensures |s| == 16
  {
    Put16(1) + Put16(channels) + Put32(rate) + Put32(rate * channels * 2) + Put16(channels * 2) + Put16(16)
  }

  /** The file that the writer makes: a format chunk and a data chunk without a pad byte. */
  function Written(rate: int, channels: int, pcm: seq<byte>): seq<byte> {
    Container(Put32(36 + |pcm|),
              HeadOf(Chunk(FMT, FormatBody(rate, channels))) + FormatBody(rate, channels) + (DATA + Put32(|pcm|) + pcm))
  }

  /** The writer as written: a header filled in place, then the samples. */
  method WriteWAV(rate: int, channels: int, pcm: seq<byte>) returns (file: seq<byte>)
    ensures file == Written(rate, channels, pcm)
  {
    hide Put16, Put32, FormatBody;
    var header := new byte[HEADER_SIZE];
    PutBytes(header, 0, RIFF);
    PutUint32(header, 4, 36 + |pcm|);
    PutBytes(header, 8, WAVE);
    PutBytes(header, 12, FMT);
    PutUint32(header, 16, 16);
    ghost var lead := header[..20];
    WriteFormat(header, rate, channels);
    PutBytes(header, 36, DATA);
    PutUint32(header, 40, |pcm|);
    assert header[..] == header[..44];
    file := header[..] + pcm;
    assert lead == RIFF + Put32(36 + |pcm|) + WAVE + HeadOf(Chunk(FMT, FormatBody(rate, channels)));
  }

  method WriteFormat(header: array<byte>, rate: int, channels: int)
    requires header.Length == HEADER_SIZE
    modifies header
    ensures header[..36] == old(header[..20]) + FormatBody(rate, channels)
  {
    hide Put16, Put32;
    PutUint16(header, 20, 1);
    PutUint16(header, 22, channels);
    PutUint32(header, 24, rate);
    PutUint32(header, 28, rate * channels * 2);
    PutUint16(header, 32, channels * 2);
    PutUint16(header, 34, 16);
  }

  /** No chunk from `off` on is longer than what the file holds there. */
  lemma {:induction false} BodiesFit(data: seq<byte>, off: nat)
    ensures forall c :: c in Chunks(data, off) ==> |c.body| <= |data| - off - 8
    decreases |data| - off
  {
    if off + 8 <= |data| { BodiesFit(data, NextChunk(data, off)); }
  }

  /** The two chunks of a written file, if the samples fit their size field. */
  lemma ChunksOfWritten(rate: int, channels: int, pcm: seq<byte>)
    ensures var data := Written(rate, channels, pcm);
      && |data| == HEADER_SIZE + |pcm| && data[HEADER_SIZE..] == pcm
      && data[0..4] == RIFF && data[8..12] == WAVE
      && Chunks(data, 12) == [Chunk(FMT, FormatBody(rate, channels))] + Chunks(data, 36)
      && ChunkAt(data, 36) == Chunk(DATA, pcm[..Min(|pcm| % TWO32, |pcm|)])
      && NextChunk(data, 36) >= HEADER_SIZE && (|pcm| < TWO32 ==> NextChunk(data, 36) >= |data|)
  {
    hide FormatBody, Put32;
    var f, d := Chunk(FMT, FormatBody(rate, channels)), DATA + Put32(|pcm|) + pcm;
    var data, before := Written(rate, channels, pcm), RIFF + Put32(36 + |pcm|) + WAVE;
    ContainerIs(Put32(36 + |pcm|), HeadOf(f) + f.body + d);
    assert data == before + (HeadOf(f) + f.body) + d;
    OneChunk(before, f, d);
    assert data == data[..36] + d && |data[..36]| == 36;
    DataHead(data[..36], pcm);
  }

  lemma DataHead(before: seq<byte>, pcm: seq<byte>)
    requires |before| == 36
    ensures var data := before + (DATA + Put32(|pcm|) + pcm);
      && |data| == HEADER_SIZE + |pcm| && data[HEADER_SIZE..] == pcm
      && ChunkAt(data, 36) == Chunk(DATA, pcm[..Min(|pcm| % TWO32, |pcm|)])
      && NextChunk(data, 36) >= HEADER_SIZE && (|pcm| < TWO32 ==> NextChunk(data, 36) >= |data|)
  {
    hide Put32;
    var data := before + (DATA + Put32(|pcm|) + pcm);
    assert data[36..40] == DATA && data[40..44] == Put32(|pcm|) && data[44..] == pcm;
    var n := Min(|pcm| % TWO32, |pcm|);
    assert data[44..44 + n] == pcm[..n];
  }

  lemma FormatBodyIs(rate: int, channels: int)
    ensures FormatOf(FormatBody(rate, channels)) == Format(channels % TWO16, rate % TWO32, 16)
  {
    hide Put16, Put32;
    var b := FormatBody(rate, channels);
    assert b[2..4] == Put16(channels) && b[4..8] == Put32(rate) && b[14..16] == Put16(16);
  }

  /** The reader undoes the writer exactly when the numbers fit their fields; an odd number of
      sample bytes does no harm although the writer does not pad. */
  lemma ReadsWhatIsWritten(rate: int, channels: int, pcm: seq<byte>)
    ensures var r := Decode(Written(rate, channels, pcm));
      (r.Ok? && r.pcm == pcm && r.rate == rate && r.channels == channels)
      <==> (0 < rate < TWO32 && 0 <= channels < TWO16 && |pcm| < TWO32)
  {
    hide Written, FormatBody, ChunkAt, NextChunk, FormatOf;
    var data, f := Written(rate, channels, pcm), Chunk(FMT, FormatBody(rate, channels));
    ChunksOfWritten(rate, channels, pcm);
    var rest := Chunks(data, 36);
    assert rest == [ChunkAt(data, 36)] + Chunks(data, NextChunk(data, 36));
    BodiesFit(data, NextChunk(data, 36));
    if |pcm| < TWO32 {
      assert pcm[..|pcm|] == pcm;
      FormatBodyIs(rate, channels);
      assert Chunks(data, 12) == [f, Chunk(DATA, pcm)];
      LastAfter([f], Chunk(DATA, pcm));
      LastAfter([], f);
      assert [] + [f] == [f] && [f] + [Chunk(DATA, pcm)] == [f, Chunk(DATA, pcm)];
    } else {
      var d := FindLast(Chunks(data, 12), AData);
      LastDataOf(Chunks(data, 12), d);
      forall c | c in Chunks(data, 12) && IsData(c) ensures c.body != pcm {
        assert c in rest;
      }
    }
  }

  // ----- the fields by offset -----

  /** The unsigned little-endian numbers at an offset. */
  function At16(s: seq<byte>, i: nat): int
    requires i + 2 <= |s|
  {
    var a: int, b: int := s[i], s[i + 1];
    a + 0x100 * b
  }

  function At32(s: seq<byte>, i: nat): int
    requires i + 4 <= |s|
  {
    var a: int, b: int, c: int, d: int := s[i], s[i + 1], s[i + 2], s[i + 3];
    a + 0x100 * b + 0x1_0000 * c + 0x100_0000 * d
  }

  lemma Le16At(s: seq<byte>, i: nat)
    requires i + 2 <= |s|
    ensures Le16(s[i..i + 2]) == At16(s, i)
  {
  }

  lemma Le32At(s: seq<byte>, i: nat)
    requires i + 4 <= |s|
    ensures Le32(s[i..i + 4]) == At32(s, i)
  {
    var w := s[i..i + 4];
    assert w[..2] == [s[i], s[i + 1]] && w[2..] == [s[i + 2], s[i + 3]];
  }

  lemma Within(data: seq<byte>, p: nat, n: nat, i: nat, j: nat)
    requires p + n <= |data| && i <= j <= n
    ensures data[p..p + n][i..j] == data[p + i..p + j]
  {
    var whole := data[p..p + n];
    forall k | 0 <= k < j - i ensures whole[i..j][k] == data[p + i..p + j][k] {
      assert whole[i..j][k] == whole[i + k] && whole[i + k] == data[p + i + k];
    }
  }

  /** What the reader takes from a chunk, by offset. */
  lemma ChunkFields(data: seq<byte>, off: nat)
    requires off + 8 <= |data|
    ensures var c := ChunkAt(data, off);
      && c.id == [data[off], data[off + 1], data[off + 2], data[off + 3]]
      && |c.body| == (if At32(data, off + 4) <= |data| - off - 8 then At32(data, off + 4) else |data| - off - 8)
      && c.body == data[off + 8..off + 8 + |c.body|]
      && (IsData(c) <==> c.id == [0x64, 0x61, 0x74, 0x61])
      && (IsFormat(c) <==> c.id == [0x66, 0x6d, 0x74, 0x20] && |c.body| >= 16)
  {
    hide Le16, Le32, At32;
    Le32At(data, off + 4);
    assert data[off..off + 4] == [data[off], data[off + 1], data[off + 2], data[off + 3]];
    assert data[off + 4..off + 8] == data[off + 4..off + 4 + 4];
  }

  /** The fields that it keeps of a format chunk. */
  lemma FormatFields(data: seq<byte>, off: nat)
    requires off + 8 <= |data| && IsFormat(ChunkAt(data, off))
    ensures off + 24 <= |data|
    ensures FormatOf(ChunkAt(data, off).body)
         == Format(At16(data, off + 10), At32(data, off + 12), At16(data, off + 22))
  {
    ChunkFields(data, off);
    hide Le16, Le32, At16, At32, ChunkAt;
    var body := ChunkAt(data, off).body;
    Within(data, off + 8, |body|, 2, 4);
    Within(data, off + 8, |body|, 4, 8);
    Within(data, off + 8, |body|, 14, 16);
    Le16At(data, off + 10);
    Le32At(data, off + 12);
    Le16At(data, off + 22);
  }

  /** What is no wave file at all: fewer bytes than a header, or other marks at its beginning. */
  lemma NoWaveFile(data: seq<byte>)
    ensures Decode(data) == Err(TooShort) <==> |data| < 44
    ensures Decode(data) == Err(NotRiffWave) <==>
      |data| >= 44 && !(data[0..4] == [0x52, 0x49, 0x46, 0x46] && data[8..12] == [0x57, 0x41, 0x56, 0x45])
  {
    hide Chunks, LastData, LastFormat;
  }

  /** A chunk at the end whose size promises more than there is holds what there is. */
  lemma ClippedChunk(before: seq<byte>, id: seq<byte>, size: seq<byte>, body: seq<byte>)
    requires |id| == 4 && |size| == 4 && At32(size, 0) >= |body|
    ensures Chunks(before + id + size + body, |before|) == [Chunk(id, body)]
  {
    hide Le32, At32;
    var data, off := before + id + size + body, |before|;
    assert data[off..off + 4] == id && data[off + 4..off + 8] == size && data[off + 8..] == body;
    Le32At(size, 0);
    assert size[0..4] == size;
    assert data[off + 8..|data|] == body;
    assert Chunks(data, NextChunk(data, off)) == [];
  }

  /** A format body by offset. */
  lemma FormatBodyFields(rate: int, channels: int)
    ensures var b := FormatBody(rate, channels);
      && |b| == 16 && At16(b, 0) == 1
      && At16(b, 2) == channels % 0x1_0000 && At32(b, 4) == rate % 0x1_0000_0000
      && At32(b, 8) == rate * channels * 2 % 0x1_0000_0000
      && At16(b, 12) == channels * 2 % 0x1_0000 && At16(b, 14) == 16
  {
    hide Put16, Put32, Le16, Le32, At16, At32;
    var b := FormatBody(rate, channels);
    FormatParts(Put16(1), Put16(channels), Put32(rate), Put32(rate * channels * 2), Put16(channels * 2), Put16(16));
    Le16At(b, 0);
    Le16At(b, 2);
    Le32At(b, 4);
    Le32At(b, 8);
    Le16At(b, 12);
    Le16At(b, 14);
  }

  lemma FormatParts(a: seq<byte>, b: seq<byte>, c: seq<byte>, d: seq<byte>, e: seq<byte>, f: seq<byte>)
    requires |a| == |b| == |e| == |f| == 2 && |c| == |d| == 4
    ensures var s := a + b + c + d + e + f;
      s[0..2] == a && s[2..4] == b && s[4..8] == c && s[8..12] == d && s[12..14] == e && s[14..16] == f
  {
  }

  lemma SameAt(s: seq<byte>, t: seq<byte>, i: nat, k: nat)
    requires i + |t| <= |s| && s[i..i + |t|] == t
    ensures k + 2 <= |t| ==> At16(s, i + k) == At16(t, k)
    ensures k + 4 <= |t| ==> At32(s, i + k) == At32(t, k)
  {
    forall j | 0 <= j < |t| ensures s[i + j] == t[j] {
      assert s[i..i + |t|][j] == s[i + j];
    }
  }

  /** Every field of a written header, by offset: the sizes, linear PCM, the channels, the frame rate,
      the bytes per second and per frame, 16 bits, and then the samples. */
  lemma HeaderFields(rate: int, channels: int, pcm: seq<byte>)
    ensures var file := Written(rate, channels, pcm);
      && |file| == 44 + |pcm| && file[44..] == pcm
      && file[0..4] == [0x52, 0x49, 0x46, 0x46] && At32(file, 4) == (36 + |pcm|) % 0x1_0000_0000
      && file[8..12] == [0x57, 0x41, 0x56, 0x45]
      && file[12..16] == [0x66, 0x6d, 0x74, 0x20] && At32(file, 16) == 16
      && At16(file, 20) == 1 && At16(file, 22) == channels % 0x1_0000 && At32(file, 24) == rate % 0x1_0000_0000
      && At32(file, 28) == rate * channels * 2 % 0x1_0000_0000
      && At16(file, 32) == channels * 2 % 0x1_0000 && At16(file, 34) == 16
      && file[36..40] == [0x64, 0x61, 0x74, 0x61] && At32(file, 40) == |pcm| % 0x1_0000_0000
  {
    hide Put32, Le32, At16, At32, FormatBody;
    var file, f := Written(rate, channels, pcm), FormatBody(rate, channels);
    var size, length, head := Put32(36 + |pcm|), Put32(|pcm|), Put32(16);
    assert file == RIFF + size + WAVE + FMT + head + f + DATA + length + pcm;
    HeaderParts(RIFF, size, WAVE, FMT, head, f, DATA, length, pcm);
    Le32At(file, 4);
    Le32At(file, 16);
    Le32At(file, 40);
    FormatBodyFields(rate, channels);
    SameAt(file, f, 20, 0);
    SameAt(file, f, 20, 2);
    SameAt(file, f, 20, 4);
    SameAt(file, f, 20, 8);
    SameAt(file, f, 20, 12);
    SameAt(file, f, 20, 14);
  }

  lemma HeaderParts(a: seq<byte>, b: seq<byte>, c: seq<byte>, d: seq<byte>, e: seq<byte>, f: seq<byte>,
                    g: seq<byte>, h: seq<byte>, pcm: seq<byte>)
    requires |a| == |b| == |c| == |d| == |e| == |g| == |h| == 4 && |f| == 16
    ensures var s := a + b + c + d + e + f + g + h + pcm;
      && |s| == 44 + |pcm| && s[0..4] == a && s[4..8] == b && s[8..12] == c && s[12..16] == d && s[16..20] == e
      && s[20..36] == f && s[36..40] == g && s[40..44] == h && s[44..] == pcm
  {
  }
}
