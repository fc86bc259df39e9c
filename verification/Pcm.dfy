/**
  Channel mapping and resampling of `audio/local/local.go`: 16-bit little-endian samples,
  interleaved into frames.
 */
module Pcm {
  import opened Wrappers
  import opened Bytes

  // ----- samples and frames -----

  /** Go's integer division. */
  function Quo(a: int, b: int): int
    requires b > 0
  {
    if a >= 0 then a / b else -((-a) / b)
  }

  lemma MulMono(a: int, b: int, c: nat)
    ensures a <= b ==> a * c <= b * c
  {
    if a <= b { assert (b - a) * c >= 0; }
  }

  lemma DivAtMost(a: nat, n: nat, h: nat)
    requires n > 0
    ensures a < (h + 1) * n ==> a / n <= h
    ensures h * n <= a ==> h <= a / n
  {
    var q := a / n;
    assert q * n <= a < (q + 1) * n by {
      assert a == q * n + a % n;
    }
    MulMono(h + 1, q, n);
    MulMono(q + 1, h, n);
  }

  /** A sum strictly between two multiples of `n` has its quotient strictly between the factors. */
  lemma QuoBetween(a: int, n: nat, low: nat, high: nat)
    requires n > 0 && -((low + 1) * n) < a < (high + 1) * n
    ensures Quo(a, n) + low >= 0 && Quo(a, n) <= high
  {
    if a >= 0 {
      DivAtMost(a, n, high);
      NotNegative(a, n);
    } else {
      DivAtMost(-a, n, low);
      NotNegative(-a, n);
    }
  }

  lemma NotNegative(a: nat, n: nat)
    requires n > 0
    ensures a / n >= 0
  {
    DivAtMost(a, n, 0);
  }

  lemma QuoExact(k: int, n: nat)
    requires n > 0
    ensures Quo(k * n, n) == k
  {
    if k >= 0 {
      DivAtMost(k * n, n, k);
    } else {
      assert (-k) * n == -(k * n) && (-k) * n >= 0;
      DivAtMost((-k) * n, n, -k);
    }
  }

  lemma FrameInside(s: seq<byte>, size: nat, i: nat)
    requires size > 0 && i < |s| / size
    ensures 0 <= i * size && i * size + size <= |s|
  {
    var q := |s| / size;
    assert |s| == q * size + |s| % size;
    MulMono(i + 1, q, size);
    assert (i + 1) * size == i * size + size;
  }

  /** The `i`-th group of `size` bytes. */
  function FrameAt(s: seq<byte>, size: nat, i: nat): (f: seq<byte>)
    requires size > 0 && i < |s| / size
    ensures |f| == size
  {
    FrameInside(s, size, i);
    s[i * size..i * size + size]
  }

  function Sample(frame: seq<byte>, c: nat): (v: int)
    requires 2 * c + 2 <= |frame|
    ensures -0x8000 <= v < 0x8000
  {
    Signed16(Le16(frame[2 * c..2 * c + 2]))
  }

  /** The exact sum of the first `n` samples. */
  function Sum(frame: seq<byte>, n: nat): (v: int)
    requires 2 * n <= |frame|
    ensures -0x8000 * n <= v <= 0x7fff * n
  {
    if n == 0 then 0 else Sum(frame, n - 1) + Sample(frame, n - 1)
  }

  /** The mean of a frame, rounded towards zero. */
  function Mean(frame: seq<byte>, n: nat): (v: int)
    requires n > 0 && 2 * n <= |frame|
    ensures -0x8000 <= v < 0x8000
  {
    QuoBetween(Sum(frame, n), n, 0x8000, 0x7fff);
    Quo(Sum(frame, n), n)
  }

  // ----- machine arithmetic -----

  /** An integer kept in a 32-bit register. */
  function Wrap32(v: int): (r: int)
    ensures -0x8000_0000 <= r < 0x8000_0000
  {
    Signed32(v % TWO32)
  }

  lemma Wrap32Adds(a: int, b: int)
    ensures Wrap32(Wrap32(a) + b) == Wrap32(a + b)
  {
    assert (Wrap32(a) + b) % TWO32 == (a + b) % TWO32;
  }

  lemma Wrap32Of(v: int)
    requires -0x8000_0000 <= v < 0x8000_0000
    ensures Wrap32(v) == v
  {
  }

  /** An integer kept in a 64-bit register. */
  function Wrap64(v: int): (r: int)
    ensures -TWO63 <= r < TWO63
    ensures v >= 0 ==> r <= v
  {
    Signed64(v % TWO64)
  }

  lemma Wrap64Of(v: int)
    ensures -TWO63 <= v < TWO63 ==> Wrap64(v) == v
    ensures v >= TWO63 ==> Wrap64(v) < v
  {
  }

  /** Go's integer division by a divisor of either sign. */
  function SignedQuo(a: int, b: int): int
    requires b != 0
  {
    if b < 0 then -Quo(a, -b) else Quo(a, b)
  }

  // ----- mixing one frame -----

  /** What the program computes for a frame of `n` channels, the count being cut to 32 bits. */
  function Mixed(frame: seq<byte>, n: nat): int
    requires n > 0 && 2 * n <= |frame| && Wrap32(n) != 0
  {
    Signed16(SignedQuo(Wrap32(Sum(frame, n)), Wrap32(n)) % TWO16)
  }

  ghost predicate MixesExactly(n: nat)
    requires n > 0 && Wrap32(n) != 0
  {
    forall frame: seq<byte> :: |frame| == 2 * n ==> Mixed(frame, n) == Mean(frame, n)
  }

  /** The mix is the mean of every frame exactly up to 65536 channels. */
  lemma MixIsMean(n: nat)
    requires n > 0 && Wrap32(n) != 0
    ensures MixesExactly(n) <==> n <= TWO16
  {
    if n <= TWO16 {
      forall frame: seq<byte> | |frame| == 2 * n ensures Mixed(frame, n) == Mean(frame, n) {
        MixFits(frame, n);
      }
    } else {
      var frame := MixedWrongly(n);
      assert Mixed(frame, n) != Mean(frame, n);
    }
  }

  /** Above that some frame shows it: the sum wraps, or the count does. */
  lemma MixedWrongly(n: nat) returns (frame: seq<byte>)
    requires n > TWO16 && Wrap32(n) != 0
    ensures |frame| == 2 * n && Mixed(frame, n) != Mean(frame, n)
  {
    if n < 0x8000_0000 {
      frame := Loudest(n);
      SumOverflows(n);
    } else if n == 0x8000_0000 {
      frame := Level(n, n, 2);
      CountIsNegative(n);
    } else {
      var d := Wrap32(n);
      frame := Level(n, if d < 0 then -d else d, 1);
      CountIsCut(n);
    }
  }

  lemma MixFits(frame: seq<byte>, n: nat)
    requires 0 < n <= TWO16 && 2 * n <= |frame|
    ensures Wrap32(n) != 0 && Wrap32(Sum(frame, n)) == Sum(frame, n) && Mixed(frame, n) == Mean(frame, n)
  {
    hide Wrap32, Sum, Quo, Signed16;
    Wrap32Of(n);
    Wrap32Of(Sum(frame, n));
    Signed16Of(Mean(frame, n));
  }

  /** A frame whose samples are all -32768. */
  function Loudest(n: nat): (s: seq<byte>)
    ensures |s| == 2 * n
  {
    seq(2 * n, i => if i % 2 == 0 then 0 else 0x80)
  }

  lemma {:induction false} LoudestSum(n: nat, k: nat)
    requires k <= n
    ensures Sum(Loudest(n), k) == -0x8000 * k
  {
    if k > 0 {
      LoudestSum(n, k - 1);
      assert Loudest(n)[2 * (k - 1)..2 * (k - 1) + 2] == [0, 0x80];
    }
  }

  lemma WrapLeaps(v: int)
    requires v < -0x8000_0000
    ensures Wrap32(v) >= v + TWO32
  {
    var w := Wrap32(v);
    assert (w - v) % TWO32 == 0;
  }

  lemma SumOverflows(n: nat)
    requires TWO16 < n < 0x8000_0000
    ensures Wrap32(n) != 0 && Mean(Loudest(n), n) == -0x8000 && Mixed(Loudest(n), n) > -0x8000
  {
    hide Wrap32, Sum, Quo, Signed16;
    Wrap32Of(n);
    LoudestSum(n, n);
    var sum := -0x8000 * n;
    WrapLeaps(sum);
    var w := Wrap32(sum);
    assert -((0x7fff + 1) * n) < w < (0x7fff + 1) * n;
    QuoBetween(w, n, 0x7fff, 0x7fff);
    QuoExact(-0x8000, n);
    Signed16Of(Quo(w, n));
  }

  /** A frame whose first `v` samples are `c` and whose others are zero. */
  function Level(n: nat, v: nat, c: byte): (s: seq<byte>)
    ensures |s| == 2 * n
  {
    seq(2 * n, i requires i >= 0 => if i % 2 == 0 && i / 2 < v then c else 0)
  }

  lemma LevelSample(n: nat, v: nat, c: byte, k: nat)
    requires k < n && c < 0x80
    ensures Sample(Level(n, v, c), k) == if k < v then c else 0
  {
    assert Level(n, v, c)[2 * k..2 * k + 2] == [if k < v then c else 0, 0];
  }

  lemma {:induction false} OnesSum(n: nat, v: nat, k: nat)
    requires k <= n
    ensures Sum(Level(n, v, 1), k) == if k < v then k else v
  {
    hide Level;
    if k > 0 {
      OnesSum(n, v, k - 1);
      LevelSample(n, v, 1, k - 1);
    }
  }

  lemma {:induction false} TwosSum(n: nat, k: nat)
    requires k <= n
    ensures Sum(Level(n, n, 2), k) == 2 * k
  {
    hide Level;
    if k > 0 {
      TwosSum(n, k - 1);
      LevelSample(n, n, 2, k - 1);
    }
  }

  lemma CountIsNegative(n: nat)
    requires n == 0x8000_0000
    ensures Wrap32(n) != 0 && Mixed(Level(n, n, 2), n) == 0 && Mean(Level(n, n, 2), n) == 2
  {
    hide Sum, Level;
    TwosSum(n, n);
    QuoExact(2, n);
  }

  lemma QuoOfSelf(w: int, d: int)
    requires d != 0 && (w == d || w == -d)
    ensures SignedQuo(w, d) == 1 || SignedQuo(w, d) == -1
  {
    var v := if d < 0 then -d else d;
    QuoExact(1, v);
    QuoExact(-1, v);
  }

  lemma WrapOfSize(d: int)
    requires -0x8000_0000 <= d < 0x8000_0000
    ensures var w := Wrap32(if d < 0 then -d else d); w == d || w == -d
  {
  }

  lemma CountIsCut(n: nat)
    requires n > 0x8000_0000 && Wrap32(n) != 0
    ensures var d := Wrap32(n); var v := if d < 0 then -d else d;
      Mixed(Level(n, v, 1), n) != 0 && Mean(Level(n, v, 1), n) == 0
  {
    hide Sum, Level, SignedQuo, Wrap32;
    var d := Wrap32(n);
    var v := if d < 0 then -d else d;
    OnesSum(n, v, n);
    WrapOfSize(d);
    QuoOfSelf(Wrap32(v), d);
    DivAtMost(v, n, 0);
  }

  // ----- lists of frames -----

  function Frames(s: seq<byte>, size: nat): (fs: seq<seq<byte>>)
    requires size > 0
    ensures |fs| == |s| / size && AllOfSize(fs, size)
  {
    seq(|s| / size, i requires 0 <= i < |s| / size => FrameAt(s, size, i))
  }

  ghost predicate AllOfSize(fs: seq<seq<byte>>, size: nat) {
    forall i :: 0 <= i < |fs| ==> |fs[i]| == size
  }

  function Joined(fs: seq<seq<byte>>): seq<byte> {
    if fs == [] then [] else Joined(fs[..|fs| - 1]) + fs[|fs| - 1]
  }

  lemma JoinedPush(fs: seq<seq<byte>>, f: seq<byte>)
    ensures Joined(fs + [f]) == Joined(fs) + f
  {
    assert (fs + [f])[..|fs|] == fs;
  }

  lemma {:induction false} JoinedSize(fs: seq<seq<byte>>, size: nat)
    requires AllOfSize(fs, size)
    ensures |Joined(fs)| == |fs| * size
  {
    if fs != [] {
      JoinedSize(fs[..|fs| - 1], size);
      assert (|fs| - 1) * size + size == |fs| * size;
    }
  }

  lemma {:induction false} JoinedAt(fs: seq<seq<byte>>, size: nat, i: nat)
    requires size > 0 && AllOfSize(fs, size) && i < |fs|
    ensures |Joined(fs)| == |fs| * size && 0 <= i * size && i * size + size <= |Joined(fs)|
    ensures Joined(fs)[i * size..i * size + size] == fs[i]
  {
    var front := fs[..|fs| - 1];
    JoinedSize(fs, size);
    JoinedSize(front, size);
    MulMono(i + 1, |fs|, size);
    assert (i + 1) * size == i * size + size;
    if i < |fs| - 1 {
      JoinedAt(front, size, i);
      assert Joined(fs)[i * size..i * size + size] == Joined(front)[i * size..i * size + size];
    }
  }

  /** Cutting undoes joining. */
  lemma FramesOfJoined(fs: seq<seq<byte>>, size: nat)
    requires size > 0 && AllOfSize(fs, size)
    ensures Frames(Joined(fs), size) == fs
  {
    JoinedSize(fs, size);
    DivAtMost(|fs| * size, size, |fs|);
    MulMono(|fs|, |fs| + 1, size);
    assert (|fs| + 1) * size == |fs| * size + size;
    forall i | 0 <= i < |fs| ensures Frames(Joined(fs), size)[i] == fs[i] {
      JoinedAt(fs, size, i);
    }
  }

  /** Joining undoes cutting, up to a last partial frame. */
  lemma {:induction false} JoinedOfFrames(s: seq<byte>, size: nat, n: nat)
    requires size > 0 && n <= |s| / size
    ensures 0 <= n * size <= |s| && Joined(Frames(s, size)[..n]) == s[..n * size]
  {
    if n > 0 {
      JoinedOfFrames(s, size, n - 1);
      FrameInside(s, size, n - 1);
      assert (n - 1) * size + size == n * size;
      var fs := Frames(s, size);
      assert fs[..n] == fs[..n - 1] + [fs[n - 1]];
      JoinedPush(fs[..n - 1], fs[n - 1]);
    }
  }

  /** A buffer without its last partial frame. */
  function Whole(s: seq<byte>, size: nat): (w: seq<byte>)
    requires size > 0
    ensures |w| == |s| / size * size
  {
    DivSandwich(|s|, size);
    s[..|s| / size * size]
  }

  lemma JoinedIsWhole(s: seq<byte>, size: nat)
    requires size > 0
    ensures Joined(Frames(s, size)) == Whole(s, size)
  {
    var fs := Frames(s, size);
    JoinedOfFrames(s, size, |fs|);
    assert fs[..|fs|] == fs;
  }

  // ----- channels -----

  /** The same sample in `n` channels. */
  function Fanned(v: int, n: nat): (f: seq<byte>)
    ensures |f| == 2 * n
  {
    if n == 0 then [] else Fanned(v, n - 1) + Put16(v)
  }

  function RemapFrames(fs: seq<seq<byte>>, src: nat, dst: nat): (out: seq<seq<byte>>)
    requires src > 0 && AllOfSize(fs, 2 * src) && (fs != [] ==> Wrap32(src) != 0)
    ensures |out| == |fs| && AllOfSize(out, 2 * dst)
  {
    seq(|fs|, i requires 0 <= i < |fs| => Fanned(Mixed(fs[i], src), dst))
  }

  /** None is a panic: a channel count that 32 bits cut to zero is divided by, or the output is
      longer than a slice can be. */
  function Remap(pcm: seq<byte>, src: nat, dst: nat): Option<seq<byte>> {
    if src == dst || src == 0 || dst == 0 then Some(pcm)
    else
      var fs := Frames(pcm, 2 * src);
      if |fs| * (2 * dst) >= TWO63 || (fs != [] && Wrap32(src) == 0) then None
      else Some(Joined(RemapFrames(fs, src, dst)))
  }

  lemma {:induction false} FannedSum(v: int, n: nat, k: nat)
    requires k <= n && -0x8000 <= v < 0x8000
    ensures Sum(Fanned(v, n), k) == k * v
  {
    hide Fanned, Put16, Le16, Signed16;
    if k > 0 {
      FannedSum(v, n, k - 1);
      FannedAt(v, n, k - 1);
      Signed16Of(v);
      assert (k - 1) * v + v == k * v;
    }
  }

  lemma {:induction false} FannedAt(v: int, n: nat, k: nat)
    requires k < n
    ensures Fanned(v, n)[2 * k..2 * k + 2] == Put16(v)
  {
    if k < n - 1 {
      FannedAt(v, n - 1, k);
      assert Fanned(v, n)[2 * k..2 * k + 2] == Fanned(v, n - 1)[2 * k..2 * k + 2];
    }
  }

  /** A fanned-out sample is its own mean. */
  lemma MixOfFanned(v: int, n: nat)
    requires 0 < n <= TWO16 && -0x8000 <= v < 0x8000
    ensures Wrap32(n) != 0 && Mixed(Fanned(v, n), n) == v
  {
    MixFits(Fanned(v, n), n);
    FannedSum(v, n, n);
    assert n * v == v * n;
    QuoExact(v, n);
  }

  /** One frame of mono is its sample. */
  lemma MonoFrame(f: seq<byte>)
    requires |f| == 2
    ensures Wrap32(1) != 0 && Fanned(Mixed(f, 1), 1) == f
  {
    var v := Sample(f, 0);
    Wrap32Of(1);
    assert Sum(f, 1) == Sum(f, 0) + v && f[0..2] == f;
    Wrap32Of(v);
    Signed16Of(v);
    PutOfLe16(f);
    assert v % TWO16 == Le16(f);
    Put16Of(v, Le16(f));
    assert Fanned(v, 1) == [] + Put16(v);
  }

  lemma Put16Of(v: int, w: int)
    requires v % TWO16 == w % TWO16
    ensures Put16(v) == Put16(w)
  {
    PutOfLe16(Put16(v));
    PutOfLe16(Put16(w));
  }

  /** Mono spread over any number of channels the mix is exact for, and mixed down again, is
      what it was, up to a last partial frame, whenever the wide form fits a slice. */
  lemma MonoRoundTrip(pcm: seq<byte>, n: nat)
    requires 1 < n <= TWO16
    ensures match Remap(pcm, 1, n)
      case None => |pcm| / 2 * (2 * n) >= TWO63
      case Some(wide) => |pcm| / 2 * (2 * n) < TWO63 && Remap(wide, n, 1) == Some(Whole(pcm, 2))
  {
    hide Fanned, Mixed, FrameAt, Wrap32, Whole, Frames, Joined;
    var fs := Frames(pcm, 2);
    Wrap32Of(1);
    Wrap32Of(n);
    if |fs| * (2 * n) < TWO63 {
      var up := RemapFrames(fs, 1, n);
      FramesOfJoined(up, 2 * n);
      NarrowFits(|fs|, n);
      MonoFrames(fs, n);
      JoinedIsWhole(pcm, 2);
    }
  }

  lemma NarrowFits(m: nat, n: nat)
    requires n >= 1 && m * (2 * n) < TWO63
    ensures m * (2 * 1) < TWO63
  {
    MulMono(2, 2 * n, m);
    assert m * 2 == 2 * m && m * (2 * n) == 2 * n * m;
  }

  lemma MonoFrames(fs: seq<seq<byte>>, n: nat)
    requires 1 < n <= TWO16 && AllOfSize(fs, 2) && Wrap32(1) != 0 && Wrap32(n) != 0
    ensures RemapFrames(RemapFrames(fs, 1, n), n, 1) == fs
  {
    var down := RemapFrames(RemapFrames(fs, 1, n), n, 1);
    forall i | 0 <= i < |fs| ensures down[i] == fs[i] {
      MixOfFanned(Mixed(fs[i], 1), n);
      MonoFrame(fs[i]);
    }
  }

  // ----- rates -----

  /** The source frame that frame `i` of the result repeats. */
  function Index(i: nat, srcRate: nat, dstRate: nat): nat
    requires dstRate > 0
  {
    i * srcRate / dstRate
  }

  /** How many frames `n` frames become. */
  function Length(n: nat, srcRate: nat, dstRate: nat): nat
    requires srcRate > 0
  {
    n * dstRate / srcRate
  }

  /** How many the program makes of them: the product is kept in 64 bits. */
  function Count(n: nat, srcRate: nat, dstRate: nat): int
    requires srcRate > 0
  {
    Quo(Wrap64(n * dstRate), srcRate)
  }

  lemma CountIs(n: nat, srcRate: nat, dstRate: nat)
    requires srcRate > 0
    ensures 0 <= n * dstRate && Count(n, srcRate, dstRate) <= Length(n, srcRate, dstRate)
    ensures n * dstRate < TWO63 ==> Count(n, srcRate, dstRate) == Length(n, srcRate, dstRate)
    ensures n * dstRate >= TWO63 ==> Count(n, srcRate, dstRate) * srcRate < n * dstRate
  {
    var x := n * dstRate;
    var w := Wrap64(x);
    Wrap64Of(x);
    if w >= 0 {
      DivSandwich(w, srcRate);
      DivSandwich(x, srcRate);
      MulMono(x / srcRate + 1, w / srcRate, srcRate);
      assert (x / srcRate + 1) * srcRate == x / srcRate * srcRate + srcRate;
    } else {
      NotNegative(-w, srcRate);
      NotNegative(x, srcRate);
      NotPositive(Count(n, srcRate, dstRate), srcRate);
    }
  }

  lemma NotPositive(a: int, b: nat)
    requires a <= 0
    ensures a * b <= 0
  {
    MulMono(a, 0, b);
  }

  lemma DivSandwich(a: nat, n: nat)
    requires n > 0
    ensures a / n * n <= a < a / n * n + n
  {
    assert a == a / n * n + a % n;
  }

  /** The index stays inside the source even without the clamp. */
  lemma IndexInside(n: nat, i: nat, srcRate: nat, dstRate: nat)
    requires srcRate > 0 && dstRate > 0 && i < Length(n, srcRate, dstRate)
    ensures Index(i, srcRate, dstRate) < n
  {
    var m := Length(n, srcRate, dstRate);
    DivSandwich(n * dstRate, srcRate);
    MulMono(i + 1, m, srcRate);
    assert (i + 1) * srcRate == i * srcRate + srcRate;
    assert n > 0 by { assert n * dstRate > 0; }
    DivAtMost(i * srcRate, dstRate, n - 1);
  }

  /** The index never goes back; it moves on at every step when the rate falls, and by at most
      one when the rate rises. */
  lemma IndexMoves(i: nat, srcRate: nat, dstRate: nat)
    requires srcRate > 0 && dstRate > 0
    ensures var a, b := Index(i, srcRate, dstRate), Index(i + 1, srcRate, dstRate);
      a <= b && (srcRate >= dstRate ==> a < b) && (srcRate <= dstRate ==> b <= a + 1)
  {
    var a, b := Index(i, srcRate, dstRate), Index(i + 1, srcRate, dstRate);
    assert (i + 1) * srcRate == i * srcRate + srcRate;
    DivSandwich(i * srcRate, dstRate);
    DivSandwich((i + 1) * srcRate, dstRate);
    assert (a + 1) * dstRate == a * dstRate + dstRate && (b + 1) * dstRate == b * dstRate + dstRate;
    assert (a + 2) * dstRate == a * dstRate + 2 * dstRate;
    MulMono(b + 1, a, dstRate);
    MulMono(b, a, dstRate);
    MulMono(a + 2, b, dstRate);
  }

  /** When the rate rises, every source frame but perhaps the last is heard. */
  lemma AllButTheLast(n: nat, j: nat, srcRate: nat, dstRate: nat) returns (i: nat)
    requires 0 < srcRate <= dstRate && j + 1 < n
    ensures i < Length(n, srcRate, dstRate) && Index(i, srcRate, dstRate) == j
  {
    i := RoundUp(j * dstRate, srcRate);
    NextMultiples(j, dstRate);
    DivAtMost(i * srcRate, dstRate, j);
    MulMono(j + 2, n, dstRate);
    NextMultiples(i, srcRate);
    DivAtMost(n * dstRate, srcRate, i + 1);
  }

  lemma RoundUp(a: nat, n: nat) returns (i: nat)
    requires n > 0
    ensures a <= i * n < a + n
  {
    i := (a + n - 1) / n;
    DivSandwich(a + n - 1, n);
  }

  lemma NextMultiples(k: nat, n: nat)
    ensures 0 <= k * n && (k + 1) * n == k * n + n && (k + 2) * n == k * n + 2 * n
  {
  }

  /** The last one is heard exactly if the last index reaches it, and always if the rate at least
      doubles. */
  lemma LastIsHeard(n: nat, srcRate: nat, dstRate: nat)
    requires 0 < srcRate <= dstRate && n > 0
    ensures var last := Length(n, srcRate, dstRate) - 1;
      && last >= 0
      && ((exists i: nat :: i <= last && Index(i, srcRate, dstRate) == n - 1) <==> (n - 1) * dstRate <= last * srcRate)
      && (2 * srcRate <= dstRate ==> (n - 1) * dstRate <= last * srcRate)
  {
    var last := Length(n, srcRate, dstRate) - 1;
    assert (n - 1) * dstRate + dstRate == n * dstRate && 0 <= (n - 1) * dstRate;
    DivAtMost(n * dstRate, srcRate, 1);
    DivSandwich(n * dstRate, srcRate);
    assert last * srcRate + srcRate == (last + 1) * srcRate;
    if (n - 1) * dstRate <= last * srcRate {
      DivAtMost(last * srcRate, dstRate, n - 1);
      IndexInside(n, last, srcRate, dstRate);
      assert Index(last, srcRate, dstRate) == n - 1;
    } else {
      forall i: nat | i <= last ensures Index(i, srcRate, dstRate) != n - 1 {
        MulMono(i, last, srcRate);
        DivSandwich(i * srcRate, dstRate);
      }
    }
  }

  /** The first `m` frames of the result. */
  function ResampleFrames(fs: seq<seq<byte>>, srcRate: nat, dstRate: nat, m: nat): (out: seq<seq<byte>>)
    requires srcRate > 0 && dstRate > 0 && m <= Length(|fs|, srcRate, dstRate)
    ensures |out| == m && forall i :: 0 <= i < m ==> out[i] in fs
  {
    IndexesInside(|fs|, srcRate, dstRate);
    seq(m, i requires 0 <= i < m => fs[Index(i, srcRate, dstRate)])
  }

  lemma IndexesInside(n: nat, srcRate: nat, dstRate: nat)
    requires srcRate > 0 && dstRate > 0
    ensures forall i: nat :: i < Length(n, srcRate, dstRate) ==> Index(i, srcRate, dstRate) < n
  {
    forall i: nat | i < Length(n, srcRate, dstRate) ensures Index(i, srcRate, dstRate) < n {
      IndexInside(n, i, srcRate, dstRate);
    }
  }

  /** None is a panic: the product has become negative, or the output is longer than a slice can
      be. */
  function Resample(pcm: seq<byte>, srcRate: nat, dstRate: nat, channels: nat): Option<seq<byte>>
    requires dstRate > 0
  {
    if srcRate == dstRate || srcRate == 0 || channels == 0 then Some(pcm)
    else
      var fs := Frames(pcm, 2 * channels);
      var m := Count(|fs|, srcRate, dstRate);
      if m < 0 || m * (2 * channels) >= TWO63 then None
      else
        CountIs(|fs|, srcRate, dstRate);
        Some(Joined(ResampleFrames(fs, srcRate, dstRate, m)))
  }

  lemma {:induction false} PickedSize(fs: seq<seq<byte>>, size: nat, srcRate: nat, dstRate: nat, m: nat)
    requires srcRate > 0 && dstRate > 0 && m <= Length(|fs|, srcRate, dstRate) && AllOfSize(fs, size) && size > 0
    ensures var out := ResampleFrames(fs, srcRate, dstRate, m);
      AllOfSize(out, size) && Frames(Joined(out), size) == out && |Joined(out)| == m * size
  {
    var out := ResampleFrames(fs, srcRate, dstRate, m);
    forall i | 0 <= i < m ensures |out[i]| == size {
      assert out[i] in fs;
    }
    FramesOfJoined(out, size);
    JoinedSize(out, size);
  }

  /** Raising the rate by a whole factor and lowering it again loses nothing but a last partial
      frame exactly if the first product fits 64 bits and the result fits a slice. */
  lemma RateRoundTrip(pcm: seq<byte>, rate: nat, factor: nat, channels: nat)
    requires rate > 0 && factor > 1 && channels > 0 && rate * factor > rate
    ensures var n, high := |pcm| / (2 * channels), rate * factor;
      var up := Resample(pcm, rate, high, channels);
      (up.Some? && Resample(up.value, high, rate, channels) == Some(Whole(pcm, 2 * channels)))
      <==> (n * high < TWO63 && n * factor * (2 * channels) < TWO63)
  {
    hide Whole, Frames, Joined, Count, Length, Index, ResampleFrames;
    var size, high := 2 * channels, rate * factor;
    var fs := Frames(pcm, size);
    var n := |fs|;
    CountIs(n, rate, high);
    WholeFactor(n, rate, factor);
    JoinedIsWhole(pcm, size);
    var m := Count(n, rate, high);
    if m >= 0 && m * size < TWO63 {
      PickedSize(fs, size, rate, high, m);
      var up := ResampleFrames(fs, rate, high, m);
      CountIs(m, high, rate);
      if n * high < TWO63 {
        FactorFits(n, rate, factor, size);
        UpAndDown(fs, rate, factor);
      } else {
        ComesBackShort(up, size, high, rate, n);
      }
    }
  }

  lemma UpAndDown(fs: seq<seq<byte>>, rate: nat, factor: nat)
    requires rate > 0 && factor > 0 && rate * factor > 0
    ensures |fs| * factor <= Length(|fs|, rate, rate * factor) && |fs| <= Length(|fs| * factor, rate * factor, rate)
    ensures ResampleFrames(ResampleFrames(fs, rate, rate * factor, |fs| * factor), rate * factor, rate, |fs|) == fs
  {
    var n, high := |fs|, rate * factor;
    WholeFactor(n, rate, factor);
    var up := ResampleFrames(fs, rate, high, n * factor);
    var down := ResampleFrames(up, high, rate, n);
    forall i | 0 <= i < n ensures down[i] == fs[i] {
      IndexInside(n * factor, i, high, rate);
      BackToTheSame(i, rate, factor);
    }
    assert down == fs;
  }

  /** The way back makes no product larger than the way there. */
  lemma FactorFits(n: nat, rate: nat, factor: nat, size: nat)
    requires rate > 0 && factor > 0 && size > 0 && n * (rate * factor) < TWO63 && n * factor * size < TWO63
    ensures n * factor * rate == n * (rate * factor) && 0 <= n * size < TWO63
  {
    assert n * factor * rate == n * (rate * factor);
    assert n * factor * size == (n * size) * factor;
    MulMono(1, factor, n * size);
    assert (n * size) * factor == factor * (n * size);
  }

  /** Too few frames on the way there leave too few on the way back. */
  lemma ComesBackShort(up: seq<seq<byte>>, size: nat, high: nat, rate: nat, n: nat)
    requires high > 0 && rate > 0 && size > 0 && AllOfSize(up, size) && |up| * rate < n * high
    ensures var m := Count(|up|, high, rate);
      && m <= Length(|up|, high, rate)
      && (m >= 0 ==> |Joined(ResampleFrames(up, high, rate, m))| < n * size)
  {
    hide Count, Index, ResampleFrames, Joined;
    var m := Count(|up|, high, rate);
    CountIs(|up|, high, rate);
    DivAtMost(|up| * rate, high, n - 1);
    if m >= 0 {
      PickedSize(up, size, high, rate, m);
      MulMono(m + 1, n, size);
      assert (m + 1) * size == m * size + size;
    }
  }

  lemma DivExact(k: nat, n: nat)
    requires n > 0
    ensures k * n / n == k
  {
    assert (k + 1) * n == k * n + n;
    DivAtMost(k * n, n, k);
  }

  lemma WholeFactor(n: nat, rate: nat, factor: nat)
    requires rate > 0 && factor > 0 && rate * factor > 0
    ensures Length(n, rate, rate * factor) == n * factor
    ensures Length(n * factor, rate * factor, rate) == n
  {
    assert n * (rate * factor) == (n * factor) * rate;
    DivExact(n * factor, rate);
    assert (n * factor) * rate == n * (rate * factor);
    DivExact(n, rate * factor);
  }

  lemma BackToTheSame(i: nat, rate: nat, factor: nat)
    requires rate > 0 && factor > 0 && rate * factor > 0
    ensures Index(Index(i, rate * factor, rate), rate, rate * factor) == i
  {
    assert i * (rate * factor) == (i * factor) * rate;
    DivExact(i * factor, rate);
    assert (i * factor) * rate == i * (rate * factor);
    DivExact(i, rate * factor);
  }

  // ----- the two together -----

  function Match(pcm: seq<byte>, srcRate: nat, srcCh: nat, dstRate: nat, dstCh: nat): Option<seq<byte>> {
    match if srcCh != dstCh then Remap(pcm, srcCh, dstCh) else Some(pcm)
    case None => None
    case Some(mapped) =>
      if srcRate != dstRate && dstRate > 0 then Resample(mapped, srcRate, dstRate, dstCh) else Some(mapped)
  }

  /** Frame `i` of the result is the mix of source frame `Index(i)` in every channel of the
      output, and there are as many frames as the rates say, unless their product overflows. */
  lemma MatchedFrames(pcm: seq<byte>, srcRate: nat, srcCh: nat, dstRate: nat, dstCh: nat)
    requires 0 < srcRate && 0 < dstRate && 0 < srcCh && 0 < dstCh && srcRate != dstRate && srcCh != dstCh
    ensures var source, size := Frames(pcm, 2 * srcCh), 2 * dstCh;
      var m := Count(|source|, srcRate, dstRate);
      match Match(pcm, srcRate, srcCh, dstRate, dstCh)
      case None => (source != [] && Wrap32(srcCh) == 0) || |source| * size >= TWO63 || m < 0 || m * size >= TWO63
      case Some(result) =>
        var out := Frames(result, size);
        && |result| == m * size && |out| == m
        && (|source| * dstRate < TWO63 ==> m == Length(|source|, srcRate, dstRate))
        && forall i :: 0 <= i < m ==>
             && Index(i, srcRate, dstRate) < |source| && Wrap32(srcCh) != 0
             && out[i] == Fanned(Mixed(source[Index(i, srcRate, dstRate)], srcCh), dstCh)
  {
    hide Frames, Joined, Count, Length, Index, ResampleFrames, RemapFrames, Wrap32, Fanned, Mixed;
    var source, size := Frames(pcm, 2 * srcCh), 2 * dstCh;
    if |source| * size < TWO63 && (source != [] ==> Wrap32(srcCh) != 0) {
      var mapped := RemapFrames(source, srcCh, dstCh);
      FramesOfJoined(mapped, size);
      var m := Count(|source|, srcRate, dstRate);
      CountIs(|source|, srcRate, dstRate);
      if m >= 0 {
        PickedSize(mapped, size, srcRate, dstRate, m);
        PickedMix(source, srcRate, srcCh, dstRate, dstCh, m);
      }
    }
  }

  /** The frames of the result, one by one. */
  lemma PickedMix(source: seq<seq<byte>>, srcRate: nat, srcCh: nat, dstRate: nat, dstCh: nat, m: nat)
    requires 0 < srcRate && 0 < dstRate && 0 < srcCh && m <= Length(|source|, srcRate, dstRate)
    requires AllOfSize(source, 2 * srcCh) && (source != [] ==> Wrap32(srcCh) != 0)
    ensures var out := ResampleFrames(RemapFrames(source, srcCh, dstCh), srcRate, dstRate, m);
      forall i :: 0 <= i < m ==>
        && Index(i, srcRate, dstRate) < |source| && Wrap32(srcCh) != 0
        && out[i] == Fanned(Mixed(source[Index(i, srcRate, dstRate)], srcCh), dstCh)
  {
    hide Length, Index, Wrap32, Fanned, Mixed;
    IndexesInside(|source|, srcRate, dstRate);
  }

  // ----- the numbers on their own -----

  /** Go's division rounds towards zero. */
  lemma QuoTruncates(a: int, b: nat)
    requires b > 0
    ensures a >= 0 ==> Quo(a, b) >= 0 && Quo(a, b) * b <= a < Quo(a, b) * b + b
    ensures a <= 0 ==> Quo(a, b) <= 0 && Quo(a, b) * b - b < a <= Quo(a, b) * b
  {
    if a >= 0 {
      DivSandwich(a, b);
      NotNegative(a, b);
    } else {
      DivSandwich(-a, b);
      NotNegative(-a, b);
      assert -((-a) / b) * b == -((-a) / b * b);
    }
  }

  /** The mix of two channels is half their sum, rounded towards zero. */
  lemma StereoMix(frame: seq<byte>)
    requires |frame| == 4
    ensures Wrap32(2) == 2
    ensures var sum, mix := Sample(frame, 0) + Sample(frame, 1), Mixed(frame, 2);
      if sum >= 0 then 2 * mix <= sum <= 2 * mix + 1 else 2 * mix - 1 <= sum <= 2 * mix
  {
    MixFits(frame, 2);
    QuoTruncates(Sum(frame, 2), 2);
    assert Sum(frame, 0) == 0 && Sum(frame, 1) == Sample(frame, 0) && Sum(frame, 2) == Sum(frame, 1) + Sample(frame, 1);
  }

  /** A sample is two bytes, the low one first, in two's complement. */
  lemma SampleIs(frame: seq<byte>, c: nat)
    requires 2 * c + 2 <= |frame|
    ensures var low: int, high: int := frame[2 * c], frame[2 * c + 1];
      Sample(frame, c) == if high < 0x80 then low + 0x100 * high else low + 0x100 * high - 0x1_0000
  {
  }

  /** A sample that goes to every channel is written so in each. */
  lemma {:induction false} FannedIs(v: int, n: nat, c: nat)
    requires c < n
    ensures var low: int, high: int := Fanned(v, n)[2 * c], Fanned(v, n)[2 * c + 1];
      low + 0x100 * high == v % 0x1_0000
    decreases n
  {
    if c < n - 1 { FannedIs(v, n - 1, c); }
  }

  /** The frame that is repeated stands at the scaled position, rounded down, and the number of frames is
      the scaled number, rounded down. */
  lemma Scaled(n: nat, srcRate: nat, dstRate: nat)
    requires srcRate > 0 && dstRate > 0
    ensures Index(n, srcRate, dstRate) * dstRate <= n * srcRate < Index(n, srcRate, dstRate) * dstRate + dstRate
    ensures Length(n, srcRate, dstRate) * srcRate <= n * dstRate < Length(n, srcRate, dstRate) * srcRate + srcRate
  {
    DivSandwich(n * srcRate, dstRate);
    DivSandwich(n * dstRate, srcRate);
  }

  /** What needs no conversion, or has no channels or no rate to convert by, is passed on as it is, a
      partial frame at its end included. */
  lemma PassedOn(pcm: seq<byte>, srcRate: nat, srcCh: nat, dstRate: nat, dstCh: nat)
    ensures srcCh == dstCh || srcCh == 0 || dstCh == 0 ==> Remap(pcm, srcCh, dstCh) == Some(pcm)
    ensures dstRate > 0 && (srcRate == dstRate || srcRate == 0 || srcCh == 0) ==>
              Resample(pcm, srcRate, dstRate, srcCh) == Some(pcm)
    ensures srcCh == dstCh && (srcRate == dstRate || dstRate == 0 || srcRate == 0 || srcCh == 0) ==>
              Match(pcm, srcRate, srcCh, dstRate, dstCh) == Some(pcm)
  {
    hide Frames, Joined, Count;
  }

  /** With equal rates only the channels are mapped, frame by frame. */
  lemma OnlyChannels(pcm: seq<byte>, rate: nat, srcCh: nat, dstCh: nat)
    requires 0 < srcCh && 0 < dstCh && srcCh != dstCh
    ensures var source, size := Frames(pcm, 2 * srcCh), 2 * dstCh;
      match Match(pcm, rate, srcCh, rate, dstCh)
      case None => (source != [] && Wrap32(srcCh) == 0) || |source| * size >= TWO63
      case Some(result) =>
        var out := Frames(result, size);
        && |result| == |source| * size && |out| == |source|
        && forall i :: 0 <= i < |source| ==> Wrap32(srcCh) != 0 && out[i] == Fanned(Mixed(source[i], srcCh), dstCh)
  {
    hide Frames, Joined, Wrap32, Fanned, Mixed;
    var source, size := Frames(pcm, 2 * srcCh), 2 * dstCh;
    if |source| * size < TWO63 && (source != [] ==> Wrap32(srcCh) != 0) {
      FramesOfJoined(RemapFrames(source, srcCh, dstCh), size);
      JoinedSize(RemapFrames(source, srcCh, dstCh), size);
    }
  }

  /** With equal channel counts only the rate is changed: frames are repeated or left out whole. */
  lemma OnlyRates(pcm: seq<byte>, srcRate: nat, dstRate: nat, channels: nat)
    requires 0 < srcRate && 0 < dstRate && 0 < channels && srcRate != dstRate
    ensures var source, size := Frames(pcm, 2 * channels), 2 * channels;
      var m := Count(|source|, srcRate, dstRate);
      match Match(pcm, srcRate, channels, dstRate, channels)
      case None => m < 0 || m * size >= TWO63
      case Some(result) =>
        var out := Frames(result, size);
        && |result| == m * size && |out| == m
        && forall i :: 0 <= i < m ==> Index(i, srcRate, dstRate) < |source| && out[i] == source[Index(i, srcRate, dstRate)]
  {
    hide Frames, Joined, Count, Length, Index;
    var source, size := Frames(pcm, 2 * channels), 2 * channels;
    var m := Count(|source|, srcRate, dstRate);
    CountIs(|source|, srcRate, dstRate);
    if m >= 0 {
      PickedSize(source, size, srcRate, dstRate, m);
      IndexesInside(|source|, srcRate, dstRate);
    }
  }

  // ----- the order of the two -----

  /** Mixing first and resampling first come to the same, if neither order panics. */
  lemma MatchCommutes(pcm: seq<byte>, srcRate: nat, srcCh: nat, dstRate: nat, dstCh: nat)
    requires 0 < srcRate && 0 < dstRate && 0 < srcCh && 0 < dstCh && srcRate != dstRate && srcCh != dstCh
    ensures var a, picked := Match(pcm, srcRate, srcCh, dstRate, dstCh), Resample(pcm, srcRate, dstRate, srcCh);
      a.Some? && picked.Some? && Remap(picked.value, srcCh, dstCh).Some? ==> a == Remap(picked.value, srcCh, dstCh)
  {
    hide Frames, Joined, Count, Length, ResampleFrames, RemapFrames, Wrap32;
    var source, size := Frames(pcm, 2 * srcCh), 2 * dstCh;
    var m := Count(|source|, srcRate, dstRate);
    CountIs(|source|, srcRate, dstRate);
    if |source| * size < TWO63 && (source != [] ==> Wrap32(srcCh) != 0) && m >= 0 {
      FramesOfJoined(RemapFrames(source, srcCh, dstCh), size);
      PickedSize(source, 2 * srcCh, srcRate, dstRate, m);
      PickThenMix(source, srcRate, srcCh, dstRate, dstCh, m);
    }
  }

  lemma PickThenMix(source: seq<seq<byte>>, srcRate: nat, srcCh: nat, dstRate: nat, dstCh: nat, m: nat)
    requires 0 < srcRate && 0 < dstRate && 0 < srcCh && m <= Length(|source|, srcRate, dstRate)
    requires AllOfSize(source, 2 * srcCh) && (source != [] ==> Wrap32(srcCh) != 0)
    ensures var picked := ResampleFrames(source, srcRate, dstRate, m);
      && AllOfSize(picked, 2 * srcCh) && (picked != [] ==> source != [])
      && ResampleFrames(RemapFrames(source, srcCh, dstCh), srcRate, dstRate, m) == RemapFrames(picked, srcCh, dstCh)
  {
    hide Mixed, Fanned, Length, Index;
    var picked := ResampleFrames(source, srcRate, dstRate, m);
    IndexesInside(|source|, srcRate, dstRate);
    forall i | 0 <= i < m ensures |picked[i]| == 2 * srcCh && source != [] {
      assert picked[i] in source;
    }
    if picked != [] { assert picked[0] in source; }
  }

  // ----- the loops -----

  /** The inner loop of the channel mapping: a sum in a 32-bit register. */
  method MixFrame(pcm: seq<byte>, src: nat, i: nat) returns (mono: int)
    requires 0 < src && Wrap32(src) != 0 && i < |pcm| / (2 * src)
    ensures mono == Mixed(FrameAt(pcm, 2 * src, i), src)
  {
    hide Wrap32, SignedQuo, Signed16, Le16, Mixed;
    FrameInside(pcm, 2 * src, i);
    ghost var frame := FrameAt(pcm, 2 * src, i);
    var sum := 0;
    Wrap32Of(0);
    for c := 0 to src
      invariant sum == Wrap32(Sum(frame, c))
    {
      SampleAt(pcm, src, i, c);
      var at: int := (i * src + c) * 2;
      var s := Signed16(Le16(pcm[at..at + 2]));
      Wrap32Adds(Sum(frame, c), s);
      sum := Wrap32(sum + s);
    }
    MixedIs(frame, src);
    mono := Signed16(SignedQuo(sum, Wrap32(src)) % TWO16);
  }

  /** Where sample `c` of frame `i` is in the buffer. */
  lemma SampleAt(pcm: seq<byte>, src: nat, i: nat, c: nat)
    requires c < src && i < |pcm| / (2 * src)
    ensures var at := (i * src + c) * 2;
      0 <= at <= |pcm| - 2 && Signed16(Le16(pcm[at..at + 2])) == Sample(FrameAt(pcm, 2 * src, i), c)
  {
    hide Signed16, Le16;
    FrameInside(pcm, 2 * src, i);
    var at := (i * src + c) * 2;
    WhereIsIt(i, src, c);
    SliceOfSlice(pcm, i * (2 * src), 2 * src, 2 * c);
  }

  lemma WhereIsIt(i: nat, n: nat, c: nat)
    ensures (i * n + c) * 2 == i * (2 * n) + 2 * c && i * (2 * n) >= 0
  {
    assert i * (2 * n) == 2 * (i * n);
  }

  lemma SliceOfSlice(s: seq<byte>, from: nat, size: nat, at: nat)
    requires from + size <= |s| && at + 2 <= size
    ensures s[from..from + size][at..at + 2] == s[from + at..from + at + 2]
  {
    var f := s[from..from + size];
    assert f[at] == s[from + at] && f[at + 1] == s[from + at + 1];
    assert f[at..at + 2] == [f[at], f[at + 1]] && s[from + at..from + at + 2] == [s[from + at], s[from + at + 1]];
  }

  lemma MixedIs(frame: seq<byte>, n: nat)
    requires n > 0 && 2 * n <= |frame| && Wrap32(n) != 0
    ensures Mixed(frame, n) == Signed16(SignedQuo(Wrap32(Sum(frame, n)), Wrap32(n)) % TWO16)
  {
  }

  method FanOut(out: array<byte>, mono: int, dst: nat, i: nat)
    requires dst > 0 && 0 <= i * (2 * dst) && i * (2 * dst) + 2 * dst <= out.Length
    modifies out
    ensures out[..i * (2 * dst) + 2 * dst] == old(out[..i * (2 * dst)]) + Fanned(mono, dst)
  {
    hide Put16;
    ghost var base := i * (2 * dst);
    for c := 0 to dst
      invariant out[..base + 2 * c] == old(out[..base]) + Fanned(mono, c)
    {
      var at := (i * dst + c) * 2;
      assert at == base + 2 * c;
      PutUint16(out, at, mono);
    }
  }

  method RemapChannels(pcm: seq<byte>, src: nat, dst: nat) returns (out: Option<seq<byte>>)
    requires 2 * src < TWO63
    ensures out == Remap(pcm, src, dst)
  {
    hide Mixed, Fanned, FrameAt, Wrap32;
    if src == dst || src == 0 || dst == 0 { return Some(pcm); }
    var frames := |pcm| / (2 * src);
    assert frames * 2 * dst == frames * (2 * dst);
    if frames * 2 * dst >= TWO63 || (frames > 0 && Wrap32(src) == 0) { return None; }
    ghost var wanted := RemapFrames(Frames(pcm, 2 * src), src, dst);
    var buf := new byte[frames * 2 * dst];
    for i := 0 to frames
      invariant 0 <= i * (2 * dst) <= buf.Length && buf[..i * (2 * dst)] == Joined(wanted[..i])
    {
      NextFits(i, frames, 2 * dst);
      var mono := MixFrame(pcm, src, i);
      FanOut(buf, mono, dst, i);
      NextJoined(wanted, i);
    }
    assert wanted[..frames] == wanted && buf[..buf.Length] == buf[..];
    return Some(buf[..]);
  }

  lemma NextFits(i: nat, n: nat, size: nat)
    requires i < n
    ensures 0 <= i * size && i * size + size == (i + 1) * size <= n * size
  {
    MulMono(i + 1, n, size);
  }

  /** No product of the resampling loop leaves 64 bits. */
  lemma ProductsFit(n: nat, i: nat, srcRate: nat, dstRate: nat)
    requires srcRate > 0 && i < Count(n, srcRate, dstRate)
    ensures 0 <= i * srcRate < TWO63
  {
    var w := Wrap64(n * dstRate);
    if w < 0 {
      NotNegative(-w, srcRate);
    } else {
      DivSandwich(w, srcRate);
      MulMono(i, w / srcRate, srcRate);
    }
  }

  lemma PickedFrame(pcm: seq<byte>, srcRate: nat, dstRate: nat, size: nat, m: nat, i: nat)
    requires srcRate > 0 && dstRate > 0 && size > 0 && i < m <= Length(|pcm| / size, srcRate, dstRate)
    ensures var j := Index(i, srcRate, dstRate);
      && j < |pcm| / size && 0 <= j * size && j * size + size <= |pcm|
      && ResampleFrames(Frames(pcm, size), srcRate, dstRate, m)[i] == pcm[j * size..j * size + size]
  {
    hide Length, Index;
    var j := Index(i, srcRate, dstRate);
    IndexInside(|pcm| / size, i, srcRate, dstRate);
    FrameInside(pcm, size, j);
    assert Frames(pcm, size)[j] == FrameAt(pcm, size, j);
  }

  method ResampleNearest(pcm: seq<byte>, srcRate: nat, dstRate: nat, channels: nat) returns (out: Option<seq<byte>>)
    requires dstRate > 0
    ensures out == Resample(pcm, srcRate, dstRate, channels)
  {
    hide Length, Index, Joined, ResampleFrames, Frames, Count, Resample;
    ResampleIs(pcm, srcRate, dstRate, channels);
    if srcRate == dstRate || srcRate == 0 || channels == 0 { return Some(pcm); }
    var frame := 2 * channels;
    var srcFrames := |pcm| / frame;
    assert srcFrames == |Frames(pcm, frame)|;
    var dstFrames := Count(srcFrames, srcRate, dstRate);
    if dstFrames < 0 || dstFrames * frame >= TWO63 { return None; }
    var picked := CopyFrames(pcm, frame, srcRate, dstRate, dstFrames);
    return Some(picked);
  }

  lemma ResampleIs(pcm: seq<byte>, srcRate: nat, dstRate: nat, channels: nat)
    requires dstRate > 0
    ensures srcRate == dstRate || srcRate == 0 || channels == 0 ==>
      Resample(pcm, srcRate, dstRate, channels) == Some(pcm)
    ensures srcRate != dstRate && srcRate > 0 && channels > 0 ==>
      var fs := Frames(pcm, 2 * channels);
      var m := Count(|fs|, srcRate, dstRate);
      && m <= Length(|fs|, srcRate, dstRate)
      && Resample(pcm, srcRate, dstRate, channels)
      == if m < 0 || m * (2 * channels) >= TWO63 then None
         else Some(Joined(ResampleFrames(fs, srcRate, dstRate, m)))
  {
    hide Length, Index, Joined, ResampleFrames, Count, Frames;
    if srcRate != dstRate && srcRate > 0 && channels > 0 {
      CountIs(|Frames(pcm, 2 * channels)|, srcRate, dstRate);
    }
  }

  /** The copying loop. */
  method CopyFrames(pcm: seq<byte>, frame: nat, srcRate: nat, dstRate: nat, dstFrames: nat) returns (out: seq<byte>)
    requires frame > 0 && srcRate > 0 && dstRate > 0 && dstFrames == Count(|Frames(pcm, frame)|, srcRate, dstRate)
    requires dstFrames <= Length(|Frames(pcm, frame)|, srcRate, dstRate)
    ensures out == Joined(ResampleFrames(Frames(pcm, frame), srcRate, dstRate, dstFrames))
  {
    hide Length, Index, Joined, ResampleFrames, Frames, Count;
    var srcFrames := |pcm| / frame;
    ghost var wanted := ResampleFrames(Frames(pcm, frame), srcRate, dstRate, dstFrames);
    NothingJoined(wanted);
    var buf := new byte[dstFrames * frame];
    var i, at := 0, 0;
    while i < dstFrames
      invariant 0 <= i <= dstFrames && at == i * frame && at <= buf.Length && buf[..at] == Joined(wanted[..i])
    {
      NextFits(i, dstFrames, frame);
      ProductsFit(srcFrames, i, srcRate, dstRate);
      var j: int := Index(i, srcRate, dstRate);
      if j >= srcFrames {
        j := srcFrames - 1;
      }
      PickedFrame(pcm, srcRate, dstRate, frame, dstFrames, i);
      NextJoined(wanted, i);
      CopyFrame(pcm, buf, at, j, frame);
      i, at := i + 1, at + frame;
    }
    assert wanted[..dstFrames] == wanted && buf[..buf.Length] == buf[..];
    return buf[..];
  }

  method CopyFrame(pcm: seq<byte>, buf: array<byte>, at: nat, j: nat, frame: nat)
    requires at + frame <= buf.Length && 0 <= j * frame && j * frame + frame <= |pcm|
    modifies buf
    ensures buf[..at + frame] == old(buf[..at]) + pcm[j * frame..j * frame + frame]
  {
    PutBytes(buf, at, pcm[j * frame..j * frame + frame]);
  }

  lemma NothingJoined(fs: seq<seq<byte>>)
    ensures Joined(fs[..0]) == []
  {
  }

  lemma NextJoined(fs: seq<seq<byte>>, i: nat)
    requires i < |fs|
    ensures Joined(fs[..i + 1]) == Joined(fs[..i]) + fs[i]
  {
    assert fs[..i + 1] == fs[..i] + [fs[i]];
    JoinedPush(fs[..i], fs[i]);
  }

  method MatchOutput(pcm: seq<byte>, srcRate: nat, srcCh: nat, dstRate: nat, dstCh: nat)
    returns (out: Option<seq<byte>>)
    requires 2 * srcCh < TWO63
    ensures out == Match(pcm, srcRate, srcCh, dstRate, dstCh)
  {
    out := Some(pcm);
    var channels := srcCh;
    if srcCh != dstCh {
      out := RemapChannels(pcm, srcCh, dstCh);
      if out.None? { return; }
      channels := dstCh;
    }
    if srcRate != dstRate && dstRate > 0 {
      out := ResampleNearest(out.value, srcRate, dstRate, channels);
    }
  }
}
