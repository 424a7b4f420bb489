/**
 * Gamma lookup and gray synthesis on a scan line buffer (server/scanjob.cpp).
 *
 * A line is a byte buffer viewed as 8-bit samples or as little-endian 16-bit
 * samples. The float arithmetic of the source is modelled with its exact
 * decimal weights, rounded to nearest.
 */
module Pixels {

  /** A buffer element read as an unsigned byte. */
  function Octet(c: char): nat { c as int % 256 }

  /** Sample widths in bytes: bit depth 8 or 16. */
  datatype Width = Bits8 | Bits16

  /** The number of bytes of n samples. */
  function Bytes(w: Width, n: nat): nat { if w.Bits8? then n else 2 * n }

  /** The sample that byte j belongs to. */
  function SampleOf(w: Width, j: nat): nat { if w.Bits8? then j else j / 2 }

  function MaxSample(w: Width): nat { if w.Bits8? then 255 else 65535 }

  /** How many whole samples n bytes hold. */
  function Samples(w: Width, n: nat): nat { if w.Bits8? then n else n / 2 }

  function SampleAt(w: Width, s: string, i: nat): nat
    requires i < Samples(w, |s|)
  {
    if w.Bits8? then Octet(s[i]) else Octet(s[2 * i]) + 256 * Octet(s[2 * i + 1])
  }

  lemma SampleRange(w: Width, s: string, i: nat)
    requires i < Samples(w, |s|)
    ensures SampleAt(w, s, i) <= MaxSample(w)
  {
  }

  /** Byte j of a row of samples. */
  function ByteOf(w: Width, v: nat, j: nat): (c: char)
    ensures c as int < 256
  {
    (if w.Bits8? || j % 2 == 0 then v % 256 else v / 256 % 256) as char
  }

  /** The bytes of n samples given by f. */
  function Pack(w: Width, n: nat, f: nat -> nat): (s: string)
    ensures |s| == Bytes(w, n)
    ensures forall j :: 0 <= j < |s| ==> s[j] == ByteOf(w, f(SampleOf(w, j)), j)
  {
    seq(Bytes(w, n), j requires 0 <= j => ByteOf(w, f(SampleOf(w, j)), j))
  }

  /** Packing and reading back agree on every sample in range. */
  lemma PackReads(w: Width, n: nat, f: nat -> nat, i: nat)
    requires i < n && f(i) <= MaxSample(w)
    ensures SampleAt(w, Pack(w, n, f), i) == f(i)
  {
    hide Pack;
    var s := Pack(w, n, f);
    if w.Bits8? {
      assert s[i] == ByteOf(w, f(i), i);
    } else {
      assert SampleOf(w, 2 * i) == i && SampleOf(w, 2 * i + 1) == i;
      TwoBytes(f(i), i, s[2 * i], s[2 * i + 1]);
    }
  }

  lemma TwoBytes(v: nat, i: nat, low: char, high: char)
    requires v <= 65535 && low == ByteOf(Bits16, v, 2 * i) && high == ByteOf(Bits16, v, 2 * i + 1)
    ensures Octet(low) + 256 * Octet(high) == v
  {
    assert (2 * i + 1) % 2 == 1;
  }

  // ---- gamma ---------------------------------------------------------------

  /** The table applies to samples of one width only, by its size; other tables apply to none. */
  predicate Applies(table: seq<nat>, w: Width) {
    |table| == MaxSample(w) + 1
  }

  /** Lookup of every whole sample; an odd last byte of a 16-bit line stays. */
  function Gamma(table: seq<nat>, s: string): (r: string)
    ensures |r| == |s|
  {
    if Applies(table, Bits8) then LookedUp(table, Bits8, s)
    else if Applies(table, Bits16) then LookedUp(table, Bits16, s)
    else s
  }

  function LookedUp(table: seq<nat>, w: Width, s: string): (r: string)
    requires Applies(table, w)
    ensures |r| == |s|
  {
    seq(|s|, j requires 0 <= j < |s| => LookedUpByte(table, w, s, j))
  }

  function LookedUpByte(table: seq<nat>, w: Width, s: string, j: nat): char
    requires Applies(table, w) && j < |s|
  {
    if w.Bits8? then
      ByteOf(w, table[Octet(s[j])], j)
    else if j / 2 < |s| / 2 then
      SampleRange(w, s, j / 2);
      ByteOf(w, table[SampleAt(w, s, j / 2)], j)
    else s[j]
  }

  /** applyGamma, in place. */
  method ApplyGamma(table: seq<nat>, buffer: array<char>)
    modifies buffer
    ensures buffer[..] == Gamma(table, old(buffer[..]))
  {
    if |table| == 256 {
      ApplyGamma8(table, buffer);
    } else if |table| == 65536 {
      ApplyGamma16(table, buffer);
    }
  }

  method ApplyGamma8(table: seq<nat>, buffer: array<char>)
    requires Applies(table, Bits8)
    modifies buffer
    ensures buffer[..] == LookedUp(table, Bits8, old(buffer[..]))
  {
    hide ByteOf;
    ghost var s := buffer[..];
    for i := 0 to buffer.Length
      invariant forall j :: 0 <= j < i ==> buffer[j] == LookedUpByte(table, Bits8, s, j)
      invariant forall j :: i <= j < buffer.Length ==> buffer[j] == s[j]
    {
      assert buffer[i] == s[i];
      buffer[i] := ByteOf(Bits8, table[Octet(buffer[i])], i);
    }
  }

  method ApplyGamma16(table: seq<nat>, buffer: array<char>)
    requires Applies(table, Bits16)
    modifies buffer
    ensures buffer[..] == LookedUp(table, Bits16, old(buffer[..]))
  {
    hide ByteOf;
    ghost var s := buffer[..];
    for i := 0 to buffer.Length / 2
      invariant forall j :: 0 <= j < 2 * i ==> buffer[j] == LookedUpByte(table, Bits16, s, j)
      invariant forall j :: 2 * i <= j < buffer.Length ==> buffer[j] == s[j]
    {
      SampleRange(Bits16, s, i);
      assert buffer[2 * i] == s[2 * i] && buffer[2 * i + 1] == s[2 * i + 1];
      var v := table[Octet(buffer[2 * i]) + 256 * Octet(buffer[2 * i + 1])];
      assert (2 * i) / 2 == i && (2 * i + 1) / 2 == i;
      assert v == table[SampleAt(Bits16, s, i)];
      buffer[2 * i], buffer[2 * i + 1] := ByteOf(Bits16, v, 2 * i), ByteOf(Bits16, v, 2 * i + 1);
    }
  }

  // ---- gray ----------------------------------------------------------------

  /** 0.2126 r + 0.7152 g + 0.0722 b, rounded and capped. */
  function Luma(r: nat, g: nat, b: nat, cap: nat): nat {
    var f := (2126 * r + 7152 * g + 722 * b + 5000) / 10000;
    if f < cap then f else cap
  }

  /** The weights sum to one: luma stays in range, keeps neutral colours, and is monotone. */
  lemma LumaLaws(r: nat, g: nat, b: nat, r': nat, g': nat, b': nat, cap: nat)
    requires r <= r' <= cap && g <= g' <= cap && b <= b' <= cap
    ensures Luma(r, g, b, cap) <= Luma(r', g', b', cap) <= cap
    ensures Luma(r, r, r, cap) == r
    ensures (2126 * r + 7152 * g + 722 * b + 5000) / 10000 <= cap
  {
    assert 2126 * r + 7152 * g + 722 * b <= 10000 * cap;
  }

  function GrayPixel(w: Width, s: string, i: nat): nat
    requires 3 * i + 2 < Samples(w, |s|)
  {
    Luma(SampleAt(w, s, 3 * i), SampleAt(w, s, 3 * i + 1), SampleAt(w, s, 3 * i + 2), MaxSample(w))
  }

  /** The gray line of a line of RGB pixels. */
  function Gray(w: Width, s: string): (r: string)
    ensures |r| == Bytes(w, Samples(w, |s|) / 3)
  {
    var n := Samples(w, |s|) / 3;
    Pack(w, n, i => if 0 <= i < n then GrayPixel(w, s, i) else 0)
  }

  lemma GrayPixelAt(w: Width, s: string, i: nat)
    requires i < Samples(w, |s|) / 3
    ensures SampleAt(w, Gray(w, s), i) == GrayPixel(w, s, i)
  {
    var n := Samples(w, |s|) / 3;
    PackReads(w, n, i => if 0 <= i < n then GrayPixel(w, s, i) else 0, i);
  }

  // ---- gray, in place ------------------------------------------------------

  /** Byte j from the start of a line: of the line itself, or of what lies behind it in memory. */
  function ByteAt(s: string, stray: nat -> char, j: nat): char {
    if j < |s| then s[j] else stray(j - |s|)
  }

  function StraySample(w: Width, s: string, stray: nat -> char, i: nat): nat {
    if w.Bits8? then Octet(ByteAt(s, stray, i))
    else Octet(ByteAt(s, stray, 2 * i)) + 256 * Octet(ByteAt(s, stray, 2 * i + 1))
  }

  /** A pixel whose last samples may lie behind the line. */
  function StrayPixel(w: Width, s: string, stray: nat -> char, i: nat): nat {
    Luma(StraySample(w, s, stray, 3 * i), StraySample(w, s, stray, 3 * i + 1), StraySample(w, s, stray, 3 * i + 2),
         MaxSample(w))
  }

  lemma WholePixel(w: Width, s: string, stray: nat -> char, i: nat)
    requires 3 * i + 2 < Samples(w, |s|)
    ensures StrayPixel(w, s, stray, i) == GrayPixel(w, s, i)
  {
    hide Luma, Octet;
  }

  /** The leading third of a line after synthesis: gray pixels, and at most one byte of a pixel that was cut off. */
  function GrayLine(w: Width, s: string, stray: nat -> char): (r: string)
    ensures |r| == |s| / 3
    ensures Gray(w, s) <= r
  {
    var gray := Gray(w, s);
    if |gray| == |s| / 3 then gray else gray + [ByteOf(w, StrayPixel(w, s, stray, Samples(w, |s|) / 3), |gray|)]
  }

  /** What lies behind the line does not matter if 8-bit samples, or whole pixels, are synthesized. */
  lemma GrayLineIsGray(w: Width, s: string, stray: nat -> char)
    requires w.Bits8? || |s| / 3 % 2 == 0
    ensures GrayLine(w, s, stray) == Gray(w, s)
  {
    hide Gray, GrayPixel, StrayPixel, ByteOf;
    var gray, line := Gray(w, s), GrayLine(w, s, stray);
    assert |gray| == |line| ==> line == gray;
    if w.Bits16? {
      CutPixel(|s|);
    }
  }

  /** The gray bytes of whole 16-bit pixels, against a third of the line. */
  lemma CutPixel(n: nat)
    ensures n / 3 - 1 <= 2 * (n / 2 / 3) <= n / 3
  {
    var q := n / 6;
    assert n / 2 / 3 == q && 2 * q <= n / 3 <= 2 * q + 1;
  }

  /**
   * synthesizeGray, in place, for lines of any length: the leading third of the
   * buffer becomes the gray line of the original contents, although it
   * overwrites the pixels it is computed from. A last pixel that is cut off is
   * completed with what lies behind the buffer.
   */
  method SynthesizeGray(w: Width, buffer: array<char>, stray: nat -> char)
    modifies buffer
    ensures buffer[..buffer.Length / 3] == GrayLine(w, old(buffer[..]), stray)
  {
    ghost var s := buffer[..];
    if w.Bits8? {
      SynthesizeGray8(buffer, stray);
    } else {
      SynthesizeGray16(buffer, stray);
    }
    Synthesized(w, s, stray, buffer[..]);
    assert buffer[..][..buffer.Length / 3] == buffer[..buffer.Length / 3];
  }

  /** Byte j of the leading third, by the pixel it belongs to. */
  predicate LeadingThird(w: Width, s: string, stray: nat -> char, r: string) {
    |r| == |s| && forall j :: 0 <= j < |s| / 3 ==> r[j] == ByteOf(w, StrayPixel(w, s, stray, SampleOf(w, j)), j)
  }

  lemma Synthesized(w: Width, s: string, stray: nat -> char, r: string)
    requires LeadingThird(w, s, stray, r)
    ensures r[..|s| / 3] == GrayLine(w, s, stray)
  {
    hide ByteOf, StrayPixel, GrayPixel;
    var line, n := GrayLine(w, s, stray), Samples(w, |s|) / 3;
    forall j | 0 <= j < |s| / 3
      ensures r[j] == line[j]
    {
      if j < Bytes(w, n) {
        WholePixel(w, s, stray, SampleOf(w, j));
      }
    }
  }

  method SynthesizeGray8(buffer: array<char>, stray: nat -> char)
    modifies buffer
    ensures LeadingThird(Bits8, old(buffer[..]), stray, buffer[..])
  {
    hide ByteOf, Luma, Octet;
    ghost var s := buffer[..];
    var i := 0;
    while 3 * i < buffer.Length
      invariant i <= (buffer.Length + 2) / 3
      invariant forall j :: 0 <= j < i ==> buffer[j] == ByteOf(Bits8, StrayPixel(Bits8, s, stray, j), j)
      invariant forall j :: 3 * i <= j < buffer.Length ==> buffer[j] == s[j]
    {
      var r, g, b := Fetch(buffer, stray, 3 * i), Fetch(buffer, stray, 3 * i + 1), Fetch(buffer, stray, 3 * i + 2);
      var v := Luma(Octet(r), Octet(g), Octet(b), 255);
      assert v == StrayPixel(Bits8, s, stray, i);
      buffer[i] := ByteOf(Bits8, v, i);
      i := i + 1;
    }
  }

  /** What the source reads at this distance from the start of the buffer. */
  function Fetch(buffer: array<char>, stray: nat -> char, j: nat): char
    reads buffer
  {
    if j < buffer.Length then buffer[j] else stray(j - buffer.Length)
  }

  method SynthesizeGray16(buffer: array<char>, stray: nat -> char)
    modifies buffer
    ensures LeadingThird(Bits16, old(buffer[..]), stray, buffer[..])
  {
    hide ByteOf, StrayPixel, Octet;
    ghost var s := buffer[..];
    var i := 0;
    while 6 * i < buffer.Length
      invariant i <= (buffer.Length + 5) / 6
      invariant forall j :: 0 <= j < 2 * i && j < buffer.Length ==>
        buffer[j] == ByteOf(Bits16, StrayPixel(Bits16, s, stray, j / 2), j)
      invariant forall j :: 6 * i <= j < buffer.Length ==> buffer[j] == s[j]
    {
      var v := GrayPixel16(s, buffer, stray, i);
      assert (2 * i) / 2 == i && (2 * i + 1) / 2 == i;
      buffer[2 * i] := ByteOf(Bits16, v, 2 * i);
      if 2 * i + 1 < buffer.Length {
        buffer[2 * i + 1] := ByteOf(Bits16, v, 2 * i + 1);
      }
      i := i + 1;
    }
  }

  method GrayPixel16(ghost s: string, buffer: array<char>, stray: nat -> char, i: nat) returns (v: nat)
    requires |s| == buffer.Length && forall j :: 6 * i <= j < buffer.Length ==> buffer[j] == s[j]
    ensures v == StrayPixel(Bits16, s, stray, i)
  {
    hide Luma, Octet;
    var r := Sample16(buffer, stray, 3 * i);
    var g := Sample16(buffer, stray, 3 * i + 1);
    var b := Sample16(buffer, stray, 3 * i + 2);
    v := Luma(r, g, b, 65535);
  }

  function Sample16(buffer: array<char>, stray: nat -> char, k: nat): nat
    reads buffer
  {
    Octet(Fetch(buffer, stray, 2 * k)) + 256 * Octet(Fetch(buffer, stray, 2 * k + 1))
  }
}
