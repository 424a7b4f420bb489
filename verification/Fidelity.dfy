/**
 * What a scan line is on its way from the device to the image stream of a PDF,
 * sample by sample: server/scanjob.cpp applies the gamma table and synthesizes
 * gray, imageformats/pdfencoder.cpp stores the result. The statements here are
 * about the bytes read and the bytes stored, not about the steps in between.
 */
module Fidelity {
  import opened Arithmetic
  import opened Text
  import opened Sane
  import opened ImageEncoding
  import opened PdfEncoding
  import opened PdfProgress
  import opened Pixels
  import opened JobModel
  import opened NextDocument
  import opened ScanJobs

  function Byte(c: char): nat { c as int % 256 }

  /** How many samples n bytes hold. */
  function SamplesIn(depth: nat, n: nat): nat {
    if depth == 16 then n / 2 else n
  }

  /** Sample i of a line as the device delivers it, least significant byte first. */
  function RawSample(depth: nat, raw: string, i: nat): nat
    requires i < SamplesIn(depth, |raw|)
  {
    if depth == 16 then Byte(raw[2 * i]) + 256 * Byte(raw[2 * i + 1]) else Byte(raw[i])
  }

  /** Sample i of a line as a PDF reader takes it, most significant byte first. */
  function StoredSample(depth: nat, data: string, i: nat): nat
    requires i < SamplesIn(depth, |data|)
  {
    if depth == 16 then 256 * Byte(data[2 * i]) + Byte(data[2 * i + 1]) else Byte(data[i])
  }

  /** What the gamma table makes of a sample; without a table it stays. */
  function Corrected(table: seq<nat>, depth: nat, v: nat): nat {
    if depth == 8 && |table| == 256 && v < 256 then table[v] % 256
    else if depth == 16 && |table| == 65536 && v < 65536 then table[v] % 65536
    else v
  }

  /** v is the integer nearest to s / 10000, the larger one if there are two. */
  predicate Nearest(v: nat, s: nat) {
    10000 * v <= s + 5000 < 10000 * (v + 1)
  }

  /** The job scans with the depth it asked for, and its table, if it has one, is for that depth. */
  predicate Usual(c: Config, prep: Preparation) {
    && (c.params.depth == 8 || c.params.depth == 16) && prep.bitDepth == c.params.depth
    && (prep.gamma == [] || |prep.gamma| == if c.params.depth == 8 then 256 else 65536)
  }

  /** Gray sample i is 0.2126 r + 0.7152 g + 0.0722 b of the corrected samples of pixel i, to the nearest integer. */
  predicate GrayFaithful(c: Config, prep: Preparation, raw: string, data: string, i: nat) {
    var depth := c.params.depth;
    && 3 * i + 2 < SamplesIn(depth, |raw|) && i < SamplesIn(depth, |data|)
    && Nearest(StoredSample(depth, data, i),
         2126 * Corrected(prep.gamma, depth, RawSample(depth, raw, 3 * i)) +
         7152 * Corrected(prep.gamma, depth, RawSample(depth, raw, 3 * i + 1)) +
         722 * Corrected(prep.gamma, depth, RawSample(depth, raw, 3 * i + 2)))
  }

  /** Stored data against the raw line it comes from. */
  predicate LineFaithful(c: Config, prep: Preparation, raw: string, data: string) {
    var depth, n := c.params.depth, SamplesIn(c.params.depth, |raw|);
    if !c.colorScan && c.synthesizeGray then
      |data| == |raw| / 3 && forall i :: 0 <= i < n / 3 ==> GrayFaithful(c, prep, raw, data, i)
    else
      && |data| == |raw|
      && forall i :: 0 <= i < n ==>
           StoredSample(depth, data, i) == Corrected(prep.gamma, depth, RawSample(depth, raw, i))
  }

  // ---- samples -------------------------------------------------------------

  function WidthOf(depth: nat): Width {
    if depth == 16 then Bits16 else Bits8
  }

  lemma RawIsSample(depth: nat, raw: string, i: nat)
    requires i < SamplesIn(depth, |raw|)
    ensures i < Samples(WidthOf(depth), |raw|) && RawSample(depth, raw, i) == SampleAt(WidthOf(depth), raw, i)
  {
  }

  lemma StoredIsSample(depth: nat, line: string, data: string, i: nat)
    requires AsStored(depth, line, data) && i < SamplesIn(depth, |line|)
    ensures StoredSample(depth, data, i) == SampleAt(WidthOf(depth), line, i)
  {
  }

  /** The gamma lookup, seen on samples. */
  lemma GammaSample(c: Config, prep: Preparation, raw: string, i: nat)
    requires Usual(c, prep) && i < SamplesIn(c.params.depth, |raw|)
    ensures
      var w := WidthOf(c.params.depth);
      && i < Samples(w, |Gamma(prep.gamma, raw)|)
      && SampleAt(w, Gamma(prep.gamma, raw), i) ==
         Corrected(prep.gamma, c.params.depth, RawSample(c.params.depth, raw, i))
  {
    var w, s := WidthOf(c.params.depth), Gamma(prep.gamma, raw);
    RawIsSample(c.params.depth, raw, i);
    SampleRange(w, raw, i);
    if prep.gamma != [] {
      if w.Bits8? {
        assert s[i] == LookedUpByte(prep.gamma, w, raw, i);
      } else {
        assert (2 * i) / 2 == i && (2 * i + 1) / 2 == i;
        var v := prep.gamma[SampleAt(w, raw, i)];
        assert s[2 * i] == ByteOf(w, v, 2 * i) && s[2 * i + 1] == ByteOf(w, v, 2 * i + 1);
        TwoStored(v, i);
      }
    }
  }

  lemma TwoStored(v: nat, i: nat)
    ensures Octet(ByteOf(Bits16, v, 2 * i)) + 256 * Octet(ByteOf(Bits16, v, 2 * i + 1)) == v % 65536
  {
    assert (2 * i + 1) % 2 == 1 && (2 * i) % 2 == 0;
    LowBytes(v);
  }

  lemma LowBytes(v: nat)
    ensures v % 256 + 256 * (v / 256 % 256) == v % 65536
  {
    var q, low := v / 256 / 256, 256 * (v / 256 % 256) + v % 256;
    assert v == 65536 * q + low;
    QuotientUnique(65536, q, low);
  }

  lemma LumaIsNearest(r: nat, g: nat, b: nat, cap: nat)
    requires r <= cap && g <= cap && b <= cap
    ensures Nearest(Luma(r, g, b, cap), 2126 * r + 7152 * g + 722 * b)
  {
    assert 2126 * r + 7152 * g + 722 * b <= 10000 * cap;
  }

  // ---- lines ---------------------------------------------------------------

  /** Every line handed to the encoder is stored faithfully. */
  lemma LineIsFaithful(c: Config, prep: Preparation, raw: string, data: string)
    requires Usual(c, prep) && AsStored(c.params.depth, PreparedLine(c, prep, raw), data)
    ensures LineFaithful(c, prep, raw, data)
  {
    hide Gamma, GrayLine, Gray, Corrected, SampleAt, RawSample, StoredSample, AsStored, GrayFaithful;
    var depth, line := c.params.depth, PreparedLine(c, prep, raw);
    assert |data| == |line| by { StoredLength(depth, line, data); }
    if Synthesizes(c) {
      CutPixel(|raw|);
      forall i | 0 <= i < SamplesIn(depth, |raw|) / 3
        ensures GrayFaithful(c, prep, raw, data, i)
      {
        GrayIsFaithful(c, prep, raw, data, i);
      }
    } else {
      forall i | 0 <= i < SamplesIn(depth, |raw|)
        ensures StoredSample(depth, data, i) == Corrected(prep.gamma, depth, RawSample(depth, raw, i))
      {
        GammaSample(c, prep, raw, i);
        StoredIsSample(depth, line, data, i);
      }
    }
  }

  lemma StoredLength(depth: nat, line: string, data: string)
    requires AsStored(depth, line, data)
    ensures |data| == |line|
  {
  }

  lemma GrayIsFaithful(c: Config, prep: Preparation, raw: string, data: string, i: nat)
    requires Usual(c, prep) && Synthesizes(c) && AsStored(c.params.depth, PreparedLine(c, prep, raw), data)
    requires i < SamplesIn(c.params.depth, |raw|) / 3
    ensures GrayFaithful(c, prep, raw, data, i)
  {
    hide Gamma, GrayLine, Gray, Corrected, RawSample, StoredSample, Luma;
    var depth, w, line := c.params.depth, WidthOf(c.params.depth), PreparedLine(c, prep, raw);
    var s := Gamma(prep.gamma, raw);
    CutPixel(|raw|);
    GammaSample(c, prep, raw, 3 * i);
    GammaSample(c, prep, raw, 3 * i + 1);
    GammaSample(c, prep, raw, 3 * i + 2);
    GrayPixelAt(w, s, i);
    assert Gray(w, s) <= line;
    LeadingSample(w, Gray(w, s), line, i);
    StoredIsSample(depth, line, data, i);
    SampleRange(w, s, 3 * i);
    SampleRange(w, s, 3 * i + 1);
    SampleRange(w, s, 3 * i + 2);
    LumaIsNearest(SampleAt(w, s, 3 * i), SampleAt(w, s, 3 * i + 1), SampleAt(w, s, 3 * i + 2), MaxSample(w));
  }

  lemma LeadingSample(w: Width, a: string, b: string, i: nat)
    requires a <= b && i < Samples(w, |a|)
    ensures i < Samples(w, |b|) && SampleAt(w, a, i) == SampleAt(w, b, i)
  {
  }

  // ---- pages ---------------------------------------------------------------

  /** Line r of a block of lines of n bytes each. */
  function LineAt(bytes: string, n: nat, r: nat): string
    requires (r + 1) * n <= |bytes|
  {
    Slice(bytes, r * n, n)
  }

  function Slice(bytes: string, p: nat, n: nat): string
    requires p + n <= |bytes|
  {
    bytes[p..p + n]
  }

  /** Line r of n raw bytes is line r of m bytes of image data. */
  predicate LineShown(c: Config, prep: Preparation, raw: string, n: nat, data: string, m: nat, r: nat) {
    && (r + 1) * n <= |raw| && (r + 1) * m <= |data|
    && LineFaithful(c, prep, LineAt(raw, n, r), LineAt(data, m, r))
  }

  /** The image data of a page against what the device delivered for its sheet, line by line. */
  predicate PageFaithful(c: Config, prep: Preparation, sheet: Sheet, data: string) {
    var n := c.params.bytesPerLine;
    var m := if !c.colorScan && c.synthesizeGray then n / 3 else n;
    && |data| == c.params.lines * m
    && forall r :: 0 <= r < c.params.lines ==> LineShown(c, prep, Delivered(sheet.frame), n, data, m, r)
  }

  lemma {:induction false} WholeLineAt(n: nat, bytes: string, r: nat)
    requires n >= 1 && r < |WholeLines(n, bytes)|
    ensures (r + 1) * n <= |bytes| && WholeLines(n, bytes)[r] == LineAt(bytes, n, r)
    decreases r
  {
    if r > 0 {
      WholeLineAt(n, bytes[n..], r - 1);
      Distribute(r + 1, 1, n);
      Distribute(r, 1, n);
    }
  }

  lemma {:induction false} ConcatLineAt(lines: seq<string>, m: nat, r: nat)
    requires Uniform(lines, m) && r < |lines|
    ensures (r + 1) * m <= |Concat(lines)| && LineAt(Concat(lines), m, r) == lines[r]
    decreases r
  {
    hide Concat;
    assert Concat(lines) == lines[0] + Concat(lines[1..]) by { ConcatFirst(lines); }
    if r > 0 {
      ConcatLineAt(lines[1..], m, r - 1);
      Distribute(r + 1, 1, m);
      Distribute(r, 1, m);
    }
  }

  lemma ConcatFirst(lines: seq<string>)
    requires lines != []
    ensures Concat(lines) == lines[0] + Concat(lines[1..])
  {
  }

  /** The stream of a good sheet's page is faithful to what the device delivered. */
  lemma SheetIsFaithful(c: Config, prep: Preparation, sheet: Sheet)
    requires Usual(c, prep) && c.params.bytesPerLine >= 1 && GoodSheet(c, sheet)
    ensures PageFaithful(c, prep, sheet, Concat(EncodedLines(c, prep, SheetLines(c, sheet))))
  {
    hide Concat, PreparedLine, EncodedLine, LineFaithful, Usual, Delivered, Ending, WholeLines, LineAt;
    var n, raw := c.params.bytesPerLine, Delivered(sheet.frame);
    var m := if !c.colorScan && c.synthesizeGray then n / 3 else n;
    var raws := SheetLines(c, sheet);
    var lines := EncodedLines(c, prep, raws);
    forall r | 0 <= r < |lines|
      ensures |lines[r]| == m && (r + 1) * n <= |raw| && LineFaithful(c, prep, LineAt(raw, n, r), lines[r])
    {
      WholeLineAt(n, raw, r);
      EncodedIsStored(c.params.depth, PreparedLine(c, prep, raws[r]));
      LineIsFaithful(c, prep, raws[r], lines[r]);
      FaithfulLength(c, prep, raws[r], lines[r]);
      LineAtLength(raw, n, r);
    }
    ConcatLength(lines, m);
    var data := Concat(lines);
    assert |lines| == c.params.lines;
    forall r | 0 <= r < c.params.lines
      ensures LineShown(c, prep, raw, n, data, m, r)
    {
      ConcatLineAt(lines, m, r);
      assert LineFaithful(c, prep, LineAt(raw, n, r), lines[r]);
    }
  }

  lemma LineAtLength(bytes: string, n: nat, r: nat)
    requires (r + 1) * n <= |bytes|
    ensures |LineAt(bytes, n, r)| == n
  {
  }

  lemma FaithfulLength(c: Config, prep: Preparation, raw: string, data: string)
    requires LineFaithful(c, prep, raw, data)
    ensures |data| == if !c.colorScan && c.synthesizeGray then |raw| / 3 else |raw|
  {
  }
}
