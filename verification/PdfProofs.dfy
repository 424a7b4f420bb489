/** The reader of PdfReader recovers everything from every document of PdfFormat. */
module PdfProofs {
  import opened Text
  import opened PdfFormat
  import opened PdfReader

  // ---- templates -----------------------------------------------------------

  lemma Stops()
    ensures EndsNumber(OBJ) && EndsNumber(REF_LINE) && EndsNumber("\n")
    ensures EndsNumber(PAGE_ROTATE) && EndsNumber(PAGE_END)
    ensures EndsNumber(IMAGE_HEIGHT) && EndsNumber(IMAGE_COLORS) && EndsNumber(IMAGE_LENGTH) && EndsNumber(STREAM)
    ensures EndsNumber(PAGES_KIDS) && EndsNumber(CATALOG_END)
    ensures EndsNumber(TRAILER_ROOT) && EndsNumber(TRAILER_INFO) && EndsNumber(TRAILER_ID)
  {
  }

  // ---- cross-reference table -----------------------------------------------

  const LIMIT: nat := 10000000000

  lemma PowerOfTen()
    ensures Power(10, 10) == LIMIT
  {
    assert Power(10, 4) == 10000;
    assert Power(10, 7) == 10000000;
  }

  lemma Pad10Reads(n: nat)
    ensures |Pad10(n)| >= 10 && AllDigits(Pad10(n), 10) && Eval(Pad10(n), 10) == n
    ensures |Pad10(n)| == 10 <==> n < LIMIT
  {
    hide Numeral, Eval, Power;
    PowerOfTen();
    NumeralWidth(n, 10, 10);
    EvalNumeral(n, 10);
    if |Dec(n)| < 10 {
      EvalLeadingZeros(10 - |Dec(n)|, Dec(n), 10);
    }
  }

  lemma {:induction false} TableEntry(offsets: seq<nat>, i: nat)
    requires forall j :: 0 <= j < |offsets| ==> offsets[j] < LIMIT
    requires i <= |offsets|
    ensures |Table(offsets)| == 20 * |offsets|
    ensures i < |offsets| ==> At(Table(offsets), 20 * i, Pad10(offsets[i]) + IN_USE)
  {
    hide Pad10, At;
    if offsets != [] {
      var last := |offsets| - 1;
      var front, entry := Table(offsets[..last]), Pad10(offsets[last]) + IN_USE;
      Pad10Reads(offsets[last]);
      assert |entry| == 20;
      TableEntry(offsets[..last], if i < last then i else last);
      if i < last {
        AtExtend(front, entry, 20 * i, Pad10(offsets[i]) + IN_USE);
      } else if i == last {
        AtMiddle(front, entry, "");
        assert front + entry + "" == Table(offsets);
      }
    }
  }

  lemma LocateEntry(doc: string, x: Xref, k: nat, offset: nat)
    requires 0 < k < x.size && offset < LIMIT
    requires At(doc, x.table + 20 * k, Pad10(offset) + IN_USE)
    ensures Locate(doc, x, k) == Some(offset)
  {
    Pad10Reads(offset);
    AtSplit(doc, x.table + 20 * k, Pad10(offset), IN_USE);
  }

  /** Whatever the bytes, a reader of ten-digit entries finds no offset of 10^10 or more. */
  lemma LocateBound(doc: string, x: Xref, k: nat)
    ensures Locate(doc, x, k).Some? ==> Locate(doc, x, k).value < LIMIT
  {
    var p := x.table + 20 * k;
    if Locate(doc, x, k).Some? {
      EvalBound(doc[p..p + 10], 10);
      PowerOfTen();
    }
  }

  lemma {:induction false} TrailingDigitsAt(s: string, digits: string)
    requires AllDigits(digits, 10)
    requires s != "" ==> !IsDigit(s[|s| - 1], 10)
    ensures TrailingDigits(s + digits) == |digits|
    decreases |digits|
  {
    if digits != "" {
      var d := digits[..|digits| - 1];
      TrailingDigitsAt(s, d);
      assert (s + digits)[..|s + digits| - 1] == s + d;
    } else {
      assert s + digits == s;
    }
  }

  lemma LineFeedIsNoDigit()
    ensures !IsDigit('\n', 10)
  {
  }

  lemma SuffixOff(s: string, suffix: string)
    ensures Without(s + suffix, suffix) == Some(s)
  {
    AtMiddle(s, suffix, "");
    assert s + suffix + "" == s + suffix;
  }

  lemma StartxrefRead(front: string, n: nat)
    ensures ReadStartxref(front + (STARTXREF + (Dec(n) + EOF))) == Some(n)
  {
    hide Numeral, Eval, TrailingDigits, IsDigit, Without;
    var doc := front + (STARTXREF + (Dec(n) + EOF));
    var s := front + STARTXREF + Dec(n);
    assert doc == s + EOF;
    SuffixOff(s, EOF);
    SuffixOff(front, STARTXREF);
    assert !IsDigit((front + STARTXREF)[|front + STARTXREF| - 1], 10) by { LineFeedIsNoDigit(); }
    TrailingDigitsAt(front + STARTXREF, Dec(n));
    assert s[..|s| - |Dec(n)|] == front + STARTXREF && s[|s| - |Dec(n)|..] == Dec(n);
    EvalNumeral(n, 10);
  }

  // ---- files: every entry leads to its object ------------------------------

  lemma {:induction false} ObjectAt(objs: seq<Obj>, j: nat, tail: string)
    requires j < |objs|
    ensures At(HEADER + Texts(objs) + tail, Offset(objs, j), objs[j].text)
    decreases |objs|
  {
    var last := |objs| - 1;
    var front, text := objs[..last], objs[last].text;
    assert HEADER + Texts(objs) + tail == HEADER + Texts(front) + text + tail;
    if j == last {
      AtMiddle(HEADER + Texts(front), text, tail);
    } else {
      ObjectAt(front, j, text + tail);
      assert front[..j] == objs[..j];
      assert HEADER + Texts(front) + (text + tail) == HEADER + Texts(front) + text + tail;
    }
  }

  lemma {:induction false} OffsetMonotone(objs: seq<Obj>, i: nat, j: nat)
    requires i <= j <= |objs|
    ensures Offset(objs, i) <= Offset(objs, j)
    decreases j
  {
    if i < j {
      assert objs[..j][..j - 1] == objs[..j - 1];
      OffsetMonotone(objs, i, j - 1);
    }
  }

  lemma EndSplitsOff(body: string, a: string, f: string, b: string, c: string, ids: string, end: string)
    ensures body + (a + (f + (b + (c + (ids + end))))) == (body + a + f + b + c + ids) + end
  {
  }

  lemma TailParts(body: string, a: string, f: string, b: string, c: string, rest: string)
    ensures
      var doc := body + (a + (f + (b + (c + rest))));
      && At(doc, |body|, a) && At(doc, |body| + |a|, f) && At(doc, |body| + |a| + |f|, b)
      && At(doc, |body| + |a| + |f| + |b|, c)
  {
    var doc := body + (a + (f + (b + (c + rest))));
    AtMiddle(body, a + (f + (b + (c + rest))), "");
    assert doc == body + (a + (f + (b + (c + rest)))) + "";
    AtSplit(doc, |body|, a, f + (b + (c + rest)));
    AtSplit(doc, |body| + |a|, f, b + (c + rest));
    AtSplit(doc, |body| + |a| + |f|, b, c + rest);
    AtSplit(doc, |body| + |a| + |f| + |b|, c, rest);
  }

  /** Where the reader finds the table, for any tail. */
  lemma XrefRead(body: string, offsets: seq<nat>, fileId: string) returns (x: Xref)
    requires |offsets| >= 1
    ensures ReadXref(body + Tail(offsets, fileId, |body|)) == Some(x) && x.size == |offsets| + 1
    ensures At(body + Tail(offsets, fileId, |body|), x.table + 20, Table(offsets))
    ensures At(body + Tail(offsets, fileId, |body|), x.table + 20 + |Table(offsets)|, Render(TrailerPieces(x.size)))
  {
    hide Render, Table, FileIds, Scan, Numeral, Tail, ReadStartxref, At;
    var size := |offsets| + 1;
    var head, trailer := XrefHead(size), Render(TrailerPieces(size));
    var end := STARTXREF + (Dec(|body|) + EOF);
    var front := body + Render(head) + FREE_ENTRY + Table(offsets) + trailer + FileIds(fileId);
    var doc := body + Tail(offsets, fileId, |body|);
    TailIs(offsets, fileId, |body|);
    EndSplitsOff(body, Render(head), FREE_ENTRY, Table(offsets), trailer, FileIds(fileId), end);
    TailParts(body, Render(head), FREE_ENTRY, Table(offsets), trailer, FileIds(fileId) + end);
    assert doc == front + end;
    StartxrefRead(front, |body|);
    XrefScan(doc, |body|, size);
    assert |FREE_ENTRY| == 20;
    x := Xref(|body| + |Render(head)|, size);
  }

  lemma TailIs(offsets: seq<nat>, fileId: string, startxref: nat)
    requires |offsets| >= 1
    ensures
      var size := |offsets| + 1;
      Tail(offsets, fileId, startxref) ==
      Render(XrefHead(size)) + (FREE_ENTRY + (Table(offsets) + (Render(TrailerPieces(size)) +
        (FileIds(fileId) + (STARTXREF + (Dec(startxref) + EOF))))))
  {
    hide Render, Table, FileIds, Numeral;
  }

  lemma XrefScan(doc: string, p: nat, size: nat)
    requires At(doc, p, Render(XrefHead(size)))
    ensures Scan(doc, p, [PLit("xref\n0 "), PNum("\n")]) ==
            Some(([Field(0, ""), Field(size, "")], p + |Render(XrefHead(size))|))
  {
    hide Render, Scan, At, Numeral;
    var head := XrefHead(size);
    assert EndsNumber("\n");
    assert Patterns(head) == [PLit("xref\n0 "), PNum("\n")];
    ScanRender(doc, p, head);
    assert Values(head) == [Field(0, ""), Field(size, "")];
  }

  /** The reader's view of a file: every object is where its entry says. */
  predicate Indexed(doc: string, x: Xref, objs: seq<Obj>)
    requires |objs| >= 3
  {
    && x.size == |objs| + 1
    && forall k :: 1 <= k <= |objs| ==> Found(doc, x, k, objs, FileIndex(|objs|, k))
  }

  predicate Found(doc: string, x: Xref, k: nat, objs: seq<Obj>, j: nat)
    requires j < |objs|
  {
    Locate(doc, x, k) == Some(Offset(objs, j)) && At(doc, Offset(objs, j), objs[j].text)
  }

  lemma EntryFound(doc: string, objs: seq<Obj>, x: Xref, k: nat)
    requires |objs| >= 3 && 1 <= k <= |objs| && x.size == |objs| + 1
    requires forall i :: 0 <= i < |objs| ==> Offsets(objs)[i] < LIMIT
    requires At(doc, x.table + 20, Table(Offsets(objs)))
    ensures Locate(doc, x, k) == Some(Offset(objs, FileIndex(|objs|, k)))
  {
    hide Table, Pad10, At, Locate, Offset;
    var offsets := Offsets(objs);
    var entry := Pad10(offsets[k - 1]) + IN_USE;
    TableEntry(offsets, k - 1);
    AtNested(doc, x.table + 20, Table(offsets), 20 * (k - 1), entry);
    assert x.table + 20 + 20 * (k - 1) == x.table + 20 * k;
    LocateEntry(doc, x, k, offsets[k - 1]);
  }

  lemma OffsetsBelow(objs: seq<Obj>)
    requires |objs| >= 3 && LastOffset(objs) < LIMIT
    ensures forall i :: 0 <= i < |objs| ==> Offsets(objs)[i] < LIMIT
  {
    forall i | 0 <= i < |objs|
      ensures Offsets(objs)[i] < LIMIT
    {
      OffsetMonotone(objs, FileIndex(|objs|, i + 1), |objs| - 1);
      assert Offsets(objs)[(i + 1) - 1] == Offset(objs, FileIndex(|objs|, i + 1));
    }
  }

  lemma LaidOut(doc: string, objs: seq<Obj>, x: Xref)
    requires |objs| >= 3 && x.size == |objs| + 1 && LastOffset(objs) < LIMIT
    requires At(doc, x.table + 20, Table(Offsets(objs)))
    requires forall j :: 0 <= j < |objs| ==> At(doc, Offset(objs, j), objs[j].text)
    ensures Indexed(doc, x, objs) && |Table(Offsets(objs))| == 20 * |objs|
  {
    hide Table, Locate, At, Offset;
    OffsetsBelow(objs);
    TableEntry(Offsets(objs), 0);
    forall k | 1 <= k <= |objs|
      ensures Found(doc, x, k, objs, FileIndex(|objs|, k))
    {
      EntryFound(doc, objs, x, k);
    }
  }

  lemma Begins(texts: string, tail: string)
    ensures At(HEADER + texts + tail, 0, "%PDF-1.4\n")
  {
    var mark := "%PDF-1.4\n";
    assert HEADER[..|mark|] == mark;
    assert (HEADER + texts + tail)[..|mark|] == HEADER[..|mark|];
  }

  lemma ReadFile(objs: seq<Obj>, fileId: string) returns (doc: string, x: Xref)
    requires |objs| >= 3
    ensures doc == File(objs, fileId) && ReadXref(doc) == Some(x) && x.size == |objs| + 1
    ensures At(doc, 0, "%PDF-1.4\n")
    ensures LastOffset(objs) < LIMIT ==>
      Indexed(doc, x, objs) && At(doc, x.table + 20 * x.size, Render(TrailerPieces(x.size)))
    ensures At(doc, x.table + 20, Table(Offsets(objs)))
  {
    hide Render, Table, Tail, Texts, Indexed, At, ReadXref, Offset, Offsets, TrailerPieces;
    var body, offsets := HEADER + Texts(objs), Offsets(objs);
    doc := body + Tail(offsets, fileId, |body|);
    x := XrefRead(body, offsets, fileId);
    assert At(doc, 0, "%PDF-1.4\n") by { Begins(Texts(objs), Tail(offsets, fileId, |body|)); }
    if LastOffset(objs) < LIMIT {
      forall j | 0 <= j < |objs|
        ensures At(doc, Offset(objs, j), objs[j].text)
      {
        ObjectAt(objs, j, Tail(offsets, fileId, |body|));
      }
      LaidOut(doc, objs, x);
    }
  }

  /**
   * Every entry of the cross-reference table leads to its object if and only
   * if the last object starts below 10^10, the most a ten-digit entry can say.
   */
  lemma EveryObjectFound(objs: seq<Obj>, fileId: string)
    requires |objs| >= 3
    ensures ReadXref(File(objs, fileId)).Some?
    ensures Indexed(File(objs, fileId), ReadXref(File(objs, fileId)).value, objs) <==> LastOffset(objs) < LIMIT
  {
    hide ReadXref, Tail, Texts, At, Locate;
    var doc, x := ReadFile(objs, fileId);
    if LastOffset(objs) >= LIMIT {
      LocateBound(doc, x, |objs|);
      assert !Found(doc, x, |objs|, objs, FileIndex(|objs|, |objs|));
    }
  }

  /** Object numbers are 1 to 3n+3, each defined once. */
  lemma DefinedOnce(l: Layout, info: string, pages: seq<string>, k: nat, j: nat)
    requires 1 <= k <= 3 * |pages| + 3 && j < 3 * |pages| + 3
    ensures Objects(l, info, pages)[j].id == k <==> j == FileIndex(3 * |pages| + 3, k)
  {
    hide PageObj, ImageObj, ContentsObj, Render, Numeral;
    if j < 3 * |pages| {
      assert Objects(l, info, pages)[j] == PagePart(l, pages, j);
    }
  }

  // ---- objects: what the reader reads --------------------------------------

  lemma ScanTemplate(doc: string, x: Xref, k: nat, offset: nat, ps: seq<Piece>, more: string)
    requires Locate(doc, x, k) == Some(offset) && At(doc, offset, Render(ps) + more)
    requires Unambiguous(ps) && ps != [] && ValueOf(ps[0]).n == k
    ensures ScanObject(doc, x, k, Patterns(ps)) == Some((Values(ps), offset + |Render(ps)|))
    ensures At(doc, offset + |Render(ps)|, more)
  {
    AtSplit(doc, offset, Render(ps), more);
    ScanRender(doc, offset, ps);
  }

  lemma StreamRead(doc: string, p: nat, data: string, marker: string)
    requires At(doc, p, data + marker)
    ensures ReadStream(doc, p, |data|, marker) == Some(data)
  {
    AtSplit(doc, p, data, marker);
  }

  /** Int arithmetic keeps exactly the values below 2^31. */
  lemma Int32Keeps(x: nat)
    ensures Int32(x) == x <==> x < 0x8000_0000
  {
  }

  /** What a reader should find for a page's data. */
  function ImageOf(l: Layout, data: string): Image {
    Image(l.width, l.height, l.bits, l.colorSpace, data)
  }

  /** With a Length that is printed as a number, the reader takes as many bytes as it says. */
  lemma ImageScan(doc: string, x: Xref, k: nat, offset: nat, l: Layout, data: string)
    requires Locate(doc, x, k) == Some(offset) && At(doc, offset, ImageObj(l, k, data).text)
    requires OneLiners(l) && DeclaredLength(l) >= 0
    ensures
      var p := offset + |Render(ImagePieces(l, k))|;
      && At(doc, p, data + IMAGE_END)
      && ReadImage(doc, x, k) ==
         var read := ReadStream(doc, p, DeclaredLength(l), IMAGE_END);
         if read.None? then None else Some(ImageOf(l, read.value))
  {
    hide Render, At, Locate, Scan, Numeral, DeclaredLength, ReadStream;
    var ps := ImagePieces(l, k);
    Stops();
    assert Patterns(ps) == IMAGE_PATTERN;
    ScanTemplate(doc, x, k, offset, ps, data + IMAGE_END);
    assert forall i :: 0 <= i < 8 ==> Values(ps)[i] == ValueOf(ps[i]);
  }

  lemma ImageRead(doc: string, x: Xref, k: nat, offset: nat, l: Layout, data: string)
    requires Locate(doc, x, k) == Some(offset) && At(doc, offset, ImageObj(l, k, data).text)
    requires OneLiners(l) && |data| == l.height * l.bytesPerLine && LengthFits(l)
    ensures ReadImage(doc, x, k) == Some(ImageOf(l, data))
  {
    hide Render, At, Locate, ReadStream, ReadImage, ImageObj, Int32;
    Int32Keeps(|data|);
    ImageScan(doc, x, k, offset, l, data);
    StreamRead(doc, offset + |Render(ImagePieces(l, k))|, data, IMAGE_END);
  }

  /** A negative Length is not read at all. */
  lemma NegativeLength(doc: string, x: Xref, k: nat, offset: nat, l: Layout, data: string)
    requires Locate(doc, x, k) == Some(offset) && At(doc, offset, ImageObj(l, k, data).text)
    requires OneLiners(l) && DeclaredLength(l) < 0
    ensures ReadImage(doc, x, k).None?
  {
    hide Render, Locate, Scan, Numeral, DeclaredLength, ReadPiece;
    var head, length := ImageHead(l, k), LengthPieces(DeclaredLength(l));
    RenderAppend(head, length);
    var rest := Render(length);
    AtSplit(doc, offset, Render(head) + rest, data + IMAGE_END);
    AtSplit(doc, offset, Render(head), rest);
    var p := offset + |Render(head)|;
    assert doc[p] == rest[0] == '-' by { MinusFirst(-DeclaredLength(l)); }
    assert ReadPiece(doc, p, PNum(STREAM)).None? by { NoNumber(doc, p, STREAM); }
    Stops();
    assert Patterns(head) + [PNum(STREAM)] == IMAGE_PATTERN;
    ScanFails(doc, offset, head, PNum(STREAM));
  }

  lemma MinusFirst(n: nat)
    ensures Render([Lit("-"), Num(n, STREAM)]) != "" && Render([Lit("-"), Num(n, STREAM)])[0] == '-'
  {
  }

  lemma NoNumber(doc: string, p: nat, stop: string)
    requires p < |doc| && doc[p] == '-'
    ensures ReadPiece(doc, p, PNum(stop)).None?
  {
    assert !IsDigit('-', 10);
  }

  /** A Length that has overflowed does not lead to the image's data. */
  lemma ImageMisread(doc: string, x: Xref, k: nat, offset: nat, l: Layout, data: string)
    requires Locate(doc, x, k) == Some(offset) && At(doc, offset, ImageObj(l, k, data).text)
    requires OneLiners(l) && |data| == l.height * l.bytesPerLine && !LengthFits(l)
    ensures ReadImage(doc, x, k) != Some(ImageOf(l, data))
  {
    hide Render, At, Locate, ReadImage, ImageObj, Int32;
    Int32Keeps(|data|);
    if DeclaredLength(l) < 0 {
      NegativeLength(doc, x, k, offset, l, data);
    } else {
      ImageScan(doc, x, k, offset, l, data);
    }
  }

  lemma ContentsRead(doc: string, x: Xref, k: nat, offset: nat, l: Layout)
    requires Locate(doc, x, k) == Some(offset) && At(doc, offset, ContentsObj(l, k).text)
    ensures ReadContents(doc, x, k) == Some(l.drawing)
  {
    hide Render, At, Locate, Scan, Numeral;
    var ps := ContentsPieces(l, k);
    Stops();
    assert Patterns(ps) == CONTENTS_PATTERN;
    ScanTemplate(doc, x, k, offset, ps, l.drawing + CONTENTS_END);
    StreamRead(doc, offset + |Render(ps)|, l.drawing, CONTENTS_END);
    assert Values(ps)[2] == ValueOf(ps[2]);
  }

  lemma PageScan(doc: string, x: Xref, k: nat, offset: nat, l: Layout)
    requires Locate(doc, x, k) == Some(offset) && At(doc, offset, PageObj(l, k).text)
    requires OneLiners(l)
    ensures ScanObject(doc, x, k, PAGE_PATTERN).Some?
    ensures
      var fields := ScanObject(doc, x, k, PAGE_PATTERN).value.0;
      && fields[2].n == k + 2 && fields[7].n == k + 1
      && fields[3].text == l.rotate && fields[5].text == l.mediaBox
  {
    hide Render, At, Locate, Scan, Numeral;
    var ps := PagePieces(l, k);
    Stops();
    assert Patterns(ps) == PAGE_PATTERN;
    assert PageObj(l, k).text == Render(ps) + "";
    ScanTemplate(doc, x, k, offset, ps, "");
    assert forall i :: 0 <= i < 8 ==> Values(ps)[i] == ValueOf(ps[i]);
  }

  function PictureOf(l: Layout, data: string): Picture {
    Picture(ImageOf(l, data), l.drawing, l.rotate, l.mediaBox)
  }

  lemma PageReadAt(doc: string, x: Xref, k: nat, l: Layout, data: string, page: nat, image: nat, contents: nat)
    requires OneLiners(l) && |data| == l.height * l.bytesPerLine && LengthFits(l)
    requires Locate(doc, x, k) == Some(page) && At(doc, page, PageObj(l, k).text)
    requires Locate(doc, x, k + 1) == Some(image) && At(doc, image, ImageObj(l, k + 1, data).text)
    requires Locate(doc, x, k + 2) == Some(contents) && At(doc, contents, ContentsObj(l, k + 2).text)
    ensures ReadPage(doc, x, k) == Some(PictureOf(l, data))
  {
    PageScan(doc, x, k, page, l);
    ImageRead(doc, x, k + 1, image, l, data);
    ContentsRead(doc, x, k + 2, contents, l);
  }

  lemma PagePartFound(doc: string, x: Xref, l: Layout, info: string, pages: seq<string>, j: nat)
    requires Indexed(doc, x, Objects(l, info, pages)) && j < 3 * |pages|
    ensures Locate(doc, x, j + 2) == Some(Offset(Objects(l, info, pages), j))
    ensures At(doc, Offset(Objects(l, info, pages), j), PagePart(l, pages, j).text)
  {
    var objs, n := Objects(l, info, pages), |pages|;
    assert Found(doc, x, j + 2, objs, FileIndex(3 * n + 3, j + 2));
    assert objs[j] == PageObjects(l, pages)[j];
  }

  lemma PageRead(doc: string, x: Xref, l: Layout, info: string, pages: seq<string>, i: nat)
    requires OneLiners(l) && i < |pages| && |pages[i]| == l.height * l.bytesPerLine && LengthFits(l)
    requires Indexed(doc, x, Objects(l, info, pages))
    ensures ReadPage(doc, x, 3 * i + 2) == Some(PictureOf(l, pages[i]))
  {
    hide ReadPage, Render, At, Locate, Indexed, Objects, Offset;
    var objs, j := Objects(l, info, pages), 3 * i;
    PagePartFound(doc, x, l, info, pages, j);
    PagePartFound(doc, x, l, info, pages, j + 1);
    PagePartFound(doc, x, l, info, pages, j + 2);
    assert j % 3 == 0 && (j + 1) % 3 == 1 && (j + 2) % 3 == 2 && (j + 1) / 3 == i;
    PageReadAt(doc, x, j + 2, l, pages[i], Offset(objs, j), Offset(objs, j + 1), Offset(objs, j + 2));
  }

  /** What a viewer should show, page by page. */
  function Shown(l: Layout, pages: seq<string>): (r: seq<Picture>)
    ensures |r| == |pages| && forall i :: 0 <= i < |pages| ==> r[i] == PictureOf(l, pages[i])
  {
    seq(|pages|, i requires 0 <= i < |pages| => PictureOf(l, pages[i]))
  }

  lemma {:induction false} KidsRead(doc: string, x: Xref, l: Layout, info: string, pages: seq<string>, m: nat)
    requires OneLiners(l) && m <= |pages| && (m == 0 || LengthFits(l))
    requires forall i :: 0 <= i < |pages| ==> |pages[i]| == l.height * l.bytesPerLine
    requires Indexed(doc, x, Objects(l, info, pages))
    ensures ReadKids(doc, x, Values(KidPieces(m))) == Some(Shown(l, pages)[..m])
  {
    hide ReadPage, Indexed, Objects;
    var kids, shown := Values(KidPieces(m)), Shown(l, pages);
    if m > 0 {
      KidsRead(doc, x, l, info, pages, m - 1);
      assert kids[..m - 1] == Values(KidPieces(m - 1));
      assert kids[m - 1] == ValueOf(KidPieces(m)[m - 1]) && kids[m - 1].n == 3 * (m - 1) + 2;
      PageRead(doc, x, l, info, pages, m - 1);
      assert shown[..m] == shown[..m - 1] + [shown[m - 1]];
    }
  }

  /** The head of the page tree, with its Count, and where the kids begin. */
  lemma TreeScan(doc: string, x: Xref, objs: seq<Obj>, count: nat, info: string)
    requires Indexed(doc, x, Complete(objs, count, info))
    ensures
      var p := Offset(Complete(objs, count, info), |objs|) + |Render(PagesHead(count))|;
      && ScanObject(doc, x, 1, PAGES_PATTERN).Some?
      && ScanObject(doc, x, 1, PAGES_PATTERN).value.0[2].n == count
      && ScanObject(doc, x, 1, PAGES_PATTERN).value.1 == p
      && At(doc, p, Render(KidPieces((|objs| + 1) / 3)) + PAGES_END)
  {
    hide Render, At, Locate, Scan, Numeral, Offset, KidPieces;
    var all, head := Complete(objs, count, info), PagesHead(count);
    var kids := (|objs| + 1) / 3;
    assert Found(doc, x, 1, all, FileIndex(|all|, 1)) && all[|objs|] == PagesObj(count, kids);
    Stops();
    assert Patterns(head) == PAGES_PATTERN;
    ScanTemplate(doc, x, 1, Offset(all, |objs|), head, Render(KidPieces(kids)) + PAGES_END);
    assert Values(head)[2] == ValueOf(head[2]) && ValueOf(head[2]).n == count;
  }

  /** The kids a reader follows in a document of whole pages. */
  lemma KidsFollowed(doc: string, x: Xref, l: Layout, info: string, pages: seq<string>)
    requires OneLiners(l) && Indexed(doc, x, Objects(l, info, pages))
    ensures ReadPages(doc, x, 1) == ReadKids(doc, x, Values(KidPieces(|pages|)))
  {
    hide ReadKids, Render, At, Locate, Scan, Numeral, Offset, PageObjects, Indexed;
    var objs, n := PageObjects(l, pages), |pages|;
    TreeScan(doc, x, objs, n, info);
    var kids, p := KidPieces(n), ScanObject(doc, x, 1, PAGES_PATTERN).value.1;
    Stops();
    assert Patterns(kids) == KidPatterns(n);
    assert (|objs| + 1) / 3 == n;
    AtSplit(doc, p, Render(kids), PAGES_END);
    ScanRender(doc, p, kids);
  }

  lemma PagesRead(doc: string, x: Xref, l: Layout, info: string, pages: seq<string>)
    requires OneLiners(l) && (pages == [] || LengthFits(l))
    requires forall i :: 0 <= i < |pages| ==> |pages[i]| == l.height * l.bytesPerLine
    requires Indexed(doc, x, Objects(l, info, pages))
    ensures ReadPages(doc, x, 1) == Some(Shown(l, pages))
  {
    hide ReadKids, ReadPages, Objects, Indexed;
    KidsFollowed(doc, x, l, info, pages);
    KidsRead(doc, x, l, info, pages, |pages|);
    assert Shown(l, pages)[..|pages|] == Shown(l, pages);
  }

  lemma CatalogScan(doc: string, x: Xref, k: nat, offset: nat)
    requires Locate(doc, x, k) == Some(offset) && At(doc, offset, CatalogObj(k).text)
    ensures ScanObject(doc, x, k, CATALOG_PATTERN).Some?
    ensures ScanObject(doc, x, k, CATALOG_PATTERN).value.0[2].n == 1
  {
    var ps := CatalogPieces(k);
    Stops();
    assert Patterns(ps) == CATALOG_PATTERN;
    assert CatalogObj(k).text == Render(ps) + "";
    ScanTemplate(doc, x, k, offset, ps, "");
    assert Values(ps)[2] == ValueOf(ps[2]);
  }

  lemma TrailerScan(doc: string, p: nat, size: nat)
    requires size >= 2 && At(doc, p, Render(TrailerPieces(size)))
    ensures Scan(doc, p, TRAILER_PATTERN).Some?
    ensures
      var fields := Scan(doc, p, TRAILER_PATTERN).value.0;
      fields[2].n == size - 2 && fields[3].n == size - 1
  {
    var ps := TrailerPieces(size);
    Stops();
    assert Patterns(ps) == TRAILER_PATTERN;
    ScanRender(doc, p, ps);
    assert forall i :: 0 <= i < 4 ==> Values(ps)[i] == ValueOf(ps[i]);
  }

  lemma InfoScan(doc: string, x: Xref, k: nat, offset: nat, info: string)
    requires Locate(doc, x, k) == Some(offset) && At(doc, offset, InfoObj(k, info).text)
    ensures ScanObject(doc, x, k, INFO_PATTERN).Some?
    ensures At(doc, ScanObject(doc, x, k, INFO_PATTERN).value.1, info + INFO_END)
  {
    hide Numeral, At, Locate, Scan;
    var ps := [Num(k, OBJ), Lit(INFO_BEGIN)];
    Stops();
    assert Patterns(ps) == INFO_PATTERN;
    assert Render(ps[1..][1..]) == "" && Render(ps[1..]) == INFO_BEGIN + "";
    assert InfoObj(k, info).text == Render(ps) + (info + INFO_END);
    ScanTemplate(doc, x, k, offset, ps, info + INFO_END);
  }

  lemma FoundAt(doc: string, x: Xref, objs: seq<Obj>, k: nat, j: nat)
    requires |objs| >= 3 && Indexed(doc, x, objs) && 1 <= k <= |objs| && j == FileIndex(|objs|, k)
    ensures Locate(doc, x, k) == Some(Offset(objs, j)) && At(doc, Offset(objs, j), objs[j].text)
  {
    hide Locate, At, Offset;
    assert Found(doc, x, k, objs, FileIndex(|objs|, k));
  }

  /** The object the trailer names as Info holds the document information. */
  lemma InfoReached(objs: seq<Obj>, count: nat, info: string, fileId: string)
    requires LastOffset(Complete(objs, count, info)) < LIMIT
    ensures LocateInfo(File(Complete(objs, count, info), fileId)).Some?
    ensures
      var doc := File(Complete(objs, count, info), fileId);
      At(doc, LocateInfo(doc).value, info + INFO_END)
  {
    hide Scan, ScanObject, Render, At, Locate, File, Offset, LastOffset, ReadXref, Indexed, Table, Offsets;
    hide PagesObj, CatalogObj, InfoObj, TrailerPieces;
    var all := Complete(objs, count, info);
    var doc, x := ReadFile(all, fileId);
    TrailerScan(doc, x.table + 20 * x.size, x.size);
    var k := |objs| + 3;
    FoundAt(doc, x, all, k, k - 1);
    assert all[k - 1] == InfoObj(k, info);
    InfoScan(doc, x, k, Offset(all, k - 1), info);
  }

  /** The trailer's root leads to the page tree. */
  lemma TreeReached(objs: seq<Obj>, count: nat, info: string, fileId: string) returns (doc: string, x: Xref)
    requires LastOffset(Complete(objs, count, info)) < LIMIT
    ensures doc == File(Complete(objs, count, info), fileId) && Indexed(doc, x, Complete(objs, count, info))
    ensures ReadDocument(doc) == ReadPages(doc, x, 1)
  {
    hide Scan, ScanObject, ReadPages, Render, At, Locate, File, Offset, LastOffset, ReadXref, Indexed, Table, Offsets;
    hide PagesObj, CatalogObj, InfoObj, TrailerPieces;
    var all := Complete(objs, count, info);
    doc, x := ReadFile(all, fileId);
    TrailerScan(doc, x.table + 20 * x.size, x.size);
    var root := |objs| + 2;
    FoundAt(doc, x, all, root, root - 1);
    assert all[root - 1] == CatalogObj(root);
    CatalogScan(doc, x, root, Offset(all, root - 1));
  }
}
