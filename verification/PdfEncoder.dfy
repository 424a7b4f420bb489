/** The PDF encoder (imageformats/pdfencoder.cpp), writing through a chunked response stream. */
module PdfEncoding {
  import opened Text
  import opened FdBuffer
  import opened Chunked
  import opened ImageEncoding
  import opened PdfFormat
  import opened PdfProgress

  // ---- 16-bit samples ------------------------------------------------------

  /** Every pair of bytes exchanged: host order (little endian) to big endian. */
  function SwapPairs(line: string): (r: string)
    ensures |r| == |line|
  {
    if |line| < 2 then line else [line[1], line[0]] + SwapPairs(line[2..])
  }

  lemma {:induction false} SwapPairsInvolutive(line: string)
    ensures SwapPairs(SwapPairs(line)) == line
  {
    if |line| >= 2 {
      SwapPairsInvolutive(line[2..]);
      var s := SwapPairs(line);
      assert s[2..] == SwapPairs(line[2..]);
      assert line == [line[0], line[1]] + line[2..];
    }
  }

  /** The value of a 16-bit sample at position i, read big endian, is the host's value. */
  lemma {:induction false} SwapPairsSample(line: string, i: nat)
    requires 2 * i + 1 < |line|
    ensures SwapPairs(line)[2 * i] == line[2 * i + 1] && SwapPairs(line)[2 * i + 1] == line[2 * i]
  {
    if i > 0 {
      SwapPairsSample(line[2..], i - 1);
    }
  }

  function EncodedLine(bits: nat, line: string): (r: string)
    ensures |r| == |line|
  {
    if bits == 16 then SwapPairs(line) else line
  }

  /**
   * How a line is stored in an image stream (section 8.9.3 of ISO 32000-1): of
   * a 16-bit sample, which the host holds least significant byte first, the most
   * significant byte comes first; at any other depth the bytes are the same.
   */
  predicate AsStored(bits: nat, line: string, data: string) {
    && |data| == |line|
    && (bits == 16 ==>
         forall i :: 0 <= i < |line| / 2 ==> data[2 * i] == line[2 * i + 1] && data[2 * i + 1] == line[2 * i])
    && (bits != 16 ==> data == line)
  }

  lemma EncodedIsStored(bits: nat, line: string)
    ensures AsStored(bits, line, EncodedLine(bits, line))
  {
    hide SwapPairs;
    forall i | 0 <= i < |line| / 2 && bits == 16
      ensures SwapPairs(line)[2 * i] == line[2 * i + 1] && SwapPairs(line)[2 * i + 1] == line[2 * i]
    {
      SwapPairsSample(line, i);
    }
  }

  lemma SwapStep(line: string, i: nat)
    requires i + 2 <= |line|
    ensures SwapPairs(line[i..]) == [line[i + 1], line[i]] + SwapPairs(line[i + 2..])
  {
    assert line[i..][2..] == line[i + 2..];
  }

  lemma SamplesAreWhole(s: Settings)
    ensures s.bits == 16 ==> BytesPerLine(s) % 2 == 0
  {
    if s.bits == 16 {
      var n := Components(s.colors) * s.width;
      assert n * 16 / 8 == 2 * n;
    }
  }

  /** htons over every sample of a line. */
  method ToBigEndian(line: string) returns (r: string)
    requires |line| % 2 == 0
    ensures r == SwapPairs(line)
  {
    hide SwapPairs;
    var lineBuffer := new char[|line|];
    var i := 0;
    while i < |line|
      invariant i <= |line| && i % 2 == 0
      invariant lineBuffer[..i] + SwapPairs(line[i..]) == SwapPairs(line)
    {
      lineBuffer[i], lineBuffer[i + 1] := line[i + 1], line[i];
      SwapStep(line, i);
      assert lineBuffer[..i + 2] == lineBuffer[..i] + [line[i + 1], line[i]];
      i := i + 2;
    }
    r := lineBuffer[..];
    assert r == lineBuffer[..i] + SwapPairs(line[i..]);
  }

  // ---- texts as the encoder emits them -------------------------------------

  function ColorSpaceName(components: nat): string {
    match components
    case 1 => "DeviceGray"
    case 3 => "DeviceRGB"
    case 4 => "DeviceCMYK"
    case _ => "unknown"
  }

  /** Formatted numbers whose digits this model leaves open: the rotation, and width and height in points. */
  datatype Formats = Formats(rotate: string, width: string, height: string)

  function LayoutOf(s: Settings, f: Formats): Layout {
    Layout(s.width, if s.height >= 0 then s.height else 0, s.bits, BytesPerLine(s),
           f.rotate, f.width + " " + f.height + " ]", ColorSpaceName(Components(s.colors)),
           f.width + " 0 0 " + f.height + " 0 0 cm\n/strip0 Do\n")
  }

  /** The text after an object's number, for a template that starts with it. */
  function Body(ps: seq<Piece>): string {
    if ps == [] then "" else Render(ps[1..])
  }

  class PdfEncoder {
    const base: ImageEncoder
    const os: ChunkStream
    const layout: Layout
    const info: string
    const fileId: string
    var begin: nat
    var obj: nat              // as in the source, not set before the document begins
    var defs: seq<ObjDef>
    var startxref: nat
    ghost var prefix: string  // what the stream carried before the document
    ghost var lines: seq<string>

    /** The file so far consists of these objects, each defined where it is recorded. */
    ghost predicate Holds(objs: seq<Obj>)
      reads this`begin, this`prefix, this`defs, os
    {
      begin == |prefix| && os.Payload() == prefix + (HEADER + Texts(objs)) && defs == Defs(objs)
    }

    ghost function Pages(): Progress
      reads this
    {
      Collect(base.settings.height, lines)
    }

    ghost predicate Valid()
      reads this, base, os, os.sink, os.sink.outbuf
    {
      && base.Valid() && os.Valid()
      && base.written == |lines|
      && layout.bytesPerLine == BytesPerLine(base.settings)
      && layout.bits == base.settings.bits
      && (lines == [] ==> begin == 0 && defs == [])
      && (lines != [] ==>
           Holds(OpenObjects(layout, Pages())) && obj == 3 * |Pages().pages| + (if Pages().open == [] then 1 else 3))
    }

    constructor (settings: Settings, formats: Formats, info: string, fileId: string, os: ChunkStream)
      requires os.Valid()
      ensures Valid() && lines == [] && this.os == os && fresh(base)
      ensures base.settings == settings && layout == LayoutOf(settings, formats)
      ensures this.info == info && this.fileId == fileId
    {
      base := new ImageEncoder(settings);
      this.os, layout, this.info, this.fileId := os, LayoutOf(settings, formats), info, fileId;
      begin, defs, startxref, prefix, lines := 0, [], 0, "", [];
    }

    /** insert_objdef and what is inserted after it: defines an object at the current position. */
    method DefineObject(id: nat, body: string, ghost objs: seq<Obj>)
      requires os.Valid() && os.good && begin <= |os.Payload()|
      modifies this`defs, os`buffer
      ensures os.Valid() && |os.Payload()| >= |old(os.Payload())|
      ensures old(Holds(objs)) ==> Holds(objs + [Obj(id, Dec(id) + OBJ + body)])
    {
      hide Texts, Defs, Numeral, EncodeChunks, Concat;
      var head := Dec(id) + OBJ;
      var pos := os.Tell();
      os.Write(head);
      defs := defs + [ObjDef(id, pos - begin)];
      os.Write(body);
      Defined(objs, id, head + body, prefix, head, body);
    }

    /** Inserts text that continues the last object. */
    method Continue(s: string, ghost objs: seq<Obj>, ghost id: nat, ghost text: string)
      requires os.Valid() && os.good
      modifies os`buffer
      ensures os.Valid() && |os.Payload()| >= |old(os.Payload())|
      ensures os.Payload() == old(os.Payload()) + s
      ensures old(Holds(objs + [Obj(id, text)])) ==> Holds(objs + [Obj(id, text + s)])
    {
      hide Texts, Defs;
      os.Write(s);
      ObjectExtended(objs, id, text, s);
      assert prefix + (HEADER + Texts(objs + [Obj(id, text)])) + s ==
             prefix + (HEADER + (Texts(objs + [Obj(id, text)]) + s));
    }

    /** False if no resolution is set, where the source throws. */
    method OnDocumentBegin() returns (ok: bool)
      requires os.Valid() && os.good
      modifies this`begin, this`obj, this`defs, this`prefix, os`buffer, base`fired
      ensures os.Valid()
      ensures ok == (base.settings.dpi != 0)
      ensures ok ==> Holds([]) && obj == 1 && prefix == old(os.Payload())
      ensures !ok ==> begin == old(begin) && defs == [] && os.Payload() == old(os.Payload())
      ensures base.fired == old(base.fired) + if ok then [DocumentBegin] else []
    {
      defs := [];
      if base.settings.dpi == 0 {
        return false;
      }
      prefix := os.Payload();
      var pos := os.Tell();
      begin := pos;
      os.Write(HEADER);
      obj := 1;
      assert HEADER + Texts([]) == HEADER;
      base.Fired(DocumentBegin);
      ok := true;
    }

    method OnImageBegin(ghost pages: seq<string>)
      requires os.Valid() && os.good
      requires Holds(PageObjects(layout, pages)) && obj == 3 * |pages| + 1
      modifies this`obj, this`defs, os`buffer, base`fired
      ensures os.Valid() && Holds(PageObjects(layout, pages) + OpenPage(layout, 3 * |pages| + 2, []))
      ensures obj == 3 * |pages| + 3
      ensures base.fired == old(base.fired) + [ImageBegin]
    {
      hide Texts, Defs, PageObjects, PagePieces, ImagePieces, Body, Render, Numeral, EncodeChunks, Concat;
      ghost var objs := PageObjects(layout, pages);
      assert begin <= |os.Payload()|;
      obj := obj + 1;
      ghost var page := PageObj(layout, obj);
      DefineObject(obj, Body(PagePieces(layout, obj)), objs);
      assert begin <= |os.Payload()|;
      obj := obj + 1;
      DefineObject(obj, Body(ImagePieces(layout, obj)), objs + [page]);
      OpenedPage(layout, obj - 1);
      assert objs + [page] + [OpenPage(layout, obj - 1, [])[1]] == objs + OpenPage(layout, obj - 1, []);
      base.Fired(ImageBegin);
    }

    method OnWriteLine(line: string, ghost pages: seq<string>, ghost open: seq<string>)
      requires os.Valid() && os.good && (layout.bits == 16 ==> |line| % 2 == 0)
      requires Holds(PageObjects(layout, pages) + OpenPage(layout, 3 * |pages| + 2, open))
      modifies os`buffer, base`fired
      ensures os.Valid()
      ensures Holds(PageObjects(layout, pages) +
                    OpenPage(layout, 3 * |pages| + 2, open + [EncodedLine(layout.bits, line)]))
      ensures old(os.Payload()) <= os.Payload()
      ensures AsStored(layout.bits, line, os.Payload()[|old(os.Payload())|..])
      ensures base.fired == old(base.fired) + [Callback.WriteLine]
    {
      hide Texts, Defs, PageObjects, PageObj, ImagePieces, Render, SwapPairs, Concat;
      var data := line;
      if layout.bits == 16 {
        data := ToBigEndian(line);
      }
      ghost var k := 3 * |pages| + 2;
      ghost var objs := PageObjects(layout, pages) + [PageObj(layout, k)];
      ghost var head := Render(ImagePieces(layout, k + 1));
      assert PageObjects(layout, pages) + OpenPage(layout, k, open) == objs + [Obj(k + 1, head + Concat(open))];
      Continue(data, objs, k + 1, head + Concat(open));
      ConcatSnoc(open, data);
      assert head + Concat(open) + data == head + Concat(open + [data]);
      assert PageObjects(layout, pages) + OpenPage(layout, k, open + [data]) ==
             objs + [Obj(k + 1, head + Concat(open + [data]))];
      EncodedIsStored(layout.bits, line);
      base.Fired(Callback.WriteLine);
    }

    method OnImageEnd(ghost pages: seq<string>, ghost open: seq<string>)
      requires os.Valid() && os.good && obj == 3 * |pages| + 3
      requires Holds(PageObjects(layout, pages) + OpenPage(layout, 3 * |pages| + 2, open))
      modifies this`obj, this`defs, os`buffer, base`fired
      ensures os.Valid() && obj == 3 * (|pages| + 1) + 1
      ensures Holds(PageObjects(layout, pages + [Concat(open)]))
      ensures base.fired == old(base.fired) + [ImageEnd]
    {
      hide Texts, Defs, PageObjects, OpenPage, PageObj, ImageObj, ContentsObj, ImagePieces, ContentsPieces;
      hide Render, Body, Holds, Concat, Numeral, EncodeChunks;
      ghost var k, data := 3 * |pages| + 2, Concat(open);
      ghost var objs := PageObjects(layout, pages) + [PageObj(layout, k)];
      PageClosed(layout, pages, open);
      Continue(IMAGE_END, objs, k + 1, Render(ImagePieces(layout, k + 1)) + data);
      obj := obj + 1;
      ContentsText(layout, obj);
      assert begin <= |os.Payload()| by { HoldsWithin(objs + [ImageObj(layout, k + 1, data)]); }
      DefineObject(obj, Body(ContentsPieces(layout, obj)) + (layout.drawing + CONTENTS_END),
                   objs + [ImageObj(layout, k + 1, data)]);
      base.Fired(ImageEnd);
    }

    lemma HoldsWithin(objs: seq<Obj>)
      requires Holds(objs)
      ensures begin <= |os.Payload()|
    {
      hide Texts, Defs;
    }

    /** The hooks due before a line: afterwards a page is open. */
    method BeforeLine() returns (ok: bool)
      requires Valid() && os.good
      modifies this`begin, this`obj, this`defs, this`prefix, os`buffer, base`fired
      ensures os.Valid() && (ok ==> base.Due())
      ensures ok <==> lines != [] || base.settings.dpi != 0
      ensures ok ==> obj == 3 * |Pages().pages| + 3 && Holds(BegunObjects(layout, Pages()))
      ensures ok ==> prefix == if lines == [] then old(os.Payload()) else old(prefix)
      ensures !ok ==> Valid() && os.Payload() == old(os.Payload())
    {
      hide Texts, Defs, PageObjects, OpenPage, OpenObjects, BegunObjects, Holds, Collect, Concat, Streams;
      hide ImagesAfter, LinesAfter, Trace, HooksBefore, EncodeChunks, BytesPerLine;
      ghost var pr, trace := Pages(), base.fired;
      CollectSplits(base.settings.height, lines);
      OpenCases(layout, pr);
      var documentBegin, imageBegin := base.BeforeLine();
      HooksLogged(trace, documentBegin, imageBegin);
      if documentBegin {
        ok := OnDocumentBegin();
        if !ok { return; }
        NoPages(layout, base.settings.height);
      }
      if imageBegin {
        OnImageBegin(Streams(pr.pages));
      }
      ok := true;
    }

    /** One scan line, with the hooks ImageEncoder::writeLine fires around it. */
    method WriteLine(line: string) returns (ok: bool)
      requires Valid() && os.good && |line| == layout.bytesPerLine
      modifies this, base, os`buffer
      ensures Valid()
      ensures ok <==> old(lines) != [] || base.settings.dpi != 0
      ensures ok ==> lines == old(lines) + [EncodedLine(layout.bits, line)]
      ensures ok ==> prefix == if old(lines) == [] then old(os.Payload()) else old(prefix)
      ensures !ok ==> lines == [] && os.Payload() == old(os.Payload())
    {
      hide Texts, Defs, PageObjects, OpenObjects, OpenPage, SwapPairs, Holds;
      hide Collect, Concat, Feed, Streams, ImagesAfter, LinesAfter, Trace, EncodeChunks, BytesPerLine;
      ghost var pr, h := Pages(), base.settings.height;
      ghost var streams, data := Streams(pr.pages), EncodedLine(layout.bits, line);
      SamplesAreWhole(base.settings);
      ok := BeforeLine();
      if !ok { return; }
      OnWriteLine(line, streams, pr.open);
      var imageEnd := base.AfterLine();
      LineCollected(layout, h, lines, data);
      lines := lines + [data];
      if imageEnd {
        OnImageEnd(streams, pr.open + [data]);
      }
    }

    /** The page tree: Count is the encoder's image count, Kids every third object number up to the last one. */
    method WritePageTree(ghost objs: seq<Obj>)
      requires os.Valid() && os.good && begin <= |os.Payload()|
      modifies this`defs, os`buffer
      ensures os.Valid() && begin <= |os.Payload()|
      ensures old(Holds(objs)) ==> Holds(objs + [PagesObj(base.currentImage, obj / 3)])
    {
      hide Texts, Defs, PagesHead, KidPieces, Render, Holds, Body, Numeral, EncodeChunks;
      var n := base.currentImage;
      ghost var head := Render(PagesHead(n));
      PageTreeTexts(n);
      DefineObject(1, Body(PagesHead(n)), objs);
      var i := 2;
      ghost var m := 0;
      assert head + Render(KidPieces(0)) == head by { KidsSnoc(0); }
      while i < obj
        invariant os.Valid() && begin <= |os.Payload()| && i == 3 * m + 2
        invariant i <= obj + 2
        invariant old(Holds(objs)) ==> Holds(objs + [Obj(1, head + Render(KidPieces(m)))])
      {
        Continue(Dec(i) + REF_LINE, objs, 1, head + Render(KidPieces(m)));
        KidsSnoc(m);
        assert head + Render(KidPieces(m)) + (Dec(i) + REF_LINE) == head + Render(KidPieces(m + 1));
        i, m := i + 3, m + 1;
      }
      Continue(PAGES_END, objs, 1, head + Render(KidPieces(m)));
      assert m == obj / 3;
      assert head + Render(KidPieces(m)) + PAGES_END == PagesObj(n, m).text;
    }

    method WriteCatalogAndInfo(ghost objs: seq<Obj>)
      requires os.Valid() && os.good && begin <= |os.Payload()|
      modifies this`obj, this`defs, os`buffer
      ensures os.Valid() && begin <= |os.Payload()| && obj == old(obj) + 2
      ensures old(Holds(objs)) ==> Holds(objs + [CatalogObj(old(obj) + 1), InfoObj(old(obj) + 2, info)])
    {
      hide Texts, Defs, CatalogPieces, Holds, Render, Body, Numeral, EncodeChunks;
      ghost var catalog, information := CatalogObj(obj + 1), InfoObj(obj + 2, info);
      obj := obj + 1;
      CatalogText(obj);
      DefineObject(obj, Body(CatalogPieces(obj)), objs);
      obj := obj + 1;
      DefineObject(obj, INFO_BEGIN + info + INFO_END, objs + [catalog]);
      assert objs + [catalog] + [information] == objs + [catalog, information];
    }

    /** One line per definition, in the order of their numbers. */
    method WriteTable()
      requires os.Valid() && os.good
      modifies this`defs, os`buffer
      ensures os.Valid() && defs == SortById(old(defs))
      ensures os.Payload() == old(os.Payload()) + Table(OffsetsOf(defs))
    {
      hide Pad10, SortById, EncodeChunks, Concat, Table;
      defs := SortById(defs);
      ghost var offsets := OffsetsOf(defs);
      TableSnoc(offsets, 0);
      for i := 0 to |defs|
        invariant os.Valid() && defs == SortById(old(defs))
        invariant os.Payload() == old(os.Payload()) + Table(offsets[..i])
      {
        var entry := Pad10(defs[i].offset) + IN_USE;
        TableSnoc(offsets, i);
        Associative(old(os.Payload()), Table(offsets[..i]), entry);
        os.Write(entry);
      }
      assert offsets[..|defs|] == offsets;
    }

    /** Cross-reference table, trailer and startxref. */
    method WriteXref(ghost objs: seq<Obj>)
      requires os.Valid() && os.good && begin <= |os.Payload()| && obj >= 1 && Numbered(objs)
      modifies this`defs, this`startxref, os`buffer
      ensures os.Valid()
      ensures old(Holds(Complete(objs, base.currentImage, info))) && obj == |objs| + 3 ==>
        os.Payload() == prefix + File(Complete(objs, base.currentImage, info), fileId)
    {
      hide Texts, Defs, SortById, Table, Complete, XrefText, TrailerText, EncodeChunks, Concat, File;
      ghost var all := Complete(objs, base.currentImage, info);
      ghost var before, size, table := os.Payload(), |defs| + 1, OffsetsOf(SortById(defs));
      var pos := os.Tell();
      startxref := pos - begin;
      os.Write(XrefText(|defs| + 1));
      WriteTable();
      os.Write(TrailerText(|defs| + 1, obj, fileId, startxref));
      assert os.Payload() ==
        before + XrefText(size) + Table(table) + TrailerText(|defs| + 1, obj, fileId, startxref);
      if old(Holds(all)) && obj == |objs| + 3 {
        SortedOffsets(objs, base.currentImage, info);
        FileText(all, fileId, prefix);
        assert before == prefix + (HEADER + Texts(all)) && table == Offsets(all) && size == |defs| + 1 == |all| + 1;
      }
    }

    /**
     * Ends the file. It is then exactly the document over the lines written,
     * whether or not they fill the last page; on a failed stream every insertion
     * is without effect.
     */
    method EndDocument()
      requires Valid()
      modifies this, os`buffer
      ensures os.Valid() && lines == old(lines)
      ensures old(os.good && lines != []) ==>
        os.Payload() == old(prefix) + Ended(layout, info, fileId, Pages())
      ensures !os.good ==> os.Payload() == old(os.Payload())
    {
      hide Texts, Defs, OpenObjects, CatalogPieces, Holds, Render, Body, File, EncodeChunks, Collect, Numbered;
      hide PagesObj, Trace, BytesPerLine, ImagesAfter, LinesAfter;
      if !os.good { return; }
      ghost var objs, n := OpenObjects(layout, Pages()), base.currentImage;
      assert begin <= |os.Payload()| by { StartsWithin(); }
      CollectSplits(base.settings.height, lines);
      OpenNumbered(layout, Pages());
      ghost var kids := obj / 3;
      WritePageTree(objs);
      WriteCatalogAndInfo(objs + [PagesObj(n, kids)]);
      if lines != [] {
        var m := |objs|;
        assert objs + [PagesObj(n, kids)] + [CatalogObj(m + 2), InfoObj(m + 3, info)] == Complete(objs, n, info);
      }
      WriteXref(objs);
    }

    lemma StartsWithin()
      requires Valid()
      ensures begin <= |os.Payload()|
    {
    }
  }

  function OffsetsOf(defs: seq<ObjDef>): (r: seq<nat>)
    ensures |r| == |defs| && forall i :: 0 <= i < |defs| ==> r[i] == defs[i].offset
  {
    seq(|defs|, i requires 0 <= i < |defs| => defs[i].offset)
  }

  lemma TableSnoc(offsets: seq<nat>, i: nat)
    ensures Table(offsets[..0]) == ""
    ensures i < |offsets| ==> Table(offsets[..i + 1]) == Table(offsets[..i]) + (Pad10(offsets[i]) + IN_USE)
  {
    hide Pad10;
    if i < |offsets| {
      assert offsets[..i + 1][..i] == offsets[..i];
    }
  }

  lemma SortedOffsets(objs: seq<Obj>, count: nat, info: string)
    requires Numbered(objs)
    ensures OffsetsOf(SortById(Defs(Complete(objs, count, info)))) == Offsets(Complete(objs, count, info))
  {
    hide SortById, Defs, Complete, Offset;
    SortedDefs(objs, count, info);
  }

  lemma TailText(offsets: seq<nat>, fileId: string, startxref: nat)
    requires |offsets| >= 1
    ensures
      var size := |offsets| + 1;
      Render(XrefHead(size)) + FREE_ENTRY + Table(offsets) +
      (Render(TrailerPieces(size)) + (FileIds(fileId) + (STARTXREF + (Dec(startxref) + EOF)))) ==
      Tail(offsets, fileId, startxref)
  {
    hide Render, Table, FileIds, Numeral;
    var size := |offsets| + 1;
    AppendedOneByOne(Render(XrefHead(size)), FREE_ENTRY, Table(offsets),
            Render(TrailerPieces(size)) + (FileIds(fileId) + (STARTXREF + (Dec(startxref) + EOF))));
  }

  function XrefText(size: nat): string {
    Render(XrefHead(size)) + FREE_ENTRY
  }

  /** The trailer, for the number of the last object, the info dictionary. */
  function TrailerText(size: nat, obj: nat, fileId: string, startxref: nat): string
    requires obj >= 1
  {
    Render([Lit(TRAILER_SIZE), Num(size, TRAILER_ROOT), Num(obj - 1, TRAILER_INFO), Num(obj, TRAILER_ID)]) +
    (FileIds(fileId) + (STARTXREF + (Dec(startxref) + EOF)))
  }

  /** What follows the objects, as it is inserted, completes the file. */
  lemma FileText(objs: seq<Obj>, fileId: string, prefix: string)
    requires |objs| >= 3
    ensures
      var body, size := HEADER + Texts(objs), |objs| + 1;
      prefix + body + XrefText(size) + Table(Offsets(objs)) + TrailerText(size, size - 1, fileId, |body|) ==
      prefix + File(objs, fileId)
  {
    hide Texts, Render, Table, FileIds, Numeral, Tail;
    var body, offsets, size := HEADER + Texts(objs), Offsets(objs), |objs| + 1;
    TailText(offsets, fileId, |body|);
    Associative(prefix, body, Tail(offsets, fileId, |body|));
    Reassociated(prefix + body, XrefText(size), Table(offsets), TrailerText(size, size - 1, fileId, |body|));
  }

  lemma Reassociated(x: string, a: string, b: string, c: string)
    ensures x + a + b + c == x + (a + b + c)
  {
  }

  lemma AppendedOneByOne(a: string, b: string, c: string, d: string)
    ensures a + b + c + d == a + (b + (c + d))
  {
  }

  lemma CatalogText(k: nat)
    ensures Dec(k) + OBJ + Body(CatalogPieces(k)) == CatalogObj(k).text
  {
    hide Numeral, Render, Body;
    NumberFirst(CatalogPieces(k), k);
  }

  lemma KidsSnoc(m: nat)
    ensures Render(KidPieces(0)) == ""
    ensures Render(KidPieces(m + 1)) == Render(KidPieces(m)) + (Dec(3 * m + 2) + REF_LINE)
  {
    hide Numeral;
    assert KidPieces(m + 1) == KidPieces(m) + [Num(3 * m + 2, REF_LINE)];
    RenderSnoc(KidPieces(m), Num(3 * m + 2, REF_LINE));
  }

  lemma PageTreeTexts(n: nat)
    ensures Dec(1) + OBJ + Body(PagesHead(n)) == Render(PagesHead(n))
  {
    hide Numeral, Render, Body;
    NumberFirst(PagesHead(n), 1);
  }

  /** The objects of the file after one more line, in either case. */
  lemma LineCollected(l: Layout, h: int, lines: seq<string>, data: string)
    ensures
      var pr, pr' := Collect(h, lines), Collect(h, lines + [data]);
      var streams, open := Streams(pr.pages), pr.open + [data];
      if LinesAfter(h, |lines| + 1) == 0 then
        && pr'.open == [] && |pr'.pages| == |pr.pages| + 1
        && OpenObjects(l, pr') == PageObjects(l, streams + [Concat(open)])
      else
        && pr'.open != [] && |pr'.pages| == |pr.pages|
        && OpenObjects(l, pr') == PageObjects(l, streams) + OpenPage(l, 3 * |pr.pages| + 2, open)
  {
    hide PageObjects, OpenPage, Concat, Collect;
    var pr := Collect(h, lines);
    CollectSnoc(h, lines, data);
    CollectSplits(h, lines);
    NextLine(h, |lines|);
    StreamsSnoc(pr.pages, pr.open + [data]);
  }

  lemma CollectSnoc(h: int, lines: seq<string>, data: string)
    ensures Collect(h, lines + [data]) == Feed(h, Collect(h, lines), data)
  {
    assert (lines + [data])[..|lines|] == lines;
  }

  lemma StreamsSnoc(pages: seq<seq<string>>, page: seq<string>)
    ensures Streams(pages + [page]) == Streams(pages) + [Concat(page)]
  {
  }

  lemma OpenCases(l: Layout, pr: Progress)
    ensures pr.open == [] ==> OpenObjects(l, pr) == PageObjects(l, Streams(pr.pages))
    ensures pr.open == [] ==>
      BegunObjects(l, pr) == PageObjects(l, Streams(pr.pages)) + OpenPage(l, 3 * |Streams(pr.pages)| + 2, [])
    ensures pr.open != [] ==> BegunObjects(l, pr) == OpenObjects(l, pr)
  {
    hide PageObjects, OpenPage, Streams;
  }

  /** Hooks logged one by one are logged together. */
  lemma HooksLogged(trace: seq<Callback>, documentBegin: bool, imageBegin: bool)
    ensures
      var first := if documentBegin then trace + [DocumentBegin] else trace;
      (if imageBegin then first + [ImageBegin] else first) ==
      trace + ((if documentBegin then [DocumentBegin] else []) + (if imageBegin then [ImageBegin] else []))
  {
  }

  lemma NoPages(l: Layout, h: int)
    ensures PageObjects(l, Streams([])) == [] && Collect(h, []) == Progress([], [])
  {
  }

  /** A template that starts with an object's number is this number and the rest. */
  lemma NumberFirst(ps: seq<Piece>, k: nat)
    requires ps != [] && ps[0] == Num(k, OBJ)
    ensures Render(ps) == Dec(k) + OBJ + Body(ps)
  {
    hide Numeral;
  }

  lemma OpenedPage(l: Layout, k: nat)
    ensures PageObj(l, k).text == Dec(k) + OBJ + Body(PagePieces(l, k))
    ensures OpenPage(l, k, []) == [PageObj(l, k), Obj(k + 1, Dec(k + 1) + OBJ + Body(ImagePieces(l, k + 1)))]
  {
    hide Numeral, Render, Body, LengthPieces;
    NumberFirst(PagePieces(l, k), k);
    NumberFirst(ImagePieces(l, k + 1), k + 1);
    assert Concat([]) == "";
    assert Render(ImagePieces(l, k + 1)) + "" == Render(ImagePieces(l, k + 1));
  }

  /** The objects of an open page, and what they become when it is complete. */
  lemma PageClosed(l: Layout, pages: seq<string>, open: seq<string>)
    ensures
      var k, data := 3 * |pages| + 2, Concat(open);
      var objs := PageObjects(l, pages) + [PageObj(l, k)];
      var image := Render(ImagePieces(l, k + 1)) + data;
      && PageObjects(l, pages) + OpenPage(l, k, open) == objs + [Obj(k + 1, image)]
      && Obj(k + 1, image + IMAGE_END) == ImageObj(l, k + 1, data)
      && ContentsObj(l, k + 2).id == k + 2
      && PageObjects(l, pages + [data]) == objs + [ImageObj(l, k + 1, data)] + [ContentsObj(l, k + 2)]
  {
    hide PageObjects, PageObj, Render, Concat, Numeral, ImagePieces;
    PageCompleted(l, pages, Concat(open));
    Associative(Render(ImagePieces(l, 3 * |pages| + 3)), Concat(open), IMAGE_END);
  }

  lemma ContentsText(l: Layout, k: nat)
    ensures Dec(k) + OBJ + (Body(ContentsPieces(l, k)) + (l.drawing + CONTENTS_END)) == ContentsObj(l, k).text
  {
    hide Numeral, Render, Body;
    NumberFirst(ContentsPieces(l, k), k);
    Associative(Dec(k) + OBJ, Body(ContentsPieces(l, k)), l.drawing + CONTENTS_END);
  }

  /** An object appended in two insertions is recorded where it begins. */
  lemma Defined(objs: seq<Obj>, id: nat, text: string, prefix: string, a: string, b: string)
    requires text == a + b
    ensures
      var more := objs + [Obj(id, text)];
      && prefix + (HEADER + Texts(objs)) + a + b == prefix + (HEADER + Texts(more))
      && Defs(more) == Defs(objs) + [ObjDef(id, |HEADER + Texts(objs)|)]
  {
    hide Texts, Defs;
    ObjectAdded(objs, Obj(id, text));
    Written(prefix, HEADER + Texts(objs), a, b);
    Associative(HEADER, Texts(objs), text);
  }

  lemma Written(prefix: string, body: string, a: string, b: string)
    ensures prefix + body + a + b == prefix + (body + (a + b))
  {
  }
}
