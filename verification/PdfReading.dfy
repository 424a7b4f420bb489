/** What a reader makes of every file the encoder can end: whole, too long, or with a page open. */
module PdfReading {
  import opened Text
  import opened PdfFormat
  import opened PdfReader
  import opened PdfProofs
  import opened PdfProgress

  // ---- files that are too long ---------------------------------------------

  /** No letter of the trailer's first word occurs in the table. */
  lemma {:induction false} TableHasNoT(offsets: seq<nat>)
    ensures 't' !in Table(offsets)
  {
    hide Pad10;
    if offsets != [] {
      var last := offsets[|offsets| - 1];
      TableHasNoT(offsets[..|offsets| - 1]);
      Pad10Reads(last);
      assert 't' !in Pad10(last) by {
        assert !IsDigit('t', 10);
      }
      assert 't' !in IN_USE;
    }
  }

  lemma {:induction false} TableLength(offsets: seq<nat>, i: nat)
    requires i < |offsets|
    ensures |Table(offsets)| >= 20 * |offsets|
    ensures offsets[i] >= LIMIT ==> |Table(offsets)| > 20 * |offsets|
    decreases |offsets|
  {
    hide Pad10;
    var last := |offsets| - 1;
    Pad10Reads(offsets[last]);
    if last > 0 {
      TableLength(offsets[..last], if i < last then i else 0);
    }
  }

  lemma NoTrailer(doc: string, p: nat)
    requires p < |doc| && doc[p] != 't'
    ensures Scan(doc, p, TRAILER_PATTERN).None?
  {
    assert TRAILER_PATTERN[0] == PLit(TRAILER_SIZE) && TRAILER_SIZE[0] == 't';
    assert !At(doc, p, TRAILER_SIZE);
  }

  /** Past 10^10 bytes the table outgrows its fixed width, and the trailer is not found behind it. */
  lemma TooLong(objs: seq<Obj>, fileId: string)
    requires |objs| >= 3 && LastOffset(objs) >= LIMIT
    ensures ReadDocument(File(objs, fileId)).None?
  {
    hide Table, Texts, Render, File, ReadXref, Offset, At, Scan, ScanObject, ReadPages, TrailerPieces, Indexed;
    var doc, x := ReadFile(objs, fileId);
    var offsets, p := Offsets(objs), x.table + 20 * x.size;
    assert offsets[|objs| - 1] == Offset(objs, FileIndex(|objs|, |objs|));
    TableLength(offsets, |objs| - 1);
    TableHasNoT(offsets);
    CharAt(doc, x.table + 20, Table(offsets), 20 * |objs|);
    NoTrailer(doc, p);
  }

  lemma {:induction false} StreamsFit(l: Layout, pages: seq<string>)
    ensures |Texts(PageObjects(l, pages))| >= |Concat(pages)|
  {
    hide PageObj, ContentsObj, Render, PageObjects, Concat, Texts;
    if pages == [] {
      assert Concat(pages) == "" by { ConcatNothing(); }
    } else {
      var front, data := pages[..|pages| - 1], pages[|pages| - 1];
      var k := 3 * |front| + 2;
      var objs := PageObjects(l, front);
      StreamsFit(l, front);
      assert pages == front + [data];
      PageCompleted(l, front, data);
      ConcatSnoc(front, data);
      TextsSnoc(objs, PageObj(l, k));
      TextsSnoc(objs + [PageObj(l, k)], ImageObj(l, k + 1, data));
      TextsSnoc(objs + [PageObj(l, k)] + [ImageObj(l, k + 1, data)], ContentsObj(l, k + 2));
      assert objs + [PageObj(l, k)] + [ImageObj(l, k + 1, data)] + [ContentsObj(l, k + 2)] == PageObjects(l, pages);
    }
  }

  lemma ConcatNothing()
    ensures Concat([]) == ""
  {
  }

  /** Page streams of 10^10 bytes or more in all make a document that cannot be read. */
  lemma TooManyBytes(l: Layout, info: string, fileId: string, pages: seq<string>)
    requires |Concat(pages)| >= LIMIT
    ensures ReadDocument(Document(l, info, fileId, pages)).None?
  {
    hide Texts, PageObjects, File, ReadDocument, Concat;
    var objs := PageObjects(l, pages);
    var all := Objects(l, info, pages);
    StreamsFit(l, pages);
    assert all[..|objs|] == objs;
    OffsetMonotone(all, |objs|, |all| - 1);
    TooLong(all, fileId);
  }

  /** For one: ten pages of 10^9 bytes, each well below what Length can say. */
  lemma TenHugePages(l: Layout, info: string, fileId: string)
    requires l.height == 31250 && l.bytesPerLine == 32000
    ensures LengthFits(l)
    ensures
      var page := seq(l.height * l.bytesPerLine, i => ' ');
      ReadDocument(Document(l, info, fileId, seq(10, i => page))).None?
  {
    hide Document, ReadDocument;
    var page := seq(l.height * l.bytesPerLine, i => ' ');
    var pages := seq(10, i => page);
    ConcatLength(pages, 1000000000);
    TooManyBytes(l, info, fileId, pages);
  }

  // ---- pages that are too large --------------------------------------------

  /** What a reader shows is what it finds page by page. */
  lemma {:induction false} KidsEach(doc: string, x: Xref, kids: seq<Field>, i: nat)
    requires ReadKids(doc, x, kids).Some? && i < |kids|
    ensures |ReadKids(doc, x, kids).value| == |kids|
    ensures ReadPage(doc, x, kids[i].n) == Some(ReadKids(doc, x, kids).value[i])
    decreases |kids|
  {
    hide ReadPage;
    var last := |kids| - 1;
    if last > 0 {
      KidsEach(doc, x, kids[..last], if i < last then i else 0);
    }
  }

  /** The image a reader finds for the first page. */
  lemma FirstPage(doc: string, x: Xref, l: Layout, info: string, pages: seq<string>)
    requires OneLiners(l) && pages != [] && Indexed(doc, x, Objects(l, info, pages))
    ensures ReadPage(doc, x, 2).Some? ==> ReadImage(doc, x, 3) == Some(ReadPage(doc, x, 2).value.image)
    ensures |pages[0]| == l.height * l.bytesPerLine && !LengthFits(l) ==>
      ReadImage(doc, x, 3) != Some(ImageOf(l, pages[0]))
    ensures DeclaredLength(l) < 0 ==> ReadImage(doc, x, 3).None?
  {
    hide Render, At, Locate, Indexed, Objects, Offset, ImageObj, PageObj, ReadImage, ReadContents, ScanObject;
    hide LengthFits, DeclaredLength;
    var objs := Objects(l, info, pages);
    PagePartFound(doc, x, l, info, pages, 0);
    PagePartFound(doc, x, l, info, pages, 1);
    PageScan(doc, x, 2, Offset(objs, 0), l);
    if |pages[0]| == l.height * l.bytesPerLine && !LengthFits(l) {
      ImageMisread(doc, x, 3, Offset(objs, 1), l, pages[0]);
    }
    if DeclaredLength(l) < 0 {
      NegativeLength(doc, x, 3, Offset(objs, 1), l, pages[0]);
    }
  }

  /** Pages of 2^31 bytes or more are not shown as they are; a negative Length shows nothing. */
  lemma TooLarge(doc: string, x: Xref, l: Layout, info: string, pages: seq<string>)
    requires OneLiners(l) && pages != [] && Indexed(doc, x, Objects(l, info, pages))
    requires |pages[0]| == l.height * l.bytesPerLine && !LengthFits(l)
    ensures ReadPages(doc, x, 1) != Some(Shown(l, pages))
    ensures DeclaredLength(l) < 0 ==> ReadPages(doc, x, 1).None?
  {
    hide ReadKids, ReadPage, ReadImage, ReadPages, Indexed, Objects, LengthFits, DeclaredLength;
    var kids := Values(KidPieces(|pages|));
    KidsFollowed(doc, x, l, info, pages);
    assert kids[0] == ValueOf(KidPieces(|pages|)[0]) && kids[0].n == 2;
    FirstPage(doc, x, l, info, pages);
    if ReadKids(doc, x, kids).Some? {
      KidsEach(doc, x, kids, 0);
      assert Shown(l, pages)[0] == PictureOf(l, pages[0]);
    }
  }

  /** For one: an A4 page at 4800 dpi in 24-bit colour, 56126 lines of 119058 bytes. */
  lemma HighResolution(l: Layout, info: string, fileId: string, page: string)
    requires OneLiners(l) && l.height == 56126 && l.bytesPerLine == 119058
    requires |page| == 56126 * 119058
    ensures ReadDocument(Document(l, info, fileId, [page])).None?
  {
    hide ReadDocument, ReadPages, File, Indexed, PageObjects, LastOffset, OneLiners;
    assert DeclaredLength(l) == -1907685284;
    var objs := PageObjects(l, [page]);
    if LastOffset(Complete(objs, 1, info)) >= LIMIT {
      TooLong(Complete(objs, 1, info), fileId);
    } else {
      var doc, x := TreeReached(objs, 1, info, fileId);
      TooLarge(doc, x, l, info, [page]);
    }
  }

  // ---- files with a page open ----------------------------------------------

  /** More kids than a reader expects: behind the expected ones the list goes on. */
  lemma {:induction false} KidsGoOn(count: nat, kids: nat) returns (rest: string)
    requires count < kids
    ensures Render(KidPieces(kids)) == Render(KidPieces(count)) + (Dec(3 * count + 2) + rest)
    decreases kids
  {
    hide Render, Numeral;
    var text := Dec(3 * kids - 1) + REF_LINE;
    assert KidPieces(kids) == KidPieces(kids - 1) + [Num(3 * kids - 1, REF_LINE)];
    RenderSnoc(KidPieces(kids - 1), Num(3 * kids - 1, REF_LINE));
    if count == kids - 1 {
      rest := REF_LINE;
    } else {
      var more := KidsGoOn(count, kids - 1);
      rest := more + text;
      assert Render(KidPieces(kids)) == Render(KidPieces(count)) + (Dec(3 * count + 2) + more) + text;
    }
  }

  /** The reader wants exactly Count kids. */
  lemma TooManyKids(doc: string, x: Xref, objs: seq<Obj>, count: nat, info: string)
    requires Indexed(doc, x, Complete(objs, count, info)) && count < (|objs| + 1) / 3
    ensures ReadPages(doc, x, 1).None?
  {
    hide ReadKids, Render, Locate, Scan, Numeral, Offset, Indexed, KidPieces, ScanObject;
    TreeScan(doc, x, objs, count, info);
    var p, kids := ScanObject(doc, x, 1, PAGES_PATTERN).value.1, (|objs| + 1) / 3;
    var rest := KidsGoOn(count, kids);
    var expected, next := Render(KidPieces(count)), Dec(3 * count + 2);
    Stops();
    assert Patterns(KidPieces(count)) == KidPatterns(count);
    AtSplit(doc, p, Render(KidPieces(kids)), PAGES_END);
    AtSplit(doc, p, expected, next + rest);
    AtSplit(doc, p + |expected|, next, rest);
    ScanRender(doc, p, KidPieces(count));
    CharAt(doc, p + |expected|, next, 0);
    assert IsDigit(next[0], 10) && PAGES_END[0] == '\n';
  }

  /** The page tree lists exactly Count kids if and only if no page is left open; otherwise one more. */
  lemma KidsMatchCount(l: Layout, info: string, pr: Progress) returns (kids: nat)
    ensures PagesObj(|pr.pages|, kids) in Final(l, info, pr)
    ensures kids == |pr.pages| + if pr.open == [] then 0 else 1
  {
    hide OpenObjects, PagesObj;
    OpenNumbered(l, pr);
    var objs := OpenObjects(l, pr);
    kids := (|objs| + 1) / 3;
    assert Final(l, info, pr)[|objs|] == PagesObj(|pr.pages|, kids);
  }

  // ---- every file ----------------------------------------------------------

  /** No page is left open, offsets have ten digits, and the pages' lengths do not overflow. */
  predicate Readable(l: Layout, info: string, pr: Progress) {
    pr.open == [] && LastOffset(Final(l, info, pr)) < LIMIT && (pr.pages == [] || LengthFits(l))
  }

  /**
   * Writing then reading. A reader gets every page's image and content streams
   * back, in order, if and only if no page is left open, the last object starts
   * below 10^10, and there is no page or a page has less than 2^31 bytes. With
   * a page open, past 10^10, or with a negative Length it gets nothing.
   */
  lemma ReadBack(l: Layout, info: string, fileId: string, pr: Progress)
    requires OneLiners(l)
    requires forall i :: 0 <= i < |pr.pages| ==> |Streams(pr.pages)[i]| == l.height * l.bytesPerLine
    ensures ReadDocument(Ended(l, info, fileId, pr)) == Some(Shown(l, Streams(pr.pages))) <==> Readable(l, info, pr)
    ensures pr.open != [] || LastOffset(Final(l, info, pr)) >= LIMIT || (pr.pages != [] && DeclaredLength(l) < 0) ==>
      ReadDocument(Ended(l, info, fileId, pr)).None?
  {
    hide OpenObjects, File, ReadDocument, ReadPages, Indexed, LastOffset, OneLiners, Objects, Streams;
    hide LengthFits, DeclaredLength;
    OpenNumbered(l, pr);
    var streams := Streams(pr.pages);
    if LastOffset(Final(l, info, pr)) >= LIMIT {
      TooLong(Final(l, info, pr), fileId);
    } else {
      var doc, x := TreeReached(OpenObjects(l, pr), |pr.pages|, info, fileId);
      if pr.open != [] {
        TooManyKids(doc, x, OpenObjects(l, pr), |pr.pages|, info);
      } else {
        EndedWhole(l, info, fileId, pr.pages);
        if pr.pages == [] || LengthFits(l) {
          PagesRead(doc, x, l, info, streams);
          FittingLength(l);
        } else {
          TooLarge(doc, x, l, info, streams);
        }
      }
    }
  }

  lemma FittingLength(l: Layout)
    ensures LengthFits(l) ==> DeclaredLength(l) >= 0
  {
    Int32Keeps(l.height * l.bytesPerLine);
  }
}
