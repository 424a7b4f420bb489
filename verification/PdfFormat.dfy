/**
 * The PDF file that imageformats/pdfencoder.cpp writes: a list of objects in
 * file order, the byte offset of each, and the cross-reference section built
 * from those offsets (sections 7.3.8.2, 7.3.10, 7.5.4 and 7.5.5 of ISO 32000-1).
 */
module PdfFormat {
  import opened Text

  /** What the encoder knows about every page; formatted numbers are plain text. */
  datatype Layout = Layout(
    width: nat, height: nat, bits: nat, bytesPerLine: nat,
    rotate: string, mediaBox: string, colorSpace: string, drawing: string)

  /** The formatted values stay on their line. */
  predicate OneLiners(l: Layout) {
    '\n' !in l.rotate && '\n' !in l.mediaBox && '\n' !in l.colorSpace
  }

  // ---- vocabulary ----------------------------------------------------------

  const HEADER: string := "%PDF-1.4\n%\U{C3}\U{A2}\U{C3}\U{A3}\U{C3}\U{8F}\U{C3}\U{93}\n"
  const OBJ: string := " 0 obj"
  const REF_LINE: string := " 0 R\n"
  const PAGE_CONTENTS: string := "<<\n/Type/Page\n/Contents "
  const PAGE_ROTATE: string := " 0 R\n/Rotate "
  const PAGE_MEDIABOX: string := "/MediaBox [ 0 0 "
  const PAGE_STRIP: string := "/Parent 1 0 R\n/Resources << /XObject << /strip0 "
  const PAGE_END: string := " 0 R >> >>\n>>\nendobj\n"
  const IMAGE_WIDTH: string := "\n<<\n/Type /XObject\n/Subtype /Image\n/Width "
  const IMAGE_HEIGHT: string := "\n/Height "
  const IMAGE_COLORS: string := "\n/ColorSpace /"
  const IMAGE_BITS: string := "/BitsPerComponent "
  const IMAGE_LENGTH: string := "\n/Length "
  const STREAM: string := "\n>>\nstream\n"
  const IMAGE_END: string := "\nendstream\nendobj\n"
  const CONTENTS_LENGTH: string := "\n<<\n/Length "
  const CONTENTS_END: string := "endstream\n\nendobj\n"
  const PAGES_COUNT: string := "\n<<\n/Type/Pages\n/Count "
  const PAGES_KIDS: string := "\n/Kids [\n"
  const PAGES_END: string := "\n]\n>>\nendobj\n"
  const CATALOG_PAGES: string := "<<\n/Type/Catalog\n/Pages "
  const CATALOG_END: string := " 0 R\n>>\nendobj\n"
  const INFO_BEGIN: string := "<<\n"
  const INFO_END: string := ">>\nendobj\n"
  const XREF: string := "xref\n0 "
  const FREE_ENTRY: string := "0000000000 65535 f \n"
  const IN_USE: string := " 00000 n \n"
  const TRAILER_SIZE: string := "trailer\n<<\n/Size "
  const TRAILER_ROOT: string := "\n/Root "
  const TRAILER_INFO: string := " 0 R\n/Info "
  const TRAILER_ID: string := " 0 R\n/ID [\n<"
  const STARTXREF: string := "startxref\n"
  const EOF: string := "\n%%EOF\n"

  // ---- writer: objects -----------------------------------------------------

  datatype Obj = Obj(id: nat, text: string)

  function PagePieces(l: Layout, k: nat): seq<Piece> {
    [Num(k, OBJ), Lit(PAGE_CONTENTS), Num(k + 2, PAGE_ROTATE), Line(l.rotate),
     Lit(PAGE_MEDIABOX), Line(l.mediaBox), Lit(PAGE_STRIP), Num(k + 1, PAGE_END)]
  }

  /** A value as 32-bit int arithmetic leaves it, in two's complement. */
  function Int32(x: int): int {
    (x + 0x8000_0000) % 0x1_0000_0000 - 0x8000_0000
  }

  /** The Length an image object declares, the product of two ints. */
  function DeclaredLength(l: Layout): int {
    Int32(l.height * l.bytesPerLine)
  }

  /** The product does not overflow. */
  predicate LengthFits(l: Layout) {
    l.height * l.bytesPerLine < 0x8000_0000
  }

  function LengthPieces(length: int): seq<Piece> {
    if length >= 0 then [Num(length, STREAM)] else [Lit("-"), Num(-length, STREAM)]
  }

  /** An image object up to its Length. */
  function ImageHead(l: Layout, k: nat): seq<Piece> {
    [Num(k, OBJ), Lit(IMAGE_WIDTH), Num(l.width, IMAGE_HEIGHT), Num(l.height, IMAGE_COLORS),
     Line(l.colorSpace), Lit(IMAGE_BITS), Num(l.bits, IMAGE_LENGTH)]
  }

  function ImagePieces(l: Layout, k: nat): seq<Piece> {
    ImageHead(l, k) + LengthPieces(DeclaredLength(l))
  }

  function ContentsPieces(l: Layout, k: nat): seq<Piece> {
    [Num(k, OBJ), Lit(CONTENTS_LENGTH), Num(|l.drawing|, STREAM)]
  }

  /** References to the page objects 2, 5, 8, ... */
  function KidPieces(n: nat): (ps: seq<Piece>)
    ensures |ps| == n && forall i :: 0 <= i < n ==> ps[i] == Num(3 * i + 2, REF_LINE)
  {
    seq(n, i requires 0 <= i < n => Num(3 * i + 2, REF_LINE))
  }

  function PagesHead(n: nat): seq<Piece> {
    [Num(1, OBJ), Lit(PAGES_COUNT), Num(n, PAGES_KIDS)]
  }

  function CatalogPieces(k: nat): seq<Piece> {
    [Num(k, OBJ), Lit(CATALOG_PAGES), Num(1, CATALOG_END)]
  }

  function PageObj(l: Layout, k: nat): Obj {
    Obj(k, Render(PagePieces(l, k)))
  }

  function ImageObj(l: Layout, k: nat, data: string): Obj {
    Obj(k, Render(ImagePieces(l, k)) + (data + IMAGE_END))
  }

  function ContentsObj(l: Layout, k: nat): Obj {
    Obj(k, Render(ContentsPieces(l, k)) + (l.drawing + CONTENTS_END))
  }

  function PagesObj(count: nat, kids: nat): Obj {
    Obj(1, Render(PagesHead(count)) + (Render(KidPieces(kids)) + PAGES_END))
  }

  function CatalogObj(k: nat): Obj {
    Obj(k, Render(CatalogPieces(k)))
  }

  function InfoObj(k: nat, info: string): Obj {
    Obj(k, Dec(k) + OBJ + (INFO_BEGIN + info + INFO_END))
  }

  /** The j-th object of the page part of a file: three per page, numbered from 2. */
  function PagePart(l: Layout, pages: seq<string>, j: nat): (obj: Obj)
    requires j < 3 * |pages|
    ensures obj.id == j + 2
  {
    if j % 3 == 0 then PageObj(l, j + 2)
    else if j % 3 == 1 then ImageObj(l, j + 2, pages[j / 3])
    else ContentsObj(l, j + 2)
  }

  function PageObjects(l: Layout, pages: seq<string>): (objs: seq<Obj>)
    ensures |objs| == 3 * |pages|
    ensures forall j :: 0 <= j < |objs| ==> objs[j] == PagePart(l, pages, j)
  {
    seq(3 * |pages|, j requires 0 <= j < 3 * |pages| => PagePart(l, pages, j))
  }

  /**
   * The objects of a file that is ended, in file order: those of its pages,
   * then the page tree, the catalog and the information dictionary. The tree
   * lists every third number as a kid, also that of a page still open.
   */
  function Complete(objs: seq<Obj>, count: nat, info: string): (r: seq<Obj>)
    ensures |r| == |objs| + 3
  {
    var m := |objs|;
    objs + [PagesObj(count, (m + 1) / 3), CatalogObj(m + 2), InfoObj(m + 3, info)]
  }

  /** All objects of a document of whole pages. */
  function Objects(l: Layout, info: string, pages: seq<string>): (objs: seq<Obj>)
    ensures |objs| == 3 * |pages| + 3
  {
    Complete(PageObjects(l, pages), |pages|, info)
  }

  function Texts(objs: seq<Obj>): string {
    if objs == [] then "" else Texts(objs[..|objs| - 1]) + objs[|objs| - 1].text
  }

  /** Where the j-th object of the file begins. */
  function Offset(objs: seq<Obj>, j: nat): nat
    requires j <= |objs|
  {
    |HEADER| + |Texts(objs[..j])|
  }

  function LastOffset(objs: seq<Obj>): nat
    requires objs != []
  {
    Offset(objs, |objs| - 1)
  }

  // ---- writer: cross-reference section -------------------------------------

  /** setfill('0') and setw(10): at least ten digits. */
  function Pad10(n: nat): string {
    var d := Dec(n);
    if |d| >= 10 then d else Zeros(10 - |d|) + d
  }

  function Table(offsets: seq<nat>): string {
    if offsets == [] then "" else Table(offsets[..|offsets| - 1]) + (Pad10(offsets[|offsets| - 1]) + IN_USE)
  }

  /** Which object of a file, in file order, carries number k: the page tree, though number 1, is third from last. */
  function FileIndex(total: nat, k: nat): (j: nat)
    requires total >= 3 && 1 <= k <= total
    ensures j < total
  {
    if k == 1 then total - 3 else if k <= total - 2 then k - 2 else k - 1
  }

  /** The offsets of objects 1, 2, 3, ... */
  function Offsets(objs: seq<Obj>): (r: seq<nat>)
    requires |objs| >= 3
    ensures |r| == |objs|
    ensures forall k :: 1 <= k <= |objs| ==> r[k - 1] == Offset(objs, FileIndex(|objs|, k))
  {
    seq(|objs|, i requires 0 <= i < |objs| => Offset(objs, FileIndex(|objs|, i + 1)))
  }

  function XrefHead(size: nat): seq<Piece> {
    [Lit(XREF), Num(size, "\n")]
  }

  function TrailerPieces(size: nat): seq<Piece>
    requires size >= 2
  {
    [Lit(TRAILER_SIZE), Num(size, TRAILER_ROOT), Num(size - 2, TRAILER_INFO), Num(size - 1, TRAILER_ID)]
  }

  function FileIds(fileId: string): string {
    fileId + (">\n<" + (fileId + ">\n]\n>>\n%PDF-raster-1.0\n"))
  }

  function Tail(offsets: seq<nat>, fileId: string, startxref: nat): string
    requires |offsets| >= 1
  {
    var size := |offsets| + 1;
    Render(XrefHead(size)) + (FREE_ENTRY + (Table(offsets) + (Render(TrailerPieces(size)) +
      (FileIds(fileId) + (STARTXREF + (Dec(startxref) + EOF))))))
  }

  /** A file with the given objects. */
  function File(objs: seq<Obj>, fileId: string): string
    requires |objs| >= 3
  {
    var body := HEADER + Texts(objs);
    body + Tail(Offsets(objs), fileId, |body|)
  }

  /** A document over the given page streams. */
  function Document(l: Layout, info: string, fileId: string, pages: seq<string>): string {
    File(Objects(l, info, pages), fileId)
  }
}
