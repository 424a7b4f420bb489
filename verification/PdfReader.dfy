/**
 * A reader of PDF files. It knows nothing of the writer: it starts from the
 * last lines of the file and follows offsets and references only, in the words
 * of ISO 32000-1 (sections 7.3.8.2, 7.3.10, 7.5.4, 7.5.5, 7.7.3.3 and 8.9.5).
 */
module PdfReader {
  import opened Text

  datatype Xref = Xref(table: nat, size: nat)

  /** An image object: its attributes and its data. */
  datatype Image = Image(width: nat, height: nat, bits: nat, colors: string, data: string)

  /** A page as a viewer shows it. */
  datatype Picture = Picture(image: Image, drawing: string, rotate: string, mediaBox: string)

  function TrailingDigits(s: string): (k: nat)
    ensures k <= |s|
  {
    if s != "" && IsDigit(s[|s| - 1], 10) then 1 + TrailingDigits(s[..|s| - 1]) else 0
  }

  /** The text before a suffix. */
  function Without(s: string, suffix: string): Option<string> {
    if |s| >= |suffix| && At(s, |s| - |suffix|, suffix) then Some(s[..|s| - |suffix|]) else None
  }

  /** The offset on the line before the end-of-file marker. */
  function ReadStartxref(doc: string): Option<nat> {
    var s :- Without(doc, "\n%%EOF\n");
    var k := TrailingDigits(s);
    var _ :- Without(s[..|s| - k], "startxref\n");
    if k == 0 then None else Some(Eval(s[|s| - k..], 10))
  }

  function ReadXref(doc: string): Option<Xref> {
    var start :- ReadStartxref(doc);
    var (fields, table) :- Scan(doc, start, [PLit("xref\n0 "), PNum("\n")]);
    if At(doc, table, "0000000000 65535 f \n") then Some(Xref(table, fields[1].n)) else None
  }

  /** Cross-reference entries are exactly 20 bytes long, so entry k is found directly. */
  function Locate(doc: string, x: Xref, k: nat): Option<nat> {
    var p := x.table + 20 * k;
    if 0 < k < x.size && p + 20 <= |doc| && AllDigits(doc[p..p + 10], 10) && At(doc, p + 10, " 00000 n \n")
    then Some(Eval(doc[p..p + 10], 10))
    else None
  }

  /** Scans object k from its recorded offset. */
  function ScanObject(doc: string, x: Xref, k: nat, pats: seq<Pattern>): (r: Option<(seq<Field>, nat)>)
    requires pats != []
    ensures r.Some? ==> |r.value.0| == |pats|
  {
    var offset :- Locate(doc, x, k);
    var (fields, p) :- Scan(doc, offset, pats);
    if fields[0].n != k then None else Some((fields, p))
  }

  const PAGE_PATTERN: seq<Pattern> :=
    [PNum(" 0 obj"), PLit("<<\n/Type/Page\n/Contents "), PNum(" 0 R\n/Rotate "), PLine,
     PLit("/MediaBox [ 0 0 "), PLine, PLit("/Parent 1 0 R\n/Resources << /XObject << /strip0 "),
     PNum(" 0 R >> >>\n>>\nendobj\n")]
  const IMAGE_PATTERN: seq<Pattern> :=
    [PNum(" 0 obj"), PLit("\n<<\n/Type /XObject\n/Subtype /Image\n/Width "), PNum("\n/Height "),
     PNum("\n/ColorSpace /"), PLine, PLit("/BitsPerComponent "), PNum("\n/Length "), PNum("\n>>\nstream\n")]
  const CONTENTS_PATTERN: seq<Pattern> := [PNum(" 0 obj"), PLit("\n<<\n/Length "), PNum("\n>>\nstream\n")]
  const PAGES_PATTERN: seq<Pattern> := [PNum(" 0 obj"), PLit("\n<<\n/Type/Pages\n/Count "), PNum("\n/Kids [\n")]
  const CATALOG_PATTERN: seq<Pattern> :=
    [PNum(" 0 obj"), PLit("<<\n/Type/Catalog\n/Pages "), PNum(" 0 R\n>>\nendobj\n")]
  const INFO_PATTERN: seq<Pattern> := [PNum(" 0 obj"), PLit("<<\n")]
  const TRAILER_PATTERN: seq<Pattern> :=
    [PLit("trailer\n<<\n/Size "), PNum("\n/Root "), PNum(" 0 R\n/Info "), PNum(" 0 R\n/ID [\n<")]

  function KidPatterns(n: nat): (r: seq<Pattern>)
    ensures |r| == n && forall i :: 0 <= i < n ==> r[i] == PNum(" 0 R\n")
  {
    seq(n, i => PNum(" 0 R\n"))
  }

  /** The bytes of a stream: exactly as many as its Length says, then the end marker. */
  function ReadStream(doc: string, p: nat, length: nat, marker: string): Option<string> {
    if p + length <= |doc| && At(doc, p + length, marker) then Some(doc[p..p + length]) else None
  }

  /** An image object: its attributes, and its stream by the Length it declares. */
  function ReadImage(doc: string, x: Xref, k: nat): Option<Image> {
    var (fields, p) :- ScanObject(doc, x, k, IMAGE_PATTERN);
    var data :- ReadStream(doc, p, fields[7].n, "\nendstream\nendobj\n");
    Some(Image(fields[2].n, fields[3].n, fields[6].n, fields[4].text, data))
  }

  function ReadContents(doc: string, x: Xref, k: nat): Option<string> {
    var (fields, p) :- ScanObject(doc, x, k, CONTENTS_PATTERN);
    ReadStream(doc, p, fields[2].n, "endstream\n\nendobj\n")
  }

  /** A page: its image and its contents, through the page's own references, and how it is placed. */
  function ReadPage(doc: string, x: Xref, k: nat): Option<Picture> {
    var (fields, _) :- ScanObject(doc, x, k, PAGE_PATTERN);
    var image :- ReadImage(doc, x, fields[7].n);
    var drawing :- ReadContents(doc, x, fields[2].n);
    Some(Picture(image, drawing, fields[3].text, fields[5].text))
  }

  function ReadKids(doc: string, x: Xref, kids: seq<Field>): Option<seq<Picture>> {
    if kids == [] then Some([]) else
    var front :- ReadKids(doc, x, kids[..|kids| - 1]);
    var page :- ReadPage(doc, x, kids[|kids| - 1].n);
    Some(front + [page])
  }

  /** The page tree: as many kids as its Count says. */
  function ReadPages(doc: string, x: Xref, k: nat): Option<seq<Picture>> {
    var (pages, p) :- ScanObject(doc, x, k, PAGES_PATTERN);
    var (kids, q) :- Scan(doc, p, KidPatterns(pages[2].n));
    if At(doc, q, "\n]\n>>\nendobj\n") then ReadKids(doc, x, kids) else None
  }

  /** Where the entries of the trailer's information dictionary begin. */
  function LocateInfo(doc: string): Option<nat> {
    var x :- ReadXref(doc);
    var (trailer, _) :- Scan(doc, x.table + 20 * x.size, TRAILER_PATTERN);
    var (_, p) :- ScanObject(doc, x, trailer[3].n, INFO_PATTERN);
    Some(p)
  }

  /** What a viewer shows: the trailer's root, its page tree, and every page in order. */
  function ReadDocument(doc: string): Option<seq<Picture>> {
    if !At(doc, 0, "%PDF-1.4\n") then None else
    var x :- ReadXref(doc);
    var (trailer, _) :- Scan(doc, x.table + 20 * x.size, TRAILER_PATTERN);
    var (catalog, _) :- ScanObject(doc, x, trailer[2].n, CATALOG_PATTERN);
    ReadPages(doc, x, catalog[2].n)
  }
}
