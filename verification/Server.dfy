/**
 * The NextDocument branch of server/server.cpp, from the request down to the
 * bytes on the socket, and what a client decodes from them.
 */
module Server {
  import opened Text
  import opened Sane
  import opened FdBuffer
  import opened Chunked
  import opened ImageEncoding
  import opened PdfFormat
  import opened PdfReader
  import opened PdfProofs
  import opened PdfReading
  import opened PdfProgress
  import opened PdfEncoding
  import opened JobModel
  import opened JobProofs
  import opened NextDocument
  import opened ScanJobs
  import opened Fidelity
  import opened Faults
  import Dictionaries
  import Headers

  // ---- one page per sheet --------------------------------------------------

  /** A block of h lines after whole pages is one more page. */
  lemma {:induction false} CollectBlock(h: int, lines: seq<string>, block: seq<string>, k: nat)
    requires Collect(h, lines).open == [] && |block| == h >= 1 && k <= h
    ensures
      var pr := Collect(h, lines);
      Collect(h, lines + block[..k]) ==
      if k < h then Progress(pr.pages, block[..k]) else Progress(pr.pages + [block], [])
    decreases k
  {
    hide Collect;
    if k == 0 {
      assert lines + block[..0] == lines;
    } else {
      CollectBlock(h, lines, block, k - 1);
      assert lines + block[..k] == lines + block[..k - 1] + [block[k - 1]];
      CollectSnoc(h, lines + block[..k - 1], block[k - 1]);
      assert block[..k - 1] + [block[k - 1]] == block[..k];
      assert block[..h] == block;
    }
  }

  function SheetPages(c: Config, prep: Preparation, sheets: seq<Sheet>): (r: seq<seq<string>>)
    requires c.params.bytesPerLine >= 1
    ensures |r| == |sheets|
    ensures forall i :: 0 <= i < |sheets| ==> r[i] == EncodedLines(c, prep, SheetLines(c, sheets[i]))
  {
    seq(|sheets|, i requires 0 <= i < |sheets| => EncodedLines(c, prep, SheetLines(c, sheets[i])))
  }

  /** The lines of n good sheets make exactly n pages, page i holding the lines of sheet i. */
  lemma {:induction false} CollectSheets(c: Config, prep: Preparation, sheets: seq<Sheet>, front: seq<string>)
    requires GoodFeed(c, sheets) && Collect(c.params.lines, front).open == []
    ensures
      var pr := Collect(c.params.lines, front);
      Collect(c.params.lines, front + EncodedLines(c, prep, AllLines(c, sheets))) ==
      Progress(pr.pages + SheetPages(c, prep, sheets), [])
    decreases |sheets|
  {
    hide Collect, EncodedLines, SheetLines;
    var h, pr := c.params.lines, Collect(c.params.lines, front);
    if sheets == [] {
      assert front + EncodedLines(c, prep, []) == front;
      assert pr.pages + SheetPages(c, prep, sheets) == pr.pages;
    } else {
      var first, rest := SheetLines(c, sheets[0]), AllLines(c, sheets[1..]);
      var block := EncodedLines(c, prep, first);
      EncodedAppend(c, prep, first, rest);
      CollectBlock(h, front, block, h);
      assert block[..h] == block;
      CollectSheets(c, prep, sheets[1..], front + block);
      assert front + block + EncodedLines(c, prep, rest) ==
             front + EncodedLines(c, prep, first + rest);
      assert pr.pages + [block] + SheetPages(c, prep, sheets[1..]) ==
             pr.pages + SheetPages(c, prep, sheets);
    }
  }

  lemma EncodedAppend(c: Config, prep: Preparation, a: seq<string>, b: seq<string>)
    ensures EncodedLines(c, prep, a + b) == EncodedLines(c, prep, a) + EncodedLines(c, prep, b)
  {
  }

  lemma {:induction false} WholeLinesUniform(n: nat, bytes: string)
    requires n >= 1
    ensures Uniform(WholeLines(n, bytes), n)
    decreases |bytes|
  {
    if |bytes| >= n {
      WholeLinesUniform(n, bytes[n..]);
    }
  }

  lemma {:induction false} AllLinesUniform(c: Config, sheets: seq<Sheet>)
    requires c.params.bytesPerLine >= 1
    ensures Uniform(AllLines(c, sheets), c.params.bytesPerLine)
  {
    if sheets != [] {
      WholeLinesUniform(c.params.bytesPerLine, Delivered(sheets[0].frame));
      AllLinesUniform(c, sheets[1..]);
    }
  }

  lemma PreparedLength(c: Config, prep: Preparation, raw: string)
    requires |raw| == c.params.bytesPerLine && LineSizesAgree(c)
    ensures |PreparedLine(c, prep, raw)| == BytesPerLine(EncoderSettings(c))
  {
    hide Pixels.Gamma, Pixels.GrayLine, BytesPerLine;
  }

  lemma EncodedUniform(c: Config, prep: Preparation, raws: seq<string>)
    requires Uniform(raws, c.params.bytesPerLine) && LineSizesAgree(c)
    ensures Uniform(EncodedLines(c, prep, raws), BytesPerLine(EncoderSettings(c)))
  {
    hide PreparedLine, BytesPerLine, EncodedLine, LineSizesAgree;
    forall i | 0 <= i < |raws|
      ensures |EncodedLines(c, prep, raws)[i]| == BytesPerLine(EncoderSettings(c))
    {
      PreparedLength(c, prep, raws[i]);
    }
  }

  function StreamLength(c: Config): nat {
    var h: nat := if c.params.lines >= 0 then c.params.lines else 0;
    h * BytesPerLine(EncoderSettings(c))
  }

  /** The document over n good sheets has n page streams of the declared length. */
  lemma SheetStreams(c: Config, prep: Preparation, sheets: seq<Sheet>)
    requires GoodFeed(c, sheets)
    ensures
      var pages := SheetPages(c, prep, sheets);
      && Collect(c.params.lines, EncodedLines(c, prep, AllLines(c, sheets))) == Progress(pages, [])
      && Uniform(Streams(pages), StreamLength(c))
  {
    hide Collect, EncodedLines, BytesPerLine, LineSizesAgree, SheetPages, AllLines;
    var lines, pages := EncodedLines(c, prep, AllLines(c, sheets)), SheetPages(c, prep, sheets);
    EmptyCollect(c.params.lines);
    CollectSheets(c, prep, sheets, []);
    assert [] + lines == lines && [] + pages == pages;
    AllLinesUniform(c, sheets);
    EncodedUniform(c, prep, AllLines(c, sheets));
    PageLengths(c.params.lines, lines, BytesPerLine(EncoderSettings(c)));
  }

  lemma EmptyCollect(h: int)
    ensures Collect(h, []) == Progress([], [])
  {
  }

  /** The PDF over one page per sheet. */
  ghost function PdfOf(job: ScanJob, sheets: seq<Sheet>): string
    requires job.config.params.bytesPerLine >= 1
  {
    Document(LayoutOf(EncoderSettings(job.config), job.texts.formats), job.texts.info, job.texts.fileId,
             Streams(SheetPages(job.config, job.prep, sheets)))
  }

  /** The file keeps to its two size limits: offsets of ten digits, and a Length below 2^31. */
  ghost predicate SizesFit(job: ScanJob, sheets: seq<Sheet>)
    requires job.config.params.bytesPerLine >= 1
  {
    var l := LayoutOf(EncoderSettings(job.config), job.texts.formats);
    && LastOffset(Objects(l, job.texts.info, Streams(SheetPages(job.config, job.prep, sheets)))) < 10000000000
    && (sheets == [] || l.height * l.bytesPerLine < 0x8000_0000)
  }

  /** A page shows a sheet: the attributes of its image are those of the scan, and so is every sample. */
  ghost predicate Shows(job: ScanJob, sheet: Sheet, picture: Picture) {
    var c, f, image := job.config, job.texts.formats, picture.image;
    && image.width == c.params.pixelsPerLine && image.height == c.params.lines && image.bits == c.params.depth
    && image.colors == (if c.colorScan then "DeviceRGB" else "DeviceGray")
    && (Usual(c, job.prep) ==> PageFaithful(c, job.prep, sheet, image.data))
    && picture.rotate == f.rotate && picture.mediaBox == f.width + " " + f.height + " ]"
    && picture.drawing == f.width + " 0 0 " + f.height + " 0 0 cm\n/strip0 Do\n"
  }

  /** What a viewer should show for each sheet. */
  ghost function PicturesOf(job: ScanJob, sheets: seq<Sheet>): seq<Picture>
    requires job.config.params.bytesPerLine >= 1
  {
    Shown(LayoutOf(EncoderSettings(job.config), job.texts.formats), Streams(SheetPages(job.config, job.prep, sheets)))
  }

  /**
   * What the viewer of a scan sees: one page per sheet that shows it, if and
   * only if the file keeps to its two size limits.
   */
  lemma SheetsAreShown(job: ScanJob, sheets: seq<Sheet>)
    requires GoodFeed(job.config, sheets)
    requires OneLiners(LayoutOf(EncoderSettings(job.config), job.texts.formats))
    ensures
      var pictures := PicturesOf(job, sheets);
      && (ReadDocument(PdfOf(job, sheets)) == Some(pictures) <==> SizesFit(job, sheets))
      && |pictures| == |sheets| && forall i :: 0 <= i < |sheets| ==> Shows(job, sheets[i], pictures[i])
  {
    hide Collect, EncodedLines, BytesPerLine, ReadDocument, Document, Objects, SheetPages, OneLiners, Shows;
    hide Ended, Final, LastOffset, ColorSpaceName, LineSizesAgree;
    var c, l := job.config, LayoutOf(EncoderSettings(job.config), job.texts.formats);
    var pages := SheetPages(c, job.prep, sheets);
    SheetStreams(c, job.prep, sheets);
    EndedWhole(l, job.texts.info, job.texts.fileId, pages);
    ReadBack(l, job.texts.info, job.texts.fileId, Progress(pages, []));
    forall i | 0 <= i < |sheets|
      ensures Shows(job, sheets[i], PicturesOf(job, sheets)[i])
    {
      SheetIsShown(job, sheets[i]);
    }
  }

  lemma SheetIsShown(job: ScanJob, sheet: Sheet)
    requires job.config.params.bytesPerLine >= 1 && job.config.params.lines >= 1 && GoodSheet(job.config, sheet)
    ensures
      var l := LayoutOf(EncoderSettings(job.config), job.texts.formats);
      Shows(job, sheet, PictureOf(l, Concat(EncodedLines(job.config, job.prep, SheetLines(job.config, sheet)))))
  {
    hide PageFaithful, Usual, Concat, EncodedLines, SheetLines, BytesPerLine, Ending;
    if Usual(job.config, job.prep) {
      SheetIsFaithful(job.config, job.prep, sheet);
    }
  }

  // ---- the request ---------------------------------------------------------

  function MimeType(f: Format): string {
    match f
    case Pdf => "application/pdf"
    case Jpeg => "image/jpeg"
    case Png => "image/png"
    case OtherFormat(mimeType) => mimeType
  }

  /** What a client is interested in. */
  datatype Delivery = Delivery(status: nat, contentType: string, connection: string, body: string)

  /** What a client makes of the bytes it gets, with a chunked coding undone. */
  function Receive(s: string): Option<Delivery> {
    var reply :- Headers.ReadResponse(s);
    var d := reply.headers;
    var body :- if Dictionaries.Get(d, "transfer-encoding") == "chunked" then Dechunk(reply.rest) else Some(reply.rest);
    Some(Delivery(reply.status, Dictionaries.Get(d, "content-type"), Dictionaries.Get(d, "connection"), body))
  }

  /** The fields a client will find. */
  predicate Fields(d: Dictionaries.Storage, coding: string, contentType: string) {
    && Headers.Printable(d)
    && Dictionaries.Get(d, "transfer-encoding") == coding
    && Dictionaries.Get(d, "content-type") == contentType
    && Dictionaries.Get(d, "connection") == "close"
  }

  lemma Received(status: nat, d: Dictionaries.Storage, coding: string, contentType: string, rest: string)
    requires Fields(d, coding, contentType)
    ensures Receive(Headers.Block(status, d) + rest) ==
      if coding != "chunked" then Some(Delivery(status, contentType, "close", rest))
      else if Dechunk(rest).None? then None
      else Some(Delivery(status, contentType, "close", Dechunk(rest).value))
  {
    hide Headers.Block, Headers.ReadResponse, Dechunk, Dictionaries.Get;
    Headers.ResponseRoundTrip(status, d, rest);
  }

  /**
   * send and sendHeaders: completes the entries, prints the header block and
   * flushes it. False if the transfer coding is unknown, where the source
   * throws; `sent` says whether the socket took the block.
   */
  method SendHeaders(response: Headers.Response, socket: FdBuf) returns (known: bool, sent: bool)
    requires Headers.Printable(response.headers.data) && socket.Valid()
    modifies response.headers, socket, socket.outbuf
    ensures socket.Valid() && Headers.Printable(response.headers.data)
    ensures known <==> Headers.KnownCoding(old(response.headers.data))
    ensures known ==> response.headers.data == Headers.Outgoing(old(response.headers.data))
    ensures known && sent ==>
      socket.fd == socket.Stream() == old(socket.Stream()) + Headers.Block(response.status, response.headers.data)
    ensures known && !sent ==>
      socket.Stream() < old(socket.Stream()) + Headers.Block(response.status, response.headers.data)
    ensures known && NeverFails(old(socket.script)) ==> sent
    ensures NeverFails(old(socket.script)) ==> NeverFails(socket.script)
    ensures !known ==> !sent && socket.Stream() == old(socket.Stream())
  {
    hide Headers.Block, Headers.SetHeader, Headers.Header, Headers.Entry, NeverFails;
    Headers.OutgoingPrintable(response.headers.data);
    response.Set(Headers.CONTENT_LENGTH, "");
    response.Set(Headers.CONNECTION, "close");
    var encoding := Headers.ToLower(Headers.Header(response.headers.data, Headers.TRANSFER_ENCODING));
    if encoding == "identity" {
      response.Set(Headers.TRANSFER_ENCODING, "");
    } else if encoding == "chunked" {
      response.Set(Headers.CONTENT_LENGTH, "");
    } else if encoding != "" {
      return false, false;
    }
    var text := response.Print();
    known := true;
    sent := socket.PutAll(text);
    if sent {
      sent := socket.SyncBuffer();
    }
  }

  /** A reply without a body. */
  method SendStatus(response: Headers.Response, socket: FdBuf) returns (ghost contentType: string)
    requires Headers.Printable(response.headers.data) && Headers.Coding(response.headers.data) == "" && socket.Valid()
    modifies response.headers, socket, socket.outbuf
    ensures contentType == Headers.Header(old(response.headers.data), Headers.CONTENT_TYPE)
    ensures NeverFails(old(socket.script)) ==>
      && old(socket.Stream()) <= socket.fd
      && Receive(socket.fd[|old(socket.Stream())|..]) == Some(Delivery(response.status, contentType, "close", ""))
    ensures old(socket.Stream()) + Headers.Block(response.status, response.headers.data) <= socket.fd ==>
      Receive(socket.fd[|old(socket.Stream())|..]) == Some(Delivery(response.status, contentType, "close", ""))
  {
    hide Headers.Block, Headers.Outgoing, Headers.Header, Headers.Entry, Headers.Coding, Receive, NeverFails;
    hide Dictionaries.Get;
    ghost var start, d := socket.Stream(), response.headers.data;
    contentType := Headers.Header(d, Headers.CONTENT_TYPE);
    Headers.OutgoingFields(d);
    Headers.OutgoingPrintable(d);
    NoCoding(Dictionaries.Get(Headers.Outgoing(d), "transfer-encoding"));
    var known, sent := SendHeaders(response, socket);
    if sent {
      ghost var head := Headers.Block(response.status, response.headers.data);
      assert socket.fd[|start|..] == head + "";
      Received(response.status, response.headers.data, "", contentType, "");
    }
  }

  lemma NoCoding(coding: string)
    ensures Headers.ToLower(coding) == "" ==> coding == ""
  {
  }

  /** Sends the document of a job that has begun: headers, then the chunked body. */
  method SendDocument(job: ScanJob, response: Headers.Response, socket: FdBuf, library: seq<Library>)
    returns (ghost outcomes: seq<Outcome>, ghost body: string)
    requires job.Valid() && job.state.Processing? && job.session != null
    requires socket.Valid() && Headers.Printable(response.headers.data)
    requires Terminates(job.config)
    modifies job, job.scanner, response.headers, socket, socket.outbuf
    ensures job.Valid() && DeviceEnds(old(job.View()).device)
    ensures job.View() == Finish(job.config, old(job.View()), outcomes).job
    ensures
      var all := Delivery(response.status, TypeText(job.config.format), "close", body);
      && (NeverFails(old(socket.script)) ==>
           && Lost !in outcomes && old(socket.Stream()) <= socket.fd
           && Receive(socket.fd[|old(socket.Stream())|..]) == Some(all))
      && (old(socket.Stream()) + Headers.Block(response.status, response.headers.data) <= socket.fd ==>
           Receive(socket.fd[|old(socket.Stream())|..]) in {None, Some(all)})
    ensures NeverFails(old(socket.script)) ==>
      var lines := Finish(job.config, old(job.View()), outcomes).lines;
      job.config.format.Pdf? && lines != [] ==> body == job.DocumentOf(lines)
    ensures job.Consistent(library, outcomes)
  {
    hide Headers.Block, Headers.Printable, Fields, Receive, NeverFails, Dechunk, Run, Delivered, Ending, TypeText;
    hide EncodeChunks, Concat, LineSizesAgree, Taken, job.DocumentOf;
    ghost var start := socket.Stream();
    var sent := SendDocumentHeaders(response, socket, job.config.format);
    ghost var d := response.headers.data;
    var os := new ChunkStream(socket, sent);
    ghost var empty := os.Payload();
    outcomes := job.FinishTransfer(os, library);
    body := os.Payload();
    assert empty + body == body;
    os.Close();
    if start + Headers.Block(response.status, d) <= socket.fd {
      DocumentReceived(start, response.status, d, TypeText(job.config.format), socket.fd);
    }
  }

  /** What a client reads as the type of a document. */
  function TypeText(f: Format): string {
    match f
    case Pdf => "application/pdf"
    case Jpeg => "image/jpeg"
    case Png => "image/png"
    case OtherFormat(mimeType) => Headers.Trim(mimeType)
  }

  lemma TypeIsPrinted(f: Format)
    ensures Headers.Trim(MimeType(f)) == TypeText(f)
  {
    hide Headers.Trim;
    if !f.OtherFormat? {
      assert Headers.Spaceless(MimeType(f));
      Headers.TrimSpaceless(MimeType(f));
    }
  }

  method SendDocumentHeaders(response: Headers.Response, socket: FdBuf, format: Format) returns (sent: bool)
    requires Headers.Printable(response.headers.data) && socket.Valid()
    modifies response.headers, socket, socket.outbuf
    ensures socket.Valid() && Fields(response.headers.data, "chunked", TypeText(format))
    ensures
      var whole := old(socket.Stream()) + Headers.Block(response.status, response.headers.data);
      if sent then socket.Stream() == whole else socket.Stream() < whole
    ensures NeverFails(old(socket.script)) ==> sent && NeverFails(socket.script)
  {
    hide Headers.Block, Headers.SetHeader, Headers.Header, Headers.Outgoing, Headers.Entry, Headers.Coding, NeverFails;
    hide Headers.Trim, Headers.ToLower, Dictionaries.Get, TypeText, MimeType;
    Headers.DocumentIsChunked(response.headers.data, MimeType(format));
    TypeIsPrinted(format);
    response.Set(Headers.CONTENT_TYPE, MimeType(format));
    response.Set(Headers.TRANSFER_ENCODING, "chunked");
    ghost var d := response.headers.data;
    Headers.OutgoingFields(d);
    Headers.OutgoingPrintable(d);
    ChunkedText(d);
    var known;
    known, sent := SendHeaders(response, socket);
  }

  /** The coding is printed as it was set. */
  lemma ChunkedText(d: Dictionaries.Storage)
    requires Headers.Printable(d) && Headers.Coding(d) == "chunked"
    requires Headers.Header(d, Headers.TRANSFER_ENCODING) == "chunked"
    ensures Dictionaries.Get(Headers.Outgoing(d), "transfer-encoding") == "chunked"
  {
    hide Headers.Printable, Headers.SetHeader, Dictionaries.Get, Headers.Normal;
    Headers.FieldNames();
    Headers.ClosingFields(d, Headers.TRANSFER_ENCODING);
    Headers.SetOther(Headers.Closing(d), Headers.CONTENT_LENGTH, "", Headers.TRANSFER_ENCODING);
    Headers.NormalIsFixed(Headers.TRANSFER_ENCODING);
  }

  /** What a client makes of a chunked body behind a whole header block. */
  lemma DocumentReceived(start: string, status: nat, d: Dictionaries.Storage, contentType: string, fd: string)
    requires Fields(d, "chunked", contentType)
    requires start + Headers.Block(status, d) <= fd
    ensures start <= fd
    ensures
      var body := Dechunk(fd[|start + Headers.Block(status, d)|..]);
      Receive(fd[|start|..]) == if body.None? then None else Some(Delivery(status, contentType, "close", body.value))
  {
    hide Headers.Block, Fields, Dechunk, Receive;
    var head := Headers.Block(status, d);
    assert fd[|start|..] == head + fd[|start + head|..];
    Received(status, d, "chunked", contentType, fd[|start + head|..]);
  }

  /**
   * A NextDocument request for a job. Job and status code are as the model
   * says. If the socket takes all bytes, the client receives that code, and with
   * 200 the type of the document and the bytes the transfer inserted: for a PDF
   * the document over the lines read, also if the transfer was aborted inside a
   * page. If it does not, but the header block got through, the client receives
   * that or notices.
   */
  method HandleNextDocument(job: ScanJob, response: Headers.Response, socket: FdBuf, library: seq<Library>)
    returns (code: nat, ghost outcomes: seq<Outcome>, ghost contentType: string, ghost body: string)
    requires job.Valid() && JobInv(job.View()) && socket.Valid()
    requires Headers.Printable(response.headers.data) && Headers.Coding(response.headers.data) == ""
    requires Terminates(job.config)
    modifies job, job.scanner, response, response.headers, socket, socket.outbuf
    ensures job.Valid()
    ensures var a := Next(job.config, old(job.View()), outcomes); job.View() == a.job && code == a.code
    ensures NeverFails(old(socket.script)) ==>
      && Lost !in outcomes && old(socket.Stream()) <= socket.fd
      && Receive(socket.fd[|old(socket.Stream())|..]) == Some(Delivery(code, contentType, "close", body))
    ensures old(socket.Stream()) + Headers.Block(code, response.headers.data) <= socket.fd ==>
      Receive(socket.fd[|old(socket.Stream())|..]) in {None, Some(Delivery(code, contentType, "close", body))}
    ensures code == 200 ==> contentType == TypeText(job.config.format)
    ensures code != 200 ==>
      body == "" && contentType == Headers.Header(old(response.headers.data), Headers.CONTENT_TYPE)
    ensures code == 200 && NeverFails(old(socket.script)) ==>
      var lines := Next(job.config, old(job.View()), outcomes).lines;
      job.config.format.Pdf? && lines != [] ==> body == job.DocumentOf(lines)
    ensures job.Consistent(library, outcomes)
  {
    hide Headers.Coding, Headers.Entry, Receive, Run, Begin, Delivered, Ending, LineSizesAgree, Taken, job.DocumentOf;
    hide NeverFails, TypeText, Headers.Header, Headers.Block;
    ghost var j := job.View();
    outcomes, body := [], "";
    BeginContract(j);
    if job.state.Aborted? || job.state.Canceled? || job.state.Completed? {
      code := HTTP_NOT_FOUND;
    } else {
      var begun := job.BeginTransfer();
      if begun {
        response.status := HTTP_OK;
        contentType := TypeText(job.config.format);
        outcomes, body := SendDocument(job, response, socket, library);
        return HTTP_OK, outcomes, contentType, body;
      }
      code := if job.adfStatus != Good then HTTP_CONFLICT else HTTP_SERVICE_UNAVAILABLE;
    }
    response.status := code;
    contentType := SendStatus(response, socket);
  }

  /**
   * A request on a pending job whose next sheet does not start: the client
   * receives 409 if the feeder is empty, jammed or open and 503 otherwise, with
   * no body, and the job is over.
   */
  method AnswerFailedStart(job: ScanJob, response: Headers.Response, socket: FdBuf)
    returns (ghost contentType: string)
    requires job.Valid() && JobInv(job.View()) && job.state.Pending? && socket.Valid() && NeverFails(socket.script)
    requires Headers.Printable(response.headers.data) && Headers.Coding(response.headers.data) == ""
    requires Terminates(job.config) && job.scanner.sheets != []
    requires !job.scanner.sheets[0].start.Good? && !job.scanner.sheets[0].start.Eof?
    modifies job, job.scanner, response, response.headers, socket, socket.outbuf
    ensures Finished(job.View()) && job.session == null && job.images == old(job.images)
    ensures
      var s := old(job.scanner.sheets[0].start);
      var code := if s.NoDocs? || s.Jammed? || s.CoverOpen? then 409 else 503;
      && old(socket.Stream()) <= socket.fd
      && Receive(socket.fd[|old(socket.Stream())|..]) == Some(Delivery(code, contentType, "close", ""))
  {
    hide Receive, Next, Taken, NeverFails, Headers.Block, Headers.Entry, Headers.Coding, Delivered, Ending;
    ghost var j := job.View();
    ghost var outcomes, body;
    var code;
    code, outcomes, contentType, body := HandleNextDocument(job, response, socket, []);
    AsTheEncoderSays(job, outcomes);
    NaturalNext(job.config, j, outcomes);
    FirstStartFails(job.config, j, 0);
  }

  /**
   * The whole way of a multi-page scan. One request on a concat PDF job over
   * good sheets, through any pattern of short and interrupted writes: the job
   * completes, and the client receives status 200 and a PDF in which a reader
   * that follows the file's own offsets and references finds one page per
   * sheet, with exactly the lines of that sheet, if and only if the last object
   * starts below 10^10 and a page has less than 2^31 bytes.
   */
  method ScanWholeFeed(job: ScanJob, response: Headers.Response, socket: FdBuf)
    returns (code: nat, ghost body: string, ghost pictures: seq<Picture>)
    requires job.Valid() && JobInv(job.View()) && socket.Valid()
    requires Headers.Printable(response.headers.data) && Headers.Coding(response.headers.data) == ""
    requires job.kind.AdfConcat? && job.state.Pending? && job.config.format.Pdf?
    requires job.scanner.sheets != [] && GoodFeed(job.config, job.scanner.sheets) && NeverFails(socket.script)
    requires OneLiners(LayoutOf(EncoderSettings(job.config), job.texts.formats))
    modifies job, job.scanner, response, response.headers, socket, socket.outbuf
    ensures code == 200 && job.state.Completed? && job.session == null
    ensures job.images == |old(job.scanner.sheets)|
    ensures old(socket.Stream()) <= socket.fd
    ensures Receive(socket.fd[|old(socket.Stream())|..]) == Some(Delivery(200, "application/pdf", "close", body))
    ensures body == PdfOf(job, old(job.scanner.sheets))
    ensures ReadDocument(body) == Some(pictures) <==> SizesFit(job, old(job.scanner.sheets))
    ensures |pictures| == |old(job.scanner.sheets)|
    ensures forall i :: 0 <= i < |pictures| ==> Shows(job, old(job.scanner.sheets)[i], pictures[i])
  {
    hide Next, Receive, ReadDocument, Collect, EncodedLines, OneLiners, Taken, Ended, PdfOf, SizesFit, Shows;
    hide Headers.Coding, Headers.Entry;
    ghost var j, sheets := job.View(), job.scanner.sheets;
    ghost var outcomes, contentType;
    code, outcomes, contentType, body := HandleNextDocument(job, response, socket, []);
    AsTheEncoderSays(job, outcomes);
    NaturalNext(job.config, j, outcomes);
    WholeFeedInOne(job.config, j, 0);
    SheetDocument(job, sheets);
    SomeLines(job.config, sheets);
    pictures := PicturesOf(job, sheets);
    SheetsAreShown(job, sheets);
  }

  /**
   * The same for one sheet: each request on an adfSingle PDF job takes the next
   * good sheet and sends a document that shows this sheet alone.
   */
  method ScanNextSheet(job: ScanJob, response: Headers.Response, socket: FdBuf)
    returns (code: nat, ghost body: string, ghost picture: Picture)
    requires job.Valid() && JobInv(job.View()) && socket.Valid()
    requires Headers.Printable(response.headers.data) && Headers.Coding(response.headers.data) == ""
    requires job.kind.AdfSingle? && job.state.Pending? && job.config.format.Pdf?
    requires job.scanner.sheets != [] && GoodFeed(job.config, job.scanner.sheets[..1]) && NeverFails(socket.script)
    requires OneLiners(LayoutOf(EncoderSettings(job.config), job.texts.formats))
    modifies job, job.scanner, response, response.headers, socket, socket.outbuf
    ensures code == 200 && job.Valid() && JobInv(job.View()) && job.state.Pending?
    ensures job.images == old(job.images) + 1 && job.scanner.sheets == old(job.scanner.sheets[1..])
    ensures old(socket.Stream()) <= socket.fd
    ensures Receive(socket.fd[|old(socket.Stream())|..]) == Some(Delivery(200, "application/pdf", "close", body))
    ensures body == PdfOf(job, old(job.scanner.sheets[..1]))
    ensures ReadDocument(body) == Some([picture]) <==> SizesFit(job, old(job.scanner.sheets[..1]))
    ensures Shows(job, old(job.scanner.sheets[0]), picture)
  {
    hide Next, Receive, ReadDocument, Collect, EncodedLines, OneLiners, Taken, Ended, PdfOf, SizesFit, Shows;
    hide Headers.Coding, Headers.Entry;
    ghost var j, first := job.View(), job.scanner.sheets[..1];
    ghost var outcomes, contentType;
    code, outcomes, contentType, body := HandleNextDocument(job, response, socket, []);
    AsTheEncoderSays(job, outcomes);
    NaturalNext(job.config, j, outcomes);
    OneSheet(job.config, j);
    NextKeepsInv(job.config, j, outcomes);
    FirstSheetLines(job.config, j.device.sheets);
    SheetDocument(job, first);
    SomeLines(job.config, first);
    ghost var pictures := PicturesOf(job, first);
    SheetsAreShown(job, first);
    picture := pictures[0];
    assert pictures == [picture];
  }

  /** With a library that never fails and no line lost, the outcomes are the encoder's own. */
  lemma AsTheEncoderSays(job: ScanJob, outcomes: seq<Outcome>)
    requires job.Consistent([], outcomes) && Lost !in outcomes
    ensures AllNatural(job.config, 0, outcomes)
  {
    hide Accepts;
    forall i | 0 <= i < |outcomes|
      ensures outcomes[i] == Natural(job.config, i)
    {
      assert outcomes[i] in outcomes;
    }
  }

  /** The document over the lines of good sheets is that over one page per sheet. */
  lemma SheetDocument(job: ScanJob, sheets: seq<Sheet>)
    requires GoodFeed(job.config, sheets)
    ensures job.DocumentOf(AllLines(job.config, sheets)) == PdfOf(job, sheets)
  {
    hide Document, Ended, Collect, EncodedLines, SheetPages, AllLines;
    SheetStreams(job.config, job.prep, sheets);
    EndedWhole(LayoutOf(EncoderSettings(job.config), job.texts.formats), job.texts.info, job.texts.fileId,
               SheetPages(job.config, job.prep, sheets));
  }

  lemma FirstSheetLines(c: Config, sheets: seq<Sheet>)
    requires sheets != [] && GoodFeed(c, sheets[..1])
    ensures AllLines(c, sheets[..1]) == SheetLines(c, sheets[0])
  {
    hide WholeLines, LineSizesAgree;
    assert sheets[..1][1..] == [] && sheets[..1][0] == sheets[0];
  }

  lemma SomeLines(c: Config, sheets: seq<Sheet>)
    requires GoodFeed(c, sheets) && sheets != []
    ensures AllLines(c, sheets) != []
  {
    assert GoodSheet(c, sheets[0]);
  }
}
