/** The scan job object (server/scanjob.cpp), its encoder and its transfer loop. */
module ScanJobs {
  import opened Text
  import opened Sane
  import opened FdBuffer
  import opened Chunked
  import opened ImageEncoding
  import opened PdfFormat
  import opened PdfProgress
  import opened PdfEncoding
  import opened Pixels
  import opened JobModel

  /** What libjpeg or libpng does with a line: it may throw, and it may insert bytes into the stream. */
  datatype Library = Library(throws: bool, output: string)

  /** What the library does with line k; lines past the script are taken silently. */
  function LibraryAt(library: seq<Library>, k: nat): Library {
    if k < |library| then library[k] else Library(false, "")
  }

  /** Line k is taken: by the encoder's own checks and, for JPEG and PNG, by the library. */
  predicate Taken(f: Format, s: Settings, library: seq<Library>, k: nat) {
    Accepts(f, s, k) && (f.Pdf? || !LibraryAt(library, k).throws)
  }

  /**
   * The encoder finishTransfer chooses. Of the JPEG and PNG encoders the line
   * counting and their own checks are modelled; the bytes are the library's.
   */
  class LineEncoder {
    const format: Format
    const os: ChunkStream
    const base: ImageEncoder
    const pdf: PdfEncoder?
    const library: seq<Library>

    ghost predicate Valid()
      reads base, pdf, os, os.sink, os.sink.outbuf
    {
      && base.Valid() && os.Valid()
      && (format.Pdf? <==> pdf != null) && !format.OtherFormat?
      && (pdf != null ==> pdf.os == os && pdf.base == base && pdf.Valid())
    }

    constructor (format: Format, settings: Settings, texts: DocumentTexts, library: seq<Library>, os: ChunkStream)
      requires os.Valid() && !format.OtherFormat?
      ensures Valid() && this.format == format && this.os == os && base.settings == settings && base.written == 0
      ensures this.library == library
      ensures fresh(base) && (pdf != null ==> fresh(pdf) && pdf.lines == [])
      ensures pdf != null ==>
        pdf.layout == LayoutOf(settings, texts.formats) && pdf.info == texts.info && pdf.fileId == texts.fileId
    {
      this.format, this.library, this.os := format, library, os;
      if format.Pdf? {
        var encoder := new PdfEncoder(settings, texts.formats, texts.info, texts.fileId, os);
        pdf, base := encoder, encoder.base;
      } else {
        pdf := null;
        base := new ImageEncoder(settings);
      }
    }

    /** False where the encoder throws. */
    method WriteLine(line: string) returns (ok: bool)
      requires Valid() && os.good && |line| == BytesPerLine(base.settings)
      modifies base, pdf, os`buffer
      ensures Valid() && base.written == old(base.written) + if ok then 1 else 0
      ensures ok <==> Taken(format, base.settings, library, old(base.written))
      ensures pdf != null && ok ==> pdf.lines == old(pdf.lines) + [EncodedLine(base.settings.bits, line)]
      ensures pdf != null && ok ==> pdf.prefix == if old(pdf.lines) == [] then old(os.Payload()) else old(pdf.prefix)
      ensures pdf != null && !ok ==> pdf.lines == [] && os.Payload() == old(os.Payload())
      ensures pdf == null && Accepts(format, base.settings, old(base.written)) ==>
        os.Payload() == old(os.Payload()) + LibraryAt(library, old(base.written)).output
      ensures pdf == null && !Accepts(format, base.settings, old(base.written)) ==> os.Payload() == old(os.Payload())
    {
      hide Trace, HooksBefore, EncodeChunks, ImagesAfter, LinesAfter, BytesPerLine;
      if pdf != null {
        ok := pdf.WriteLine(line);
      } else {
        ok := WriteImageLine();
      }
    }

    /** The number of the next line, for looking up what the library does with it. */
    method LineNumber() returns (k: nat)
      requires base.Counts()
      ensures k == base.written
    {
      var h := base.settings.height;
      k := if h >= 1 then base.currentImage * h + base.currentLine else base.currentLine;
    }

    /** The hooks before a line of a JPEG or PNG file; a line that fails leaves none in the log. */
    method ImageHooks() returns (ok: bool)
      requires base.Valid() && (format.Jpeg? || format.Png?)
      modifies base`fired
      ensures ok <==> Accepts(format, base.settings, base.written)
      ensures if ok then base.Due() else base.Valid()
    {
      hide Trace, HooksBefore, ImagesAfter, LinesAfter;
      ghost var trace := base.fired;
      var documentBegin, imageBegin := base.BeforeLine();
      if documentBegin {
        base.Fired(DocumentBegin);
      }
      if imageBegin {
        var bits := base.settings.bits;
        if base.currentImage > 0 || (format.Jpeg? && bits != 8 && bits != 16) {
          base.fired := trace;
          return false;
        }
        base.Fired(ImageBegin);
      }
      assert base.fired == trace + HooksBefore(base.settings.height, base.written);
      ok := true;
    }

    /** A line of a JPEG or PNG file. */
    method WriteImageLine() returns (ok: bool)
      requires Valid() && os.good && pdf == null
      modifies base, os`buffer
      ensures Valid() && base.written == old(base.written) + if ok then 1 else 0
      ensures ok <==> Taken(format, base.settings, library, old(base.written))
      ensures os.Payload() == old(os.Payload()) +
        if Accepts(format, base.settings, old(base.written)) then LibraryAt(library, old(base.written)).output else ""
    {
      hide Trace, HooksBefore, EncodeChunks, Concat, ImagesAfter, LinesAfter, Accepts;
      ghost var trace := base.fired;
      var k := LineNumber();
      var result := LibraryAt(library, k);
      ok := ImageHooks();
      if !ok { return; }
      os.Write(result.output);
      if result.throws {
        base.fired := trace;
        return false;
      }
      base.Fired(Callback.WriteLine);
      var imageEnd := base.AfterLine();
      if imageEnd {
        base.Fired(ImageEnd);
      }
    }

    /** Flushing moves bytes on but changes nothing the encoder relies on. */
    method Flush() returns (ok: bool)
      requires Valid()
      modifies os, os.sink, os.sink.outbuf
      ensures Valid() && os.Payload() == old(os.Payload()) && ok == os.good
      ensures os.good ==> os.sinkGood
      ensures old(os.good && os.sinkGood) && NeverFails(old(os.sink.script)) ==> os.good
      ensures NeverFails(old(os.sink.script)) ==> NeverFails(os.sink.script)
    {
      hide Trace, EncodeChunks, PdfFormat.Texts, Defs, OpenObjects, Collect, BytesPerLine;
      ok := os.Flush();
    }

    method EndDocument()
      requires Valid()
      modifies pdf, os`buffer
      ensures os.Valid()
      ensures pdf != null && old(os.good && pdf.lines != []) ==>
        os.Payload() == old(pdf.prefix) +
          Ended(pdf.layout, pdf.info, pdf.fileId, Collect(base.settings.height, old(pdf.lines)))
    {
      if pdf != null {
        pdf.EndDocument();
      }
    }
  }

  /** Texts of the PDF that this model leaves open: formatted numbers, the info dictionary, the file id. */
  datatype DocumentTexts = DocumentTexts(formats: Formats, info: string, fileId: string)

  // ---- a line on its way to the encoder ------------------------------------

  /** The job's bit depth, its gamma table, and what lies behind the line buffer in memory. */
  datatype Preparation = Preparation(bitDepth: nat, gamma: seq<nat>, stray: nat -> char)

  /** Gamma, then gray if it is synthesized; the encoder gets what the buffer then starts with. */
  function PreparedLine(c: Config, prep: Preparation, raw: string): string
  {
    var line := Gamma(prep.gamma, raw);
    if !Synthesizes(c) then line
    else if prep.bitDepth == 8 then GrayLine(Bits8, line, prep.stray)
    else if prep.bitDepth == 16 then GrayLine(Bits16, line, prep.stray)
    else line[..|line| / 3]
  }

  /** The lines a document is made of, for the raw lines read. */
  function EncodedLines(c: Config, prep: Preparation, raws: seq<string>): (r: seq<string>)
    ensures |r| == |raws|
    ensures forall i :: 0 <= i < |raws| ==>
      r[i] == EncodedLine(c.params.depth, PreparedLine(c, prep, raws[i]))
  {
    seq(|raws|, i requires 0 <= i < |raws| => EncodedLine(c.params.depth, PreparedLine(c, prep, raws[i])))
  }

  lemma EncodedSnoc(c: Config, prep: Preparation, raws: seq<string>, raw: string)
    ensures EncodedLines(c, prep, raws + [raw]) ==
            EncodedLines(c, prep, raws) + [EncodedLine(c.params.depth, PreparedLine(c, prep, raw))]
  {
  }

  method PrepareLine(c: Config, prep: Preparation, buffer: array<char>) returns (line: string)
    requires buffer.Length == c.params.bytesPerLine && LineSizesAgree(c)
    modifies buffer
    ensures line == PreparedLine(c, prep, old(buffer[..]))
    ensures |line| == BytesPerLine(EncoderSettings(c))
  {
    hide Gamma, GrayLine, BytesPerLine;
    ApplyGamma(prep.gamma, buffer);
    if Synthesizes(c) {
      if prep.bitDepth == 8 {
        SynthesizeGray(Bits8, buffer, prep.stray);
      } else if prep.bitDepth == 16 {
        SynthesizeGray(Bits16, buffer, prep.stray);
      }
      line := buffer[..buffer.Length / 3];
    } else {
      line := buffer[..];
    }
  }

  class ScanJob {
    const kind: Kind
    const config: Config
    const prep: Preparation
    const texts: DocumentTexts
    const scanner: Session      // the device behind every session of this job
    var state: State
    var reason: Reason
    var adfStatus: Status
    var images: nat
    var session: Session?

    ghost predicate Valid()
      reads this
    {
      session == null || session == scanner
    }

    /** The job as a value. */
    ghost function View(): Job
      reads this, scanner
    {
      Job(kind, state, reason, adfStatus, images, session != null,
          Device(scanner.sheets, Delivered(scanner.frame), Ending(scanner.frame)))
    }

    constructor (kind: Kind, config: Config, prep: Preparation, texts: DocumentTexts, scanner: Session, err: bool)
      ensures Valid() && this.kind == kind && this.config == config && this.scanner == scanner
      ensures this.prep == prep && this.texts == texts
      ensures View() == Job(kind, if err then Aborted else Pending, if err then InvalidScanTicket else JobQueued,
        Good, 0, false, Device(scanner.sheets, Delivered(scanner.frame), Ending(scanner.frame)))
    {
      this.kind, this.config, this.prep, this.texts := kind, config, prep, texts;
      this.scanner, session := scanner, null;
      state := if err then Aborted else Pending;
      reason := if err then InvalidScanTicket else JobQueued;
      adfStatus, images := Good, 0;
    }

    method CloseSession()
      requires Valid()
      modifies this`session
      ensures Valid() && View() == JobModel.CloseSession(old(View()))
    {
      session := null;
    }

    method SetState(s: State, r: Reason)
      modifies this`state, this`reason
      ensures state == s && reason == r
    {
      state, reason := s, r;
    }

    method UpdateStatus(status: Status)
      requires Valid() && session != null
      modifies this, scanner
      ensures Valid() && View() == JobModel.UpdateStatus(old(View()), status)
      decreases |scanner.sheets|, status.Eof?
    {
      adfStatus := Good;
      match status {
        case Good => SetState(Processing, JobScanning);
        case Inval => SetState(Aborted, InvalidScanTicket);
        case DeviceBusy => SetState(Aborted, ResourcesAreNotReady);
        case IoError => SetState(Aborted, ResourcesAreNotReady);
        case NoMem => SetState(Aborted, ResourcesAreNotReady);
        case AccessDenied => SetState(Aborted, DocumentPermissionError);
        case Jammed =>
          SetState(Aborted, ResourcesAreNotReady);
          adfStatus := status;
        case CoverOpen =>
          SetState(Aborted, ResourcesAreNotReady);
          adfStatus := status;
        case Cancelled => SetState(Aborted, JobCanceledByUser);
        case Eof =>
          match kind {
            case Single =>
              if images > 0 {
                SetState(Completed, JobCompletedSuccessfully);
              } else {
                SetState(Pending, NoReason);
              }
              CloseSession();
            case AdfSingle => SetState(Pending, NoReason);
            case AdfConcat =>
              var next := session.Start();
              UpdateStatus(next);
          }
        case NoDocs =>
          if images > 0 && !kind.Single? {
            SetState(Completed, JobCompletedSuccessfully);
          } else {
            SetState(Aborted, ResourcesAreNotReady);
          }
          adfStatus := status;
          CloseSession();
        case Unsupported => SetState(Aborted, ErrorsDetected);
      }
      if state.Aborted? {
        CloseSession();
      }
    }

    /** beginTransfer. The result of opening the device is not looked at, as in the source. */
    method BeginTransfer() returns (ok: bool)
      requires Valid()
      modifies this, scanner
      ensures Valid() && (View(), ok) == Begin(old(View()))
    {
      if state != Pending {
        return false;
      }
      state := Processing;
      if session == null {
        session := scanner;
      }
      var status := session.Start();
      UpdateStatus(status);
      ok := state.Processing?;
      if !ok {
        CloseSession();
      }
    }

    method Cancel()
      requires Valid()
      modifies this
      ensures Valid() && View() == JobModel.Cancel(old(View()))
    {
      SetState(Canceled, JobCanceledByUser);
      CloseSession();
    }

    // ---- finishTransfer ----------------------------------------------------

    /** The lines the encoder got for the raw lines read. */
    ghost function Encoded(raws: seq<string>): seq<string> {
      EncodedLines(config, prep, raws)
    }

    /** Encoder and stream are where a transfer with these lines is. */
    ghost predicate Encodes(e: LineEncoder, lines: seq<string>, good: bool, start: string)
      reads e.base, e.pdf, e.os, e.os.sink, e.os.sink.outbuf
    {
      && e.Valid() && e.format == config.format && e.base.settings == EncoderSettings(config)
      && e.os.good == good && e.base.written == |lines|
      && (e.pdf == null ==> start <= e.os.Payload())
      && (e.pdf != null ==> e.pdf.lines == Encoded(lines))
      && (e.pdf != null && lines == [] ==> e.os.Payload() == start)
      && (e.pdf != null && lines != [] ==> e.pdf.prefix == start)
    }

    /** Job, encoder and stream are where the transfer as a value is. */
    ghost predicate Tracks(e: LineEncoder, t: Transfer, start: string)
      reads this, scanner, e.base, e.pdf, e.os, e.os.sink, e.os.sink.outbuf
    {
      Valid() && View() == t.job && Encodes(e, t.lines, t.good, start)
    }

    lemma EncoderCounts(e: LineEncoder, t: Transfer, start: string)
      requires Tracks(e, t, start)
      ensures e.base.Valid() && e.base.written == |t.lines| && e.base.settings.height == config.params.lines
      ensures e.os.good == t.good
    {
    }

    /** The encoder takes a prepared line and the stream is flushed. */
    method Encode(e: LineEncoder, line: string, ghost raw: string, ghost lines: seq<string>, ghost start: string)
      returns (ok: bool, ghost outcome: Outcome)
      requires Encodes(e, lines, true, start)
      requires line == PreparedLine(config, prep, raw) && |line| == BytesPerLine(EncoderSettings(config))
      modifies e.base, e.pdf, e.os, e.os.sink, e.os.sink.outbuf
      ensures ok <==> outcome.Sent?
      ensures Encodes(e, if outcome.Rejected? then lines else lines + [raw], !outcome.Lost?, start)
      ensures old(e.os.sinkGood) && NeverFails(old(e.os.sink.script)) ==>
        e.os.sinkGood && NeverFails(e.os.sink.script) && !outcome.Lost?
      ensures outcome.Rejected? <==> !Taken(config.format, EncoderSettings(config), e.library, |lines|)
    {
      hide PreparedLine, EncodedLine, EncodedLines, Trace, BytesPerLine, EncodeChunks;
      hide PdfFormat.Texts, Defs, OpenObjects, Collect;
      EncodedSnoc(config, prep, lines, raw);
      ok := e.WriteLine(line);
      outcome := if ok then Sent else Rejected;
      if ok {
        ok := e.Flush();
        outcome := if ok then Sent else Lost;
      }
    }

    /** Where the encoder throws or the stream fails, the job is aborted and its session closed. */
    method HandOver(e: LineEncoder, line: string, ghost raw: string, ghost t: Transfer, ghost start: string)
      returns (ghost outcome: Outcome)
      requires Tracks(e, t, start) && t.good
      requires line == PreparedLine(config, prep, raw) && |line| == BytesPerLine(EncoderSettings(config))
      modifies this, e.base, e.pdf, e.os, e.os.sink, e.os.sink.outbuf
      ensures Tracks(e, Handed(t, raw, outcome), start)
      ensures old(e.os.sinkGood) && NeverFails(old(e.os.sink.script)) ==>
        e.os.sinkGood && NeverFails(e.os.sink.script) && !outcome.Lost?
      ensures outcome.Rejected? <==> !Taken(config.format, EncoderSettings(config), e.library, |t.lines|)
    {
      hide Encodes, Delivered, Ending, PreparedLine, BytesPerLine;
      var ok;
      ok, outcome := Encode(e, line, raw, t.lines, start);
      if !ok {
        SetState(Aborted, ErrorsDetected);
        CloseSession();
      }
    }

    /** One pass of the inner loop: reads a line, prepares it and hands it over. */
    method TransferLine(e: LineEncoder, buffer: array<char>, ghost t: Transfer, ghost start: string)
      returns (status: Status, ghost outcome: Outcome)
      requires Tracks(e, t, start) && t.job.state.Processing? && t.good && session != null
      requires buffer.Length == config.params.bytesPerLine && buffer != e.os.sink.outbuf
      requires LineSizesAgree(config)
      modifies this, scanner, buffer, e.base, e.pdf, e.os, e.os.sink, e.os.sink.outbuf
      ensures status.Good? <==> |t.job.device.bytes| >= config.params.bytesPerLine
      ensures status.Good? ==> Tracks(e, SendLine(config, t, outcome), start)
      ensures !status.Good? ==> status == t.job.device.ending
      ensures !status.Good? ==>
        Tracks(e, FrameOver(t), start)
      ensures old(e.os.sinkGood) && NeverFails(old(e.os.sink.script)) ==>
        e.os.sinkGood && NeverFails(e.os.sink.script) && !(status.Good? && outcome.Lost?)
      ensures status.Good? ==>
        (outcome.Rejected? <==> !Taken(config.format, EncoderSettings(config), e.library, |t.lines|))
    {
      hide Delivered, Ending, PreparedLine, EncodedLine, Trace, BytesPerLine;
      hide PdfFormat.Texts, Defs, OpenObjects, Collect;
      outcome := Sent;
      EmptyFrame();
      status := session.Read(buffer);
      if !status.Good? { return; }
      ghost var raw, d, n := buffer[..], t.job.device, config.params.bytesPerLine;
      assert raw == d.bytes[..n] && Delivered(scanner.frame) == d.bytes[n..];
      var line := PrepareLine(config, prep, buffer);
      outcome := HandOver(e, line, raw, t.(job := t.job.(device := d.(bytes := d.bytes[n..]))), start);
    }

    /** After a read that failed: the page is counted, the status followed, the encoder checked. */
    method FinishPage(e: LineEncoder, status: Status, ghost t: Transfer, ghost start: string)
      requires Tracks(e, t, start) && session != null
      modifies this, scanner
      ensures Tracks(e, EndPage(config, t, status), start)
    {
      hide Encodes, Delivered, Ending, LinesAfter, Trace, JobModel.UpdateStatus;
      EncoderCounts(e, t, start);
      images := images + 1;
      UpdateStatus(status);
      var left := e.base.LinesLeftInCurrentImage();
      if left != e.base.settings.height {
        SetState(Aborted, ErrorsDetected);
      }
    }

    /** The lines rejected are exactly those the encoder or its library does not take. */
    ghost predicate Consistent(library: seq<Library>, outcomes: seq<Outcome>) {
      forall k :: 0 <= k < |outcomes| ==>
        (outcomes[k].Rejected? <==> !Taken(config.format, EncoderSettings(config), library, k))
    }

    /** The frame has ended: what is left of the device's state. */
    ghost function FrameOver(t: Transfer): Transfer {
      t.(job := t.job.(device := t.job.device.(bytes := "", ending := Eof)))
    }

    /** The inner loop, seen from the start of the transfer. */
    method TransferLines(
      e: LineEncoder, ghost t0: Transfer, ghost before: seq<Outcome>, ghost t: Transfer, ghost start: string)
      returns (status: Status, ghost outcomes: seq<Outcome>, ghost r: Transfer)
      requires Tracks(e, t, start) && t.job.state.Processing? && session != null
      requires LineSizesAgree(config)
      requires Runnable(config, t0) && Runnable(config, t) && Leads(config, t0, before, t)
      requires |before| == |t.lines| && Consistent(e.library, before)
      modifies this, scanner, e.base, e.pdf, e.os, e.os.sink, e.os.sink.outbuf
      ensures Runnable(config, r) && Leads(config, t0, outcomes, r) && (r.good || Lost in outcomes)
      ensures r.job.device.sheets == t.job.device.sheets
      ensures status.Good? ==> Tracks(e, r, start) && !r.job.state.Processing?
      ensures !status.Good? ==>
        && r.job.state.Processing? && session != null && status == r.job.device.ending
        && |r.job.device.bytes| < config.params.bytesPerLine && Tracks(e, FrameOver(r), start)
      ensures old(e.os.sinkGood) && NeverFails(old(e.os.sink.script)) && Lost !in before ==>
        e.os.sinkGood && NeverFails(e.os.sink.script) && Lost !in outcomes
      ensures Consistent(e.library, outcomes) && (r.job.state.Processing? ==> |outcomes| == |r.lines|)
    {
      hide Encodes, Leads, Run, Delivered, Ending, AtBoundary, JobModel.UpdateStatus, Accepts;
      hide EncoderRefuses, FirstRefusal;
      EncoderCounts(e, t, start);
      var buffer := new char[config.params.bytesPerLine];
      status := Good;
      outcomes, r := before, t;
      while status.Good? && e.os.good && state.Processing?
        invariant Runnable(config, r) && Leads(config, t0, outcomes, r) && (r.good || Lost in outcomes)
        invariant r.job.device.sheets == t.job.device.sheets
        invariant r.job.state.Processing? ==> session != null
        invariant status.Good? ==> Tracks(e, r, start) && e.os.good == r.good
        invariant !status.Good? ==>
          && r.job.state.Processing? && status == r.job.device.ending
          && |r.job.device.bytes| < config.params.bytesPerLine && Tracks(e, FrameOver(r), start)
        invariant old(e.os.sinkGood) && NeverFails(old(e.os.sink.script)) && Lost !in before ==>
          e.os.sinkGood && NeverFails(e.os.sink.script) && Lost !in outcomes
        invariant Consistent(e.library, outcomes) && (r.job.state.Processing? ==> |outcomes| == |r.lines|)
        decreases status.Good?, state.Processing?, |r.job.device.bytes|, ToRefusal(config, r)
      {
        ghost var outcome;
        status, outcome := TransferLine(e, buffer, r, start);
        if status.Good? {
          LeadsLine(config, t0, outcomes, r, outcome);
          outcomes, r := outcomes + [outcome], SendLine(config, r, outcome);
          EncoderCounts(e, r, start);
        }
      }
    }

    /** One pass of the outer loop, seen from the start of the transfer. */
    method TransferPage(
      e: LineEncoder, ghost t0: Transfer, ghost before: seq<Outcome>, ghost t: Transfer, ghost start: string)
      returns (ghost outcomes: seq<Outcome>, ghost r: Transfer)
      requires Tracks(e, t, start) && t.job.state.Processing? && session != null
      requires LineSizesAgree(config)
      requires Runnable(config, t0) && Runnable(config, t) && Leads(config, t0, before, t)
      requires |before| == |t.lines| && Consistent(e.library, before)
      modifies this, scanner, e.base, e.pdf, e.os, e.os.sink, e.os.sink.outbuf
      ensures Tracks(e, r, start) && Runnable(config, r) && Leads(config, t0, outcomes, r)
      ensures r.good || Lost in outcomes
      ensures r.job.state.Processing? ==> session != null && |r.job.device.sheets| < |t.job.device.sheets|
      ensures old(e.os.sinkGood) && NeverFails(old(e.os.sink.script)) && Lost !in before ==>
        e.os.sinkGood && NeverFails(e.os.sink.script) && Lost !in outcomes
      ensures Consistent(e.library, outcomes) && (r.job.state.Processing? ==> |outcomes| == |r.lines|)
    {
      hide Encodes, Leads, Run, Delivered, Ending, AtBoundary, JobModel.UpdateStatus, Taken, NeverFails, LineSizesAgree;
      hide EncoderRefuses, FirstRefusal;
      var status;
      status, outcomes, r := TransferLines(e, t0, before, t, start);
      if state.Processing? {
        ghost var over := FrameOver(r);
        LeadsPage(config, t0, outcomes, r);
        r := PageOver(config, r);
        FinishPage(e, status, over, start);
      }
    }

    /** The outer loop. */
    method TransferPages(e: LineEncoder, ghost t0: Transfer, ghost start: string)
      returns (ghost outcomes: seq<Outcome>, ghost t: Transfer)
      requires Tracks(e, t0, start) && Runnable(config, t0) && t0.good
      requires t0.job.state.Processing? ==> session != null && LineSizesAgree(config)
      requires t0.lines == []
      modifies this, scanner, e.base, e.pdf, e.os, e.os.sink, e.os.sink.outbuf
      ensures Tracks(e, t, start) && Run(config, t0, outcomes) == t
      ensures t.good || Lost in outcomes
      ensures old(e.os.sinkGood) && NeverFails(old(e.os.sink.script)) ==>
        e.os.sinkGood && NeverFails(e.os.sink.script) && Lost !in outcomes
      ensures Consistent(e.library, outcomes)
    {
      hide Encodes, Leads, Run, Delivered, Ending, LineSizesAgree, Taken;
      outcomes, t := [], t0;
      LeadsFirst(config, t0);
      while state.Processing?
        invariant Tracks(e, t, start) && Runnable(config, t) && Leads(config, t0, outcomes, t)
        invariant t.good || Lost in outcomes
        invariant t.job.state.Processing? ==> session != null && LineSizesAgree(config)
        invariant old(e.os.sinkGood) && NeverFails(old(e.os.sink.script)) ==>
          e.os.sinkGood && NeverFails(e.os.sink.script) && Lost !in outcomes
        invariant Consistent(e.library, outcomes) && (t.job.state.Processing? ==> |outcomes| == |t.lines|)
        decreases state.Processing?, |scanner.sheets|
      {
        outcomes, t := TransferPage(e, t0, outcomes, t, start);
      }
      LeadsToEnd(config, t0, outcomes, t);
    }

    /** The document this job's texts and settings make of the lines read. */
    ghost function DocumentOf(lines: seq<string>): string {
      Ended(LayoutOf(EncoderSettings(config), texts.formats), texts.info, texts.fileId,
            Collect(config.params.lines, Encoded(lines)))
    }

    method EndTransfer(e: LineEncoder, ghost lines: seq<string>, ghost good: bool, ghost start: string)
      requires Encodes(e, lines, good, start)
      requires e.pdf != null ==> e.pdf.layout == LayoutOf(EncoderSettings(config), texts.formats)
      requires e.pdf != null ==> e.pdf.info == texts.info && e.pdf.fileId == texts.fileId
      modifies e.pdf, e.os`buffer
      ensures e.os.Valid()
      ensures e.pdf != null && e.os.good && lines != [] ==> e.os.Payload() == start + DocumentOf(lines)
    {
      hide Ended, PreparedLine, EncodedLine, Trace, Collect, OpenObjects, LinesAfter;
      e.EndDocument();
    }

    /**
     * finishTransfer. The job ends as the model says for the outcomes the lines
     * met, and the lines rejected are exactly those the encoder does not take.
     * On a good stream a PDF job has inserted exactly the document over the
     * lines read, also if the transfer was aborted inside a page.
     */
    method FinishTransfer(os: ChunkStream, library: seq<Library>) returns (ghost outcomes: seq<Outcome>)
      requires Valid() && os.Valid() && os.good && (state.Processing? ==> session != null)
      requires Terminates(config)
      modifies this, scanner, os, os.sink, os.sink.outbuf
      ensures Valid() && os.Valid()
      ensures DeviceEnds(old(View()).device) && View() == Finish(config, old(View()), outcomes).job
      ensures
        var lines := Finish(config, old(View()), outcomes).lines;
        config.format.Pdf? && os.good && lines != [] ==> os.Payload() == old(os.Payload()) + DocumentOf(lines)
      ensures old(os.sinkGood) && NeverFails(old(os.sink.script)) ==>
        os.good && os.sinkGood && NeverFails(os.sink.script) && Lost !in outcomes
      ensures Consistent(library, outcomes)
    {
      hide Encodes, DocumentOf, AtBoundary, Leads, Run, Delivered, Ending, EncodeChunks, LineSizesAgree, Taken;
      hide Trace, Collect, OpenObjects, PdfFormat.Texts, Defs, BytesPerLine, ImagesAfter, LinesAfter, LayoutOf;
      ghost var start, t0 := os.Payload(), Prepare(config, View(), true);
      ghost var t;
      outcomes := [];
      LeadsFirst(config, t0);
      if state.Processing? && config.format.OtherFormat? {
        SetState(Aborted, UnsupportedDocumentFormat);
      }
      if !state.Processing? {
        LeadsToEnd(config, t0, [], t0);
        return;
      }
      var e := new LineEncoder(config.format, EncoderSettings(config), texts, library, os);
      NothingEncoded(e, start);
      if !LineSizesAgree(config) {
        SetState(Aborted, ErrorsDetected);
      }
      outcomes, t := TransferPages(e, t0, start);
      EncoderCounts(e, t, start);
      EndTransfer(e, t.lines, t.good, start);
    }

    lemma NothingEncoded(e: LineEncoder, start: string)
      requires e.Valid() && e.format == config.format && e.base.written == 0
      requires e.base.settings == EncoderSettings(config)
      requires e.os.Payload() == start && e.os.good && (e.pdf != null ==> e.pdf.lines == [])
      ensures Encodes(e, [], true, start)
    {
    }
  }

  lemma EmptyFrame()
    ensures Delivered([]) == "" && Ending([]) == Eof
  {
  }
}
