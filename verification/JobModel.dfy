/**
 * Scan jobs as values (server/scanjob.cpp): the five states, the three kinds,
 * the session, and every step of a transfer as a function of the job, of what
 * the backend does and of what becomes of each line that is sent.
 */
module JobModel {
  import opened Arithmetic
  import opened Sane
  import opened ImageEncoding

  datatype State = Aborted | Canceled | Completed | Pending | Processing
  datatype Kind = Single | AdfSingle | AdfConcat
  datatype Reason =
    | NoReason | JobQueued | JobScanning | JobCompletedSuccessfully | JobCanceledByUser | InvalidScanTicket
    | ResourcesAreNotReady | DocumentPermissionError | UnsupportedDocumentFormat | ErrorsDetected

  /** What the device will do: start calls to come, and the rest of the current frame. */
  datatype Device = Device(sheets: seq<Sheet>, bytes: string, ending: Status)

  datatype Job = Job(
    kind: Kind, state: State, reason: Reason, adfStatus: Status,
    images: nat, open: bool, device: Device)

  predicate Finished(j: Job) {
    j.state.Aborted? || j.state.Canceled? || j.state.Completed?
  }

  function Start(d: Device): (r: (Device, Status))
    ensures d.sheets != [] ==> |r.0.sheets| < |d.sheets|
    ensures d.sheets == [] ==> r.1 == NoDocs && r.0.sheets == []
  {
    if d.sheets == [] then (Device([], "", Eof), NoDocs)
    else
      var sheet := d.sheets[0];
      (Device(d.sheets[1..], Delivered(sheet.frame), Ending(sheet.frame)), sheet.start)
  }

  function CloseSession(j: Job): Job {
    j.(open := false)
  }

  function Abort(j: Job, reason: Reason): Job {
    j.(state := Aborted, reason := reason)
  }

  /** updateStatus: a page-end in a concat job starts the next sheet and looks again. */
  function UpdateStatus(j: Job, status: Status): (r: Job)
    ensures r.state.Processing? && !status.Good? ==> |r.device.sheets| < |j.device.sheets|
    ensures |r.device.sheets| <= |j.device.sheets|
    ensures r.state.Aborted? ==> !r.open
    ensures r.state.Processing? ==> r.open == j.open
    decreases |j.device.sheets|, status.Eof?
  {
    var j := j.(adfStatus := Good);
    match status
    case Good => j.(state := Processing, reason := JobScanning)
    case Inval => CloseSession(Abort(j, InvalidScanTicket))
    case DeviceBusy => CloseSession(Abort(j, ResourcesAreNotReady))
    case IoError => CloseSession(Abort(j, ResourcesAreNotReady))
    case NoMem => CloseSession(Abort(j, ResourcesAreNotReady))
    case AccessDenied => CloseSession(Abort(j, DocumentPermissionError))
    case Jammed => CloseSession(Abort(j, ResourcesAreNotReady).(adfStatus := Jammed))
    case CoverOpen => CloseSession(Abort(j, ResourcesAreNotReady).(adfStatus := CoverOpen))
    case Cancelled => CloseSession(Abort(j, JobCanceledByUser))
    case Eof =>
      (match j.kind
       case Single =>
         CloseSession(if j.images > 0 then j.(state := Completed, reason := JobCompletedSuccessfully)
                      else j.(state := Pending, reason := NoReason))
       case AdfSingle => j.(state := Pending, reason := NoReason)
       case AdfConcat =>
         var (device, next) := Start(j.device);
         UpdateStatus(j.(device := device), next))
    case NoDocs =>
      CloseSession(
        (if j.images > 0 && !j.kind.Single? then j.(state := Completed, reason := JobCompletedSuccessfully)
         else Abort(j, ResourcesAreNotReady)).(adfStatus := NoDocs))
    case Unsupported => CloseSession(Abort(j, ErrorsDetected))
  }

  /** beginTransfer: only a pending job is claimed; the session is reused or opened. */
  function Begin(j: Job): (Job, bool) {
    if !j.state.Pending? then (j, false)
    else
      var (device, status) := Start(j.device);
      var r := UpdateStatus(j.(state := Processing, open := true, device := device), status);
      if r.state.Processing? then (r, true) else (CloseSession(r), false)
  }

  function Cancel(j: Job): Job {
    CloseSession(j.(state := Canceled, reason := JobCanceledByUser))
  }

  // ---- finishTransfer ------------------------------------------------------

  datatype Format = Pdf | Jpeg | Png | OtherFormat(mimeType: string)

  /** What sane_get_parameters reports; the same for every page of a transfer. */
  datatype Parameters = Parameters(pixelsPerLine: nat, lines: int, depth: nat, bytesPerLine: nat)

  datatype Config = Config(format: Format, colorScan: bool, synthesizeGray: bool, dpi: int, params: Parameters)

  function EncoderSettings(c: Config): Settings {
    Settings(c.params.pixelsPerLine, c.params.lines, c.params.depth, c.dpi, if c.colorScan then RGB else Grayscale)
  }

  predicate Synthesizes(c: Config) {
    !c.colorScan && c.synthesizeGray
  }

  /** The encoder takes as many bytes per line as the device, or a third of them, delivers. */
  predicate LineSizesAgree(c: Config) {
    BytesPerLine(EncoderSettings(c)) ==
    if Synthesizes(c) then c.params.bytesPerLine / 3 else c.params.bytesPerLine
  }

  /**
   * The checks an encoder makes itself before it takes a line, after k lines: a
   * PDF needs a resolution, JPEG and PNG files hold one image, and JPEG has 8
   * or 16 bits.
   */
  predicate Accepts(f: Format, s: Settings, k: nat) {
    match f
    case Pdf => k > 0 || s.dpi != 0
    case Jpeg => LinesAfter(s.height, k) == 0 ==> ImagesAfter(s.height, k) == 0 && (s.bits == 8 || s.bits == 16)
    case Png => LinesAfter(s.height, k) == 0 ==> ImagesAfter(s.height, k) == 0
    case OtherFormat(_) => true
  }

  /** What became of a line: sent, rejected by the encoder, or lost with the stream. */
  datatype Outcome = Sent | Rejected | Lost

  /** A transfer under way: the job, the lines handed to the encoder, and the stream's state. */
  datatype Transfer = Transfer(job: Job, lines: seq<string>, good: bool)

  /** What becomes of line k if neither the socket nor an image library fails. */
  function Natural(c: Config, k: nat): Outcome {
    if Accepts(c.format, EncoderSettings(c), k) then Sent else Rejected
  }

  /** The part of finishTransfer before its loop. */
  function Prepare(c: Config, j: Job, good: bool): Transfer {
    var r :=
      if !j.state.Processing? then j
      else if c.format.OtherFormat? then Abort(j, UnsupportedDocumentFormat)
      else if !LineSizesAgree(c) then Abort(j, ErrorsDetected)
      else j;
    Transfer(r, [], good)
  }

  /** The encoder is between two images. */
  predicate AtBoundary(c: Config, lines: seq<string>) {
    LinesAfter(c.params.lines, |lines|) == 0
  }

  /** The end of a page: count it, follow the device's status, and check the encoder. */
  function EndPage(c: Config, t: Transfer, status: Status): Transfer {
    var j := UpdateStatus(t.job.(images := t.job.images + 1), status);
    t.(job := if AtBoundary(c, t.lines) then j else Abort(j, ErrorsDetected))
  }

  /** A read that fails ends the frame, and with it the page. */
  function PageOver(c: Config, t: Transfer): Transfer {
    var d := t.job.device;
    EndPage(c, t.(job := t.job.(device := Device(d.sheets, "", Eof))), d.ending)
  }

  /** A line handed to the encoder and flushed; any failure aborts the job. */
  function Handed(t: Transfer, line: string, outcome: Outcome): Transfer {
    match outcome
    case Sent => t.(lines := t.lines + [line])
    case Rejected => t.(job := CloseSession(Abort(t.job, ErrorsDetected)))
    case Lost => Transfer(CloseSession(Abort(t.job, ErrorsDetected)), t.lines + [line], false)
  }

  /** One scan line: read, and handed on. */
  function SendLine(c: Config, t: Transfer, outcome: Outcome): Transfer
    requires |t.job.device.bytes| >= c.params.bytesPerLine
  {
    var d, n := t.job.device, c.params.bytesPerLine;
    Handed(t.(job := t.job.(device := d.(bytes := d.bytes[n..]))), d.bytes[..n], outcome)
  }

  /** One step of the transfer loop. On a bad stream no line is read and the status stays Good. */
  function Step(c: Config, t: Transfer, outcome: Outcome): Transfer {
    if !t.good then EndPage(c, t, Good)
    else if |t.job.device.bytes| >= c.params.bytesPerLine then SendLine(c, t, outcome)
    else PageOver(c, t)
  }

  /** What becomes of the next line: rejected if the encoder's checks fail, else the outcome given, else sent. */
  function NextOutcome(c: Config, t: Transfer, outcomes: seq<Outcome>): Outcome {
    if Natural(c, |t.lines|).Rejected? || outcomes == [] then Natural(c, |t.lines|) else outcomes[0]
  }

  /** The outcomes left after a step; only a line takes one. */
  function RestOutcomes(c: Config, t: Transfer, outcomes: seq<Outcome>): seq<Outcome> {
    if outcomes == [] || |t.job.device.bytes| < c.params.bytesPerLine then outcomes else outcomes[1..]
  }

  /** The transfer loop, for as long as the job is processing. */
  function Run(c: Config, t: Transfer, outcomes: seq<Outcome>): (r: Transfer)
    requires Runnable(c, t)
    ensures !r.job.state.Processing?
    decreases t.job.state.Processing?, |t.job.device.sheets|, |t.job.device.bytes|, ToRefusal(c, t)
  {
    if !t.job.state.Processing? then t
    else
      var outcome := NextOutcome(c, t, outcomes);
      StepRuns(c, t, outcomes);
      Run(c, Step(c, t, outcome), RestOutcomes(c, t, outcomes))
  }

  /** The loop will not go round for ever: it uses up bytes, or the encoder will refuse a line. */
  predicate Runnable(c: Config, t: Transfer) {
    && DeviceEnds(t.job.device)
    && (t.job.state.Processing? ==> t.good)
    && (t.job.state.Processing? ==>
         c.params.bytesPerLine >= 1 || (EncoderRefuses(c) && |t.lines| <= FirstRefusal(c)))
  }

  /** The encoder refuses some line sooner or later, even if all of them are empty. */
  predicate EncoderRefuses(c: Config) {
    match c.format
    case Pdf => c.dpi == 0
    case Jpeg => (c.params.depth != 8 && c.params.depth != 16) || c.params.lines >= 1
    case Png => c.params.lines >= 1
    case OtherFormat(_) => false
  }

  /** Which line it is: the first one, or that of a second image. */
  function FirstRefusal(c: Config): nat {
    if c.format.Pdf? || (c.format.Jpeg? && c.params.depth != 8 && c.params.depth != 16) || c.params.lines < 1 then 0
    else c.params.lines
  }

  function ToRefusal(c: Config, t: Transfer): nat {
    if |t.lines| <= FirstRefusal(c) then FirstRefusal(c) - |t.lines| else 0
  }

  lemma RefusalIsFirst(c: Config)
    ensures EncoderRefuses(c) ==> Natural(c, FirstRefusal(c)).Rejected?
    ensures EncoderRefuses(c) ==> forall k: nat :: k < FirstRefusal(c) ==> Natural(c, k).Sent?
    ensures !EncoderRefuses(c) ==> forall k: nat :: Natural(c, k).Sent?
  {
    var h := c.params.lines;
    FirstLine(h, 0);
    if h >= 1 {
      QuotientUnique(h, 1, 0);
      forall k: nat | k < h
        ensures LinesAfter(h, k) == k && ImagesAfter(h, k) == 0
      {
        QuotientUnique(h, 0, k);
      }
    }
  }

  /** Every transfer of this configuration ends, on a stream that is good on entry. */
  predicate Terminates(c: Config) {
    c.format.OtherFormat? || !LineSizesAgree(c) || c.params.bytesPerLine >= 1 || EncoderRefuses(c)
  }

  /** The current frame ends with a failing read. */
  predicate DeviceEnds(d: Device) {
    !d.ending.Good?
  }

  lemma {:induction false} UpdateKeepsDevice(j: Job, status: Status)
    requires DeviceEnds(j.device)
    ensures DeviceEnds(UpdateStatus(j, status).device)
    decreases |j.device.sheets|, status.Eof?
  {
    if status.Eof? && j.kind.AdfConcat? {
      var (device, next) := Start(j.device);
      UpdateKeepsDevice(j.(adfStatus := Good, device := device), next);
    }
  }

  lemma StepKeepsDevice(c: Config, t: Transfer, outcome: Outcome)
    requires DeviceEnds(t.job.device) && t.job.state.Processing? && t.good
    ensures DeviceEnds(Step(c, t, outcome).job.device)
    ensures Step(c, t, outcome).job.state.Processing? ==> Step(c, t, outcome).good
  {
    if |t.job.device.bytes| < c.params.bytesPerLine {
      var d := t.job.device;
      UpdateKeepsDevice(t.job.(device := Device(d.sheets, "", Eof), images := t.job.images + 1), d.ending);
    }
  }

  lemma StepRuns(c: Config, t: Transfer, outcomes: seq<Outcome>)
    requires Runnable(c, t) && t.job.state.Processing?
    ensures
      var r := Step(c, t, NextOutcome(c, t, outcomes));
      && Runnable(c, r)
      && (r.job.state.Processing? && c.params.bytesPerLine == 0 ==>
           r.job.device == t.job.device && ToRefusal(c, r) < ToRefusal(c, t))
  {
    hide Natural, EncoderRefuses, FirstRefusal;
    RefusalIsFirst(c);
    StepKeepsDevice(c, t, NextOutcome(c, t, outcomes));
  }

  /** finishTransfer on a stream that is good on entry. */
  function Finish(c: Config, j: Job, outcomes: seq<Outcome>): Transfer
    requires Terminates(c) && DeviceEnds(j.device)
  {
    Run(c, Prepare(c, j, true), outcomes)
  }

  lemma RunDone(c: Config, t: Transfer, outcomes: seq<Outcome>)
    requires Runnable(c, t) && !t.job.state.Processing?
    ensures Run(c, t, outcomes) == t
  {
  }

  /** However the transfer goes on, it goes on from t after these outcomes. */
  ghost predicate Leads(c: Config, t0: Transfer, outcomes: seq<Outcome>, t: Transfer)
    requires Runnable(c, t0) && Runnable(c, t)
  {
    forall more: seq<Outcome> :: Run(c, t0, outcomes + more) == Run(c, t, more)
  }

  lemma LeadsFirst(c: Config, t: Transfer)
    requires Runnable(c, t)
    ensures Leads(c, t, [], t)
  {
    hide Run;
    forall more: seq<Outcome> ensures Run(c, t, [] + more) == Run(c, t, more) {
      assert [] + more == more;
    }
  }

  lemma LeadsLine(c: Config, t0: Transfer, outcomes: seq<Outcome>, t: Transfer, outcome: Outcome)
    requires Runnable(c, t0) && Runnable(c, t) && Leads(c, t0, outcomes, t)
    requires t.job.state.Processing? && |t.job.device.bytes| >= c.params.bytesPerLine
    requires Natural(c, |t.lines|).Rejected? ==> outcome.Rejected?
    ensures Runnable(c, SendLine(c, t, outcome)) && Leads(c, t0, outcomes + [outcome], SendLine(c, t, outcome))
    ensures SendLine(c, t, outcome).job.state.Processing? && c.params.bytesPerLine == 0 ==>
      ToRefusal(c, SendLine(c, t, outcome)) < ToRefusal(c, t)
  {
    hide Natural;
    StepRuns(c, t, [outcome]);
    var next := SendLine(c, t, outcome);
    forall more: seq<Outcome> ensures Run(c, t0, outcomes + [outcome] + more) == Run(c, next, more) {
      assert outcomes + [outcome] + more == outcomes + ([outcome] + more);
      assert ([outcome] + more)[1..] == more;
      assert Run(c, t, [outcome] + more) == Run(c, next, more);
    }
  }

  lemma LeadsPage(c: Config, t0: Transfer, outcomes: seq<Outcome>, t: Transfer)
    requires Runnable(c, t0) && Runnable(c, t) && Leads(c, t0, outcomes, t)
    requires t.job.state.Processing? && |t.job.device.bytes| < c.params.bytesPerLine
    ensures Runnable(c, PageOver(c, t)) && Leads(c, t0, outcomes, PageOver(c, t))
  {
    StepRuns(c, t, []);
    var next := PageOver(c, t);
    forall more: seq<Outcome> ensures Run(c, t0, outcomes + more) == Run(c, next, more) {
      assert Run(c, t, more) == Run(c, next, more);
    }
  }

  lemma LeadsToEnd(c: Config, t0: Transfer, outcomes: seq<Outcome>, t: Transfer)
    requires Runnable(c, t0) && Runnable(c, t) && Leads(c, t0, outcomes, t)
    requires !t.job.state.Processing?
    ensures Run(c, t0, outcomes) == t
  {
    assert outcomes + [] == outcomes;
    assert Run(c, t0, outcomes + []) == Run(c, t, []);
  }
}
