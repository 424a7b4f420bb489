/** The NextDocument requests of a client and the answers of server/server.cpp. */
module NextDocument {
  import opened Arithmetic
  import opened Sane
  import opened ImageEncoding
  import opened JobModel
  import opened JobProofs

  const HTTP_OK: nat := 200
  const HTTP_NOT_FOUND: nat := 404
  const HTTP_CONFLICT: nat := 409
  const HTTP_SERVICE_UNAVAILABLE: nat := 503

  /** The job after the request, the status code, and the scan lines of the document sent. */
  datatype Answer = Answer(job: Job, code: nat, lines: seq<string>)

  function Next(c: Config, j: Job, outcomes: seq<Outcome>): Answer
    requires Terminates(c) && DeviceEnds(j.device)
  {
    if Finished(j) then Answer(j, HTTP_NOT_FOUND, [])
    else
      BeginKeepsDevice(j);
      var (b, ok) := Begin(j);
      if ok then
        var t := Finish(c, b, outcomes);
        Answer(t.job, HTTP_OK, t.lines)
      else if !b.adfStatus.Good? then Answer(b, HTTP_CONFLICT, [])
      else Answer(b, HTTP_SERVICE_UNAVAILABLE, [])
  }

  lemma BeginKeepsDevice(j: Job)
    requires DeviceEnds(j.device)
    ensures DeviceEnds(Begin(j).0.device)
  {
    var (device, status) := Start(j.device);
    UpdateKeepsDevice(j.(state := Processing, open := true, device := device), status);
  }

  /** A client that asks m times; neither the socket nor an image library fails. */
  function Serve(c: Config, j: Job, m: nat): (r: (seq<nat>, Job))
    requires Terminates(c) && JobInv(j)
    ensures |r.0| == m
    decreases m
  {
    if m == 0 then ([], j)
    else
      var a := Next(c, j, []);
      NextKeepsInv(c, j, []);
      var (codes, last) := Serve(c, a.job, m - 1);
      ([a.code] + codes, last)
  }

  /** The invariant of all runs holds between requests, and no request leaves the job processing. */
  lemma NextKeepsInv(c: Config, j: Job, outcomes: seq<Outcome>)
    requires Terminates(c) && JobInv(j)
    ensures JobInv(Next(c, j, outcomes).job)
  {
    BeginKeepsDevice(j);
    BeginContract(j);
    var (b, ok) := Begin(j);
    if !Finished(j) && ok {
      RunKeepsInv(c, Prepare(c, b, true), outcomes);
    }
  }

  lemma {:induction false} RunKeepsInv(c: Config, t: Transfer, outcomes: seq<Outcome>)
    requires Runnable(c, t) && JobInv(t.job)
    ensures JobInv(Run(c, t, outcomes).job)
    decreases t.job.state.Processing?, |t.job.device.sheets|, |t.job.device.bytes|, ToRefusal(c, t)
  {
    if t.job.state.Processing? {
      var outcome := NextOutcome(c, t, outcomes);
      StepRuns(c, t, outcomes);
      StepInv(c, t, outcome);
      RunKeepsInv(c, Step(c, t, outcome), RestOutcomes(c, t, outcomes));
    }
  }

  /** A canceled job is canceled, for every client, whatever it was doing. */
  lemma CanceledIsGone(c: Config, j: Job, m: nat)
    requires Terminates(c) && JobInv(j)
    ensures
      var r := Cancel(j);
      && r.state.Canceled? && r.reason.JobCanceledByUser? && !r.open && r.images == j.images && JobInv(r)
      && Serve(c, r, m).1 == r && forall i :: 0 <= i < m ==> Serve(c, r, m).0[i] == 404
  {
    NotFoundForever(c, Cancel(j), m);
  }

  // ---- pages ---------------------------------------------------------------

  /** The whole scan lines in a frame; bytes that do not fill a line are dropped. */
  function WholeLines(n: nat, bytes: string): seq<string>
    requires n >= 1
  {
    if |bytes| < n then [] else [bytes[..n]] + WholeLines(n, bytes[n..])
  }

  /** A transfer after all lines of the current frame were sent and the frame ended. */
  function PageSent(c: Config, t: Transfer): Transfer
    requires c.params.bytesPerLine >= 1
  {
    var d, n := t.job.device, c.params.bytesPerLine;
    Transfer(t.job.(device := Device(d.sheets, "", Eof)), t.lines + WholeLines(n, d.bytes), t.good)
  }

  /** The encoder takes the next n lines. */
  predicate Takes(c: Config, t: Transfer, n: nat) {
    forall k: nat :: |t.lines| <= k < |t.lines| + n ==> Natural(c, k).Sent?
  }

  lemma {:induction false} SendPage(c: Config, t: Transfer)
    requires Runnable(c, t) && t.job.state.Processing? && c.params.bytesPerLine >= 1
    requires Takes(c, t, |WholeLines(c.params.bytesPerLine, t.job.device.bytes)|)
    ensures DeviceEnds(EndPage(c, PageSent(c, t), t.job.device.ending).job.device)
    ensures Run(c, t, []) == Run(c, EndPage(c, PageSent(c, t), t.job.device.ending), [])
    decreases |t.job.device.bytes|
  {
    var d, n := t.job.device, c.params.bytesPerLine;
    if |d.bytes| >= n {
      assert Natural(c, |t.lines|).Sent?;
    }
    var next := Step(c, t, Natural(c, |t.lines|));
    StepRuns(c, t, []);
    if |d.bytes| >= n {
      assert PageSent(c, next) == PageSent(c, t) by {
        assert t.lines + [d.bytes[..n]] + WholeLines(n, d.bytes[n..]) == t.lines + WholeLines(n, d.bytes);
      }
      SendPage(c, next);
    } else {
      assert t.lines + [] == t.lines;
    }
  }

  /** A sheet that feeds, scans exactly the announced number of lines, and ends. */
  predicate GoodSheet(c: Config, s: Sheet)
    requires c.params.bytesPerLine >= 1
  {
    s.start.Good? && Ending(s.frame).Eof? && |SheetLines(c, s)| == c.params.lines
  }

  function SheetLines(c: Config, s: Sheet): seq<string>
    requires c.params.bytesPerLine >= 1
  {
    WholeLines(c.params.bytesPerLine, Delivered(s.frame))
  }

  /** A request the encoder can serve. */
  predicate Servable(c: Config) {
    && !c.format.OtherFormat? && LineSizesAgree(c)
    && (c.format.Pdf? ==> c.dpi != 0)
    && (c.format.Jpeg? ==> c.params.depth == 8 || c.params.depth == 16)
  }

  /**
   * A device that delivers what its parameters say, three samples for a colour
   * pixel and one for a gray one, fits the encoder, so its scan is not aborted.
   */
  lemma OrdinaryLines(c: Config, j: Job, good: bool)
    requires !c.format.OtherFormat? && j.state.Processing?
    requires
      var samples := if c.colorScan || c.synthesizeGray then 3 else 1;
      c.params.bytesPerLine == samples * c.params.pixelsPerLine * c.params.depth / 8
    requires !c.colorScan && c.synthesizeGray ==> c.params.depth == 8 || c.params.depth == 16
    ensures LineSizesAgree(c) && Prepare(c, j, good).job == j
  {
    var p := c.params.pixelsPerLine;
    if Synthesizes(c) {
      if c.params.depth == 8 {
        assert 3 * p * 8 / 8 == 3 * p && 1 * p * 8 / 8 == p;
      } else {
        assert 3 * p * 16 / 8 == 6 * p && 1 * p * 16 / 8 == 2 * p;
      }
    }
  }

  /** A feeder holding good sheets only, and a request the encoder can serve. */
  predicate GoodFeed(c: Config, sheets: seq<Sheet>) {
    && c.params.bytesPerLine >= 1 && c.params.lines >= 1 && Servable(c)
    && forall i :: 0 <= i < |sheets| ==> GoodSheet(c, sheets[i])
  }

  lemma OneMorePage(h: int, k: nat)
    requires h >= 1 && LinesAfter(h, k) == 0
    ensures LinesAfter(h, k + h) == 0 && ImagesAfter(h, k + h) == ImagesAfter(h, k) + 1
  {
    var q := k / h;
    assert k + h == (q + 1) * h + 0;
    QuotientUnique(h, q + 1, 0);
  }

  /** The encoder takes a page, JPEG and PNG the first one only. */
  lemma PageTaken(c: Config, t: Transfer)
    requires Servable(c) && c.params.lines >= 1 && (c.format.Pdf? || t.lines == [])
    ensures Takes(c, t, c.params.lines)
  {
    var h := c.params.lines;
    forall k: nat | |t.lines| <= k < |t.lines| + h
      ensures Natural(c, k).Sent?
    {
      if !c.format.Pdf? {
        QuotientUnique(h, 0, k);
      }
    }
  }

  // ---- one document per sheet ----------------------------------------------

  lemma OneSheet(c: Config, j: Job)
    requires JobInv(j) && j.kind.AdfSingle? && j.state.Pending?
    requires j.device.sheets != [] && GoodFeed(c, j.device.sheets[..1])
    ensures
      var a := Next(c, j, []);
      && a.code == 200 && a.lines == SheetLines(c, j.device.sheets[0])
      && a.job.kind == j.kind && a.job.state.Pending? && a.job.reason.NoReason? && a.job.images == j.images + 1
      && a.job.open
      && a.job.device.sheets == j.device.sheets[1..]
  {
    var sheet := j.device.sheets[0];
    assert sheet == j.device.sheets[..1][0];
    var (b, ok) := Begin(j);
    assert ok && b.device == Device(j.device.sheets[1..], Delivered(sheet.frame), Ending(sheet.frame));
    var t := Prepare(c, b, true);
    PageTaken(c, t);
    SendPage(c, t);
    FirstLine(c.params.lines, 0);
    OneMorePage(c.params.lines, 0);
    assert [] + SheetLines(c, sheet) == SheetLines(c, sheet);
  }

  lemma EmptyFeeder(c: Config, j: Job)
    requires Terminates(c) && JobInv(j) && !j.kind.Single? && j.state.Pending? && j.device.sheets == []
    ensures
      var a := Next(c, j, []);
      && a.code == 409 && a.job.images == j.images && !a.job.open && a.job.adfStatus.NoDocs?
      && a.job.state == (if j.images >= 1 then Completed else Aborted)
  {
  }

  function ExpectedCode(n: nat, i: nat): nat {
    if i < n then 200 else if i == n then 409 else 404
  }

  lemma {:induction false} NotFoundForever(c: Config, j: Job, m: nat)
    requires Terminates(c) && JobInv(j) && Finished(j)
    ensures Serve(c, j, m).1 == j && forall i :: 0 <= i < m ==> Serve(c, j, m).0[i] == 404
    decreases m
  {
    if m > 0 {
      NotFoundForever(c, j, m - 1);
    }
  }

  /**
   * A client that keeps asking an adfSingle job over a feeder of n good sheets
   * gets n documents, one conflict, and not-found from then on; the job counts
   * n images and ends completed, or aborted if the feeder was empty.
   */
  lemma {:induction false} SheetBySheet(c: Config, j: Job, m: nat)
    requires JobInv(j) && j.kind.AdfSingle? && j.state.Pending? && GoodFeed(c, j.device.sheets)
    ensures
      var (codes, last) := Serve(c, j, m);
      var n := |j.device.sheets|;
      && (forall i :: 0 <= i < m ==> codes[i] == ExpectedCode(n, i))
      && last.images == j.images + (if m < n then m else n)
      && (m > n ==> last.state == (if last.images >= 1 then Completed else Aborted) && !last.open)
    decreases m
  {
    hide Next;
    if m > 0 {
      var a := Next(c, j, []);
      NextKeepsInv(c, j, []);
      var rest := Serve(c, a.job, m - 1);
      assert Serve(c, j, m).0 == [a.code] + rest.0;
      if j.device.sheets == [] {
        EmptyFeeder(c, j);
        NotFoundForever(c, a.job, m - 1);
      } else {
        OneSheet(c, j);
        SheetBySheet(c, a.job, m - 1);
        var n, left := |j.device.sheets|, |a.job.device.sheets|;
        assert forall i :: 1 <= i < m ==> ExpectedCode(n, i) == ExpectedCode(left, i - 1);
      }
    }
  }

  /**
   * A platen job: one document with the lines on the glass, the job completed
   * with one image and its session closed, and not-found for every later
   * request.
   */
  lemma OnePlatenScan(c: Config, j: Job, m: nat)
    requires JobInv(j) && j.kind.Single? && j.state.Pending?
    requires j.device.sheets != [] && GoodFeed(c, j.device.sheets[..1])
    ensures
      var a := Next(c, j, []);
      && JobInv(a.job) && a.code == 200 && a.lines == SheetLines(c, j.device.sheets[0])
      && a.job.state.Completed? && a.job.images == 1 && !a.job.open
      && forall i :: 0 <= i < m ==> Serve(c, a.job, m).0[i] == 404
  {
    var sheet := j.device.sheets[0];
    assert sheet == j.device.sheets[..1][0];
    var (b, ok) := Begin(j);
    assert ok && b.device == Device(j.device.sheets[1..], Delivered(sheet.frame), Ending(sheet.frame));
    var t := Prepare(c, b, true);
    PageTaken(c, t);
    SendPage(c, t);
    FirstLine(c.params.lines, 0);
    OneMorePage(c.params.lines, 0);
    assert [] + SheetLines(c, sheet) == SheetLines(c, sheet);
    NextKeepsInv(c, j, []);
    NotFoundForever(c, Next(c, j, []).job, m);
  }

  // ---- all sheets in one document ------------------------------------------

  function AllLines(c: Config, sheets: seq<Sheet>): seq<string>
    requires c.params.bytesPerLine >= 1
  {
    if sheets == [] then [] else SheetLines(c, sheets[0]) + AllLines(c, sheets[1..])
  }

  /** The transfer of a good page and all good sheets behind it. */
  lemma {:induction false} FeedThrough(c: Config, t: Transfer)
    requires GoodFeed(c, t.job.device.sheets) && t.job.kind.AdfConcat? && t.job.state.Processing? && t.good
    requires c.format.Pdf? && t.job.device.ending.Eof? && AtBoundary(c, t.lines)
    requires |WholeLines(c.params.bytesPerLine, t.job.device.bytes)| == c.params.lines
    ensures
      var r, d := Run(c, t, []), t.job.device;
      && r.job.state.Completed? && !r.job.open && r.good
      && r.job.images == t.job.images + 1 + |d.sheets|
      && r.lines == t.lines + WholeLines(c.params.bytesPerLine, d.bytes) + AllLines(c, d.sheets)
      && AtBoundary(c, r.lines)
      && ImagesAfter(c.params.lines, |r.lines|) == ImagesAfter(c.params.lines, |t.lines|) + 1 + |d.sheets|
    decreases |t.job.device.sheets|
  {
    hide Run, EndPage, Delivered, Ending, JobModel.UpdateStatus, ImagesAfter, LinesAfter;
    var sent := PageSent(c, t);
    var next := EndPage(c, sent, Eof);
    PageTaken(c, t);
    SendPage(c, t);
    OneMorePage(c.params.lines, |t.lines|);
    NextPage(c, sent);
    if t.job.device.sheets == [] {
      RunDone(c, next, []);
      assert sent.lines + AllLines(c, []) == sent.lines;
    } else {
      FeedThrough(c, next);
      var rest := t.job.device.sheets[1..];
      assert next.lines + SheetLines(c, t.job.device.sheets[0]) + AllLines(c, rest) ==
             sent.lines + AllLines(c, t.job.device.sheets);
    }
  }

  /** At a page end a concat job either goes on with the next sheet or completes. */
  lemma NextPage(c: Config, t: Transfer)
    requires GoodFeed(c, t.job.device.sheets) && t.job.kind.AdfConcat? && AtBoundary(c, t.lines)
    ensures
      var r, sheets := EndPage(c, t, Eof), t.job.device.sheets;
      && r.lines == t.lines && r.good == t.good && r.job.kind == t.job.kind && r.job.images == t.job.images + 1
      && (sheets == [] ==> r.job.state.Completed? && !r.job.open)
      && (sheets != [] ==> r.job.state.Processing?)
      && (sheets != [] ==>
           r.job.device == Device(sheets[1..], Delivered(sheets[0].frame), Ending(sheets[0].frame)))
  {
    var j := t.job.(images := t.job.images + 1, adfStatus := Good);
    var (device, next) := Start(j.device);
    assert UpdateStatus(j, Eof) == UpdateStatus(j.(device := device), next);
  }

  /**
   * One request on an adfConcat job over n good sheets: one document with n
   * pages, n images counted, the job completed and its session closed, and
   * not-found for every later request. An empty feeder gives a conflict. Jobs
   * concatenate only if their format is PDF.
   */
  lemma WholeFeedInOne(c: Config, j: Job, m: nat)
    requires JobInv(j) && j.kind.AdfConcat? && c.format.Pdf? && j.state.Pending? && GoodFeed(c, j.device.sheets)
    ensures
      var a, n := Next(c, j, []), |j.device.sheets|;
      && JobInv(a.job) && !a.job.open && a.job.images == n
      && (n >= 1 ==> a.code == 200 && a.job.state.Completed? && a.lines == AllLines(c, j.device.sheets))
      && (n >= 1 ==> ImagesAfter(c.params.lines, |a.lines|) == n && AtBoundary(c, a.lines))
      && (n == 0 ==> a.code == 409 && a.job.state.Aborted?)
      && forall i :: 0 <= i < m ==> Serve(c, a.job, m).0[i] == 404
  {
    var a, sheets := Next(c, j, []), j.device.sheets;
    NextKeepsInv(c, j, []);
    if sheets == [] {
      EmptyFeeder(c, j);
    } else {
      var (b, ok) := Begin(j);
      assert ok && b.device == Device(sheets[1..], Delivered(sheets[0].frame), Ending(sheets[0].frame));
      FirstLine(c.params.lines, 0);
      FeedThrough(c, Prepare(c, b, true));
      assert a.lines == AllLines(c, sheets);
    }
    NotFoundForever(c, a.job, m);
  }

  /** The outcomes are those the encoder alone would have caused. */
  predicate AllNatural(c: Config, k: nat, outcomes: seq<Outcome>) {
    forall i :: 0 <= i < |outcomes| ==> outcomes[i] == Natural(c, k + i)
  }

  /** Listing what happens anyway changes nothing. */
  lemma {:induction false} NaturalRun(c: Config, t: Transfer, outcomes: seq<Outcome>)
    requires Runnable(c, t) && (t.job.state.Processing? ==> AllNatural(c, |t.lines|, outcomes))
    ensures Run(c, t, outcomes) == Run(c, t, [])
    decreases t.job.state.Processing?, |t.job.device.sheets|, |t.job.device.bytes|, ToRefusal(c, t)
  {
    hide Natural;
    if t.job.state.Processing? && outcomes != [] {
      var outcome := NextOutcome(c, t, outcomes);
      assert outcome == Natural(c, |t.lines| + 0);
      StepRuns(c, t, outcomes);
      NaturalRun(c, Step(c, t, outcome), RestOutcomes(c, t, outcomes));
    }
  }

  lemma NaturalNext(c: Config, j: Job, outcomes: seq<Outcome>)
    requires Terminates(c) && DeviceEnds(j.device) && AllNatural(c, 0, outcomes)
    ensures Next(c, j, outcomes) == Next(c, j, [])
  {
    BeginKeepsDevice(j);
    NaturalRun(c, Prepare(c, Begin(j).0, true), outcomes);
  }
}
