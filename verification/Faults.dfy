/**
 * What a device's fault does to a job and to its client (server/scanjob.cpp,
 * server/server.cpp): for every kind of job, for faults at the start of a sheet
 * and in the middle of it, and after any number of good sheets.
 */
module Faults {
  import opened Arithmetic
  import opened Sane
  import opened ImageEncoding
  import opened JobModel
  import opened JobProofs
  import opened NextDocument

  /** A status that is neither a sheet, nor the end of one, nor an empty feeder. */
  predicate Fault(s: Status) {
    !s.Good? && !s.Eof? && !s.NoDocs?
  }

  /** The reason a client is given for each fault. */
  function ReasonFor(s: Status): Reason {
    match s
    case Inval => InvalidScanTicket
    case AccessDenied => DocumentPermissionError
    case Cancelled => JobCanceledByUser
    case DeviceBusy => ResourcesAreNotReady
    case IoError => ResourcesAreNotReady
    case NoMem => ResourcesAreNotReady
    case Jammed => ResourcesAreNotReady
    case CoverOpen => ResourcesAreNotReady
    case _ => ErrorsDetected
  }

  /** The answer to a request whose sheet does not start. */
  function CodeFor(s: Status): nat {
    if s.NoDocs? || s.Jammed? || s.CoverOpen? then 409 else 503
  }

  /**
   * The job is aborted and its session closed. The reason is the fault's if the
   * lines read make whole pages; if a page is incomplete, that is the reason.
   */
  predicate EndedBy(j: Job, s: Status, wholePages: bool) {
    && j.state.Aborted? && !j.open
    && j.reason == (if wholePages then ReasonFor(s) else ErrorsDetected)
    && j.adfStatus == (if s.Jammed? || s.CoverOpen? then s else Good)
  }

  /** The sheet does not start, or its frame breaks off. */
  predicate FailsWith(sheet: Sheet, s: Status) {
    Fault(s) && (sheet.start == s || (sheet.start.Good? && Ending(sheet.frame) == s))
  }

  // ---- one sheet -----------------------------------------------------------

  /** The lines of the current frame are sent, the page is counted, and the fault ends the job. */
  lemma FaultInFrame(c: Config, t: Transfer)
    requires Runnable(c, t) && t.job.state.Processing? && c.params.bytesPerLine >= 1 && c.params.lines >= 1
    requires Takes(c, t, |WholeLines(c.params.bytesPerLine, t.job.device.bytes)|) && Fault(t.job.device.ending)
    ensures
      var r := Run(c, t, []);
      && r.lines == t.lines + WholeLines(c.params.bytesPerLine, t.job.device.bytes)
      && r.job.images == t.job.images + 1
      && EndedBy(r.job, t.job.device.ending, |r.lines| % c.params.lines == 0)
  {
    hide WholeLines, EndPage, EndedBy, Run;
    SendPage(c, t);
    FaultEndsPage(c, PageSent(c, t), t.job.device.ending);
    RunDone(c, EndPage(c, PageSent(c, t), t.job.device.ending), []);
  }

  lemma FaultEndsPage(c: Config, t: Transfer, s: Status)
    requires Fault(s) && c.params.lines >= 1
    ensures
      var r := EndPage(c, t, s);
      && r.lines == t.lines && r.job.images == t.job.images + 1 && r.job.device == t.job.device
      && !r.job.state.Processing? && EndedBy(r.job, s, |t.lines| % c.params.lines == 0)
  {
  }

  /** A pending job, of any kind, whose next sheet does not start. */
  lemma FirstStartFails(c: Config, j: Job, m: nat)
    requires Terminates(c) && JobInv(j) && j.state.Pending? && j.device.sheets != []
    requires !j.device.sheets[0].start.Good? && !j.device.sheets[0].start.Eof?
    ensures
      var a, s := Next(c, j, []), j.device.sheets[0].start;
      && a.code == (if s.NoDocs? || s.Jammed? || s.CoverOpen? then 409 else 503) && a.lines == []
      && JobInv(a.job) && Finished(a.job) && !a.job.open && a.job.images == j.images
      && (Fault(s) ==> EndedBy(a.job, s, true))
      && (s.NoDocs? ==> a.job.adfStatus.NoDocs?)
      && (s.NoDocs? && j.images >= 1 ==> a.job.state.Completed? && a.job.reason.JobCompletedSuccessfully?)
      && (s.NoDocs? && j.images == 0 ==> a.job.state.Aborted? && a.job.reason.ResourcesAreNotReady?)
      && forall i :: 0 <= i < m ==> Serve(c, a.job, m).0[i] == 404
  {
    hide Begin, EndedBy;
    BeginFails(j);
    NextKeepsInv(c, j, []);
    NotFoundForever(c, Next(c, j, []).job, m);
  }

  lemma BeginFails(j: Job)
    requires JobInv(j) && j.state.Pending? && j.device.sheets != []
    requires !j.device.sheets[0].start.Good? && !j.device.sheets[0].start.Eof?
    ensures
      var (r, ok) := Begin(j);
      var s := j.device.sheets[0].start;
      && !ok && Finished(r) && !r.open && r.images == j.images
      && (r.adfStatus.Good? <==> !s.NoDocs? && !s.Jammed? && !s.CoverOpen?)
      && (Fault(s) ==> EndedBy(r, s, true))
      && (s.NoDocs? ==> r.adfStatus.NoDocs?)
      && (s.NoDocs? && j.images >= 1 ==> r.state.Completed? && r.reason.JobCompletedSuccessfully?)
      && (s.NoDocs? && j.images == 0 ==> r.state.Aborted? && r.reason.ResourcesAreNotReady?)
  {
  }

  /**
   * A pending job, of any kind, whose next sheet breaks off. Its lines are sent
   * and the page is counted, though it may be incomplete.
   */
  lemma FirstSheetBreaks(c: Config, j: Job, m: nat)
    requires JobInv(j) && j.state.Pending? && j.device.sheets != [] && GoodFeed(c, [])
    requires
      var sheet := j.device.sheets[0];
      && sheet.start.Good? && Fault(Ending(sheet.frame))
      && (c.format.Pdf? || |SheetLines(c, sheet)| <= c.params.lines)
    ensures
      var a, sheet := Next(c, j, []), j.device.sheets[0];
      && a.code == 200 && a.lines == SheetLines(c, sheet) && a.job.images == j.images + 1 && JobInv(a.job)
      && EndedBy(a.job, Ending(sheet.frame), |a.lines| % c.params.lines == 0)
      && forall i :: 0 <= i < m ==> Serve(c, a.job, m).0[i] == 404
  {
    var sheet := j.device.sheets[0];
    var (b, ok) := Begin(j);
    assert ok && b.device == Device(j.device.sheets[1..], Delivered(sheet.frame), Ending(sheet.frame));
    var t := Prepare(c, b, true);
    LinesTaken(c, t, |SheetLines(c, sheet)|);
    FaultInFrame(c, t);
    assert [] + SheetLines(c, sheet) == SheetLines(c, sheet);
    NextKeepsInv(c, j, []);
    NotFoundForever(c, Next(c, j, []).job, m);
  }

  lemma LinesTaken(c: Config, t: Transfer, n: nat)
    requires Servable(c) && c.params.lines >= 1 && (c.format.Pdf? || (t.lines == [] && n <= c.params.lines))
    ensures Takes(c, t, n)
  {
    forall k: nat | |t.lines| <= k < |t.lines| + n
      ensures Natural(c, k).Sent?
    {
      if !c.format.Pdf? {
        QuotientUnique(c.params.lines, 0, k);
      }
    }
  }

  /** A sheet that ends at once: the job stays pending, or, if it concatenates, goes on to the next sheet. */
  lemma FirstStartIsEof(c: Config, j: Job)
    requires Terminates(c) && JobInv(j) && j.state.Pending? && j.device.sheets != [] && j.device.sheets[0].start.Eof?
    ensures
      var a := Next(c, j, []);
      if j.kind.AdfConcat? then
        a == Next(c, j.(device := j.device.(sheets := j.device.sheets[1..])), [])
      else
        && a.code == 503 && a.lines == [] && a.job.state.Pending? && !a.job.open
        && a.job.images == j.images && a.job.device.sheets == j.device.sheets[1..]
  {
    if j.kind.AdfConcat? {
      var k := j.(device := j.device.(sheets := j.device.sheets[1..]));
      var (device, status) := Start(j.device);
      var (next, more) := Start(device);
      var b := j.(state := Processing, open := true, device := device);
      assert Start(k.device) == (next, more);
      assert UpdateStatus(b, Eof) == UpdateStatus(b.(adfStatus := Good, device := next), more);
      SameStatus(b.(device := next), more);
      assert Begin(j) == Begin(k);
    }
  }

  /** updateStatus does not look at the feeder's last status. */
  lemma SameStatus(j: Job, s: Status)
    ensures UpdateStatus(j.(adfStatus := Good), s) == UpdateStatus(j, s)
  {
  }

  // ---- sheet by sheet ------------------------------------------------------

  /**
   * A client that keeps asking an adfSingle job over n good sheets and one that
   * fails: n documents, then a document if the sheet broke off and otherwise
   * the code of the fault, then not-found; and how the job ends.
   */
  lemma {:induction false} FaultAfterSheets(c: Config, j: Job, n: nat, s: Status, m: nat)
    requires JobInv(j) && j.kind.AdfSingle? && j.state.Pending? && n < |j.device.sheets|
    requires GoodFeed(c, j.device.sheets[..n]) && FailsWith(j.device.sheets[n], s)
    requires c.format.Pdf? || |SheetLines(c, j.device.sheets[n])| <= c.params.lines
    ensures
      var (codes, last) := Serve(c, j, m);
      var starts, lines := j.device.sheets[n].start.Good?, |SheetLines(c, j.device.sheets[n])|;
      && (forall i :: 0 <= i < m && i < n ==> codes[i] == 200)
      && (m > n ==> codes[n] == if starts then 200 else CodeFor(s))
      && (forall i :: n < i < m ==> codes[i] == 404)
      && (m > n ==> last.images == j.images + n + if starts then 1 else 0)
      && (m > n ==> EndedBy(last, s, starts ==> lines % c.params.lines == 0))
    decreases n
  {
    hide Next, EndedBy, WholeLines;
    if m > 0 {
      var a := Next(c, j, []);
      NextKeepsInv(c, j, []);
      var rest := Serve(c, a.job, m - 1);
      assert Serve(c, j, m).0 == [a.code] + rest.0 && Serve(c, j, m).1 == rest.1;
      var sheets := j.device.sheets;
      if n > 0 {
        assert sheets[..1][0] == sheets[..n][0];
        OneSheet(c, j);
        assert sheets[1..][..n - 1] == sheets[..n][1..];
        FaultAfterSheets(c, a.job, n - 1, s, m - 1);
      } else if sheets[0].start.Good? {
        FirstSheetBreaks(c, j, m - 1);
        EndedIsFinished(a.job, s, |a.lines| % c.params.lines == 0);
        NotFoundForever(c, a.job, m - 1);
      } else {
        FirstStartFails(c, j, m - 1);
        NotFoundForever(c, a.job, m - 1);
      }
    }
  }

  lemma EndedIsFinished(j: Job, s: Status, wholePages: bool)
    requires EndedBy(j, s, wholePages)
    ensures Finished(j)
  {
  }

  // ---- in a concatenated document ------------------------------------------

  /** The transfer of a good page, n good sheets behind it, and one that fails. */
  lemma {:induction false} FeedUntilFault(c: Config, t: Transfer, n: nat, s: Status)
    requires n < |t.job.device.sheets| && GoodFeed(c, t.job.device.sheets[..n]) && c.format.Pdf?
    requires FailsWith(t.job.device.sheets[n], s) && t.job.kind.AdfConcat? && t.job.state.Processing? && t.good
    requires t.job.device.ending.Eof? && AtBoundary(c, t.lines)
    requires |WholeLines(c.params.bytesPerLine, t.job.device.bytes)| == c.params.lines
    ensures
      var r, d := Run(c, t, []), t.job.device;
      var starts := d.sheets[n].start.Good?;
      && r.job.images == t.job.images + 1 + n + (if starts then 1 else 0)
      && r.lines == t.lines + WholeLines(c.params.bytesPerLine, d.bytes) +
                    AllLines(c, if starts then d.sheets[..n + 1] else d.sheets[..n])
      && EndedBy(r.job, s, |r.lines| % c.params.lines == 0)
    decreases n
  {
    hide Run, EndPage, Delivered, Ending, JobModel.UpdateStatus, ImagesAfter, LinesAfter, EndedBy, WholeLines;
    var sent, sheets := PageSent(c, t), t.job.device.sheets;
    PageTaken(c, t);
    SendPage(c, t);
    OneMorePage(c.params.lines, |t.lines|);
    var next := EndPage(c, sent, Eof);
    if n > 0 {
      assert sheets[..n][0] == sheets[0];
      GoesOn(c, sent);
      assert sheets[1..][..n - 1] == sheets[..n][1..];
      FeedUntilFault(c, next, n - 1, s);
      LinesBehind(c, sheets, n);
      LinesBehind(c, sheets, n + 1);
      assert sheets[1..][..n] == sheets[1..n + 1];
      AppendRight(sent.lines, SheetLines(c, sheets[0]), AllLines(c, sheets[1..n]));
      AppendRight(sent.lines, SheetLines(c, sheets[0]), AllLines(c, sheets[1..n + 1]));
    } else if sheets[0].start.Good? {
      GoesOn(c, sent);
      LinesTaken(c, next, |SheetLines(c, sheets[0])|);
      FaultInFrame(c, next);
      LinesBehind(c, sheets, 1);
      assert AllLines(c, sheets[1..1]) == [] by { NoLines(c); }
    } else {
      StopsAtFault(c, sent, s);
      RunDone(c, next, []);
      assert AllLines(c, sheets[..0]) == [] by { NoLines(c); }
      assert sent.lines + [] == sent.lines;
    }
  }

  lemma AppendRight(a: seq<string>, b: seq<string>, c: seq<string>)
    ensures a + b + c == a + (b + c)
  {
  }

  lemma NoLines(c: Config)
    requires c.params.bytesPerLine >= 1
    ensures AllLines(c, []) == []
  {
  }

  lemma LinesBehind(c: Config, sheets: seq<Sheet>, n: nat)
    requires c.params.bytesPerLine >= 1 && 1 <= n <= |sheets|
    ensures AllLines(c, sheets[..n]) == SheetLines(c, sheets[0]) + AllLines(c, sheets[1..n])
  {
    assert sheets[..n][1..] == sheets[1..n] && sheets[..n][0] == sheets[0];
  }

  /** At a page end a concat job goes on with the next sheet if it starts. */
  lemma GoesOn(c: Config, t: Transfer)
    requires t.job.kind.AdfConcat? && AtBoundary(c, t.lines)
    requires t.job.device.sheets != [] && t.job.device.sheets[0].start.Good?
    ensures
      var r, sheets := EndPage(c, t, Eof), t.job.device.sheets;
      && r.lines == t.lines && r.good == t.good && r.job.kind == t.job.kind && r.job.images == t.job.images + 1
      && r.job.state.Processing?
      && r.job.device == Device(sheets[1..], Delivered(sheets[0].frame), Ending(sheets[0].frame))
  {
    var j := t.job.(images := t.job.images + 1, adfStatus := Good);
    var (device, next) := Start(j.device);
    assert UpdateStatus(j, Eof) == UpdateStatus(j.(device := device), next);
  }

  lemma StopsAtFault(c: Config, t: Transfer, s: Status)
    requires t.job.kind.AdfConcat? && AtBoundary(c, t.lines) && DeviceEnds(t.job.device) && Fault(s)
    requires c.params.lines >= 1 && t.job.device.sheets != [] && t.job.device.sheets[0].start == s
    ensures
      var r := EndPage(c, t, Eof);
      && r.lines == t.lines && r.job.images == t.job.images + 1 && DeviceEnds(r.job.device)
      && EndedBy(r.job, s, |r.lines| % c.params.lines == 0)
  {
    var j := t.job.(images := t.job.images + 1, adfStatus := Good);
    var (device, next) := Start(j.device);
    assert UpdateStatus(j, Eof) == UpdateStatus(j.(device := device), next);
  }

  /**
   * One request on an adfConcat job over n good sheets and one that fails: a
   * document with all lines read, unless the very first sheet does not start;
   * and how the job ends.
   */
  lemma FaultInFeed(c: Config, j: Job, n: nat, s: Status, m: nat)
    requires JobInv(j) && j.kind.AdfConcat? && c.format.Pdf? && j.state.Pending? && n < |j.device.sheets|
    requires GoodFeed(c, j.device.sheets[..n]) && FailsWith(j.device.sheets[n], s)
    ensures
      var a, sheets := Next(c, j, []), j.device.sheets;
      var starts := sheets[n].start.Good?;
      && a.code == (if n == 0 && !starts then CodeFor(s) else 200)
      && a.lines == AllLines(c, if starts then sheets[..n + 1] else sheets[..n])
      && a.job.images == n + (if starts then 1 else 0)
      && EndedBy(a.job, s, |a.lines| % c.params.lines == 0)
      && JobInv(a.job) && forall i :: 0 <= i < m ==> Serve(c, a.job, m).0[i] == 404
  {
    hide WholeLines, EndedBy, Next;
    var a, sheets := Next(c, j, []), j.device.sheets;
    NextKeepsInv(c, j, []);
    NoLines(c);
    if n == 0 {
      if sheets[0].start.Good? {
        FirstSheetBreaks(c, j, m);
        LinesBehind(c, sheets, 1);
        assert sheets[1..1] == [];
        assert SheetLines(c, sheets[0]) + [] == SheetLines(c, sheets[0]);
      } else {
        FirstStartFails(c, j, m);
      }
    } else {
      FaultBehindFirst(c, j, n, s);
    }
    assert Finished(a.job) by { EndedIsFinished(a.job, s, |a.lines| % c.params.lines == 0); }
    NotFoundForever(c, a.job, m);
  }

  /** The same, behind at least one good sheet. */
  lemma FaultBehindFirst(c: Config, j: Job, n: nat, s: Status)
    requires JobInv(j) && j.kind.AdfConcat? && c.format.Pdf? && j.state.Pending? && 1 <= n < |j.device.sheets|
    requires GoodFeed(c, j.device.sheets[..n]) && FailsWith(j.device.sheets[n], s)
    ensures
      var a, sheets := Next(c, j, []), j.device.sheets;
      var starts := sheets[n].start.Good?;
      && a.code == 200 && a.lines == AllLines(c, if starts then sheets[..n + 1] else sheets[..n])
      && a.job.images == n + (if starts then 1 else 0)
      && EndedBy(a.job, s, |a.lines| % c.params.lines == 0)
  {
    hide WholeLines, EndedBy, Run, AllLines;
    var sheets := j.device.sheets;
    var (b, ok) := Begin(j);
    assert sheets[..n][0] == sheets[0];
    assert ok && b.device == Device(sheets[1..], Delivered(sheets[0].frame), Ending(sheets[0].frame));
    FirstLine(c.params.lines, 0);
    assert sheets[1..][..n - 1] == sheets[..n][1..] == sheets[1..n] && sheets[1..][..n] == sheets[1..n + 1];
    FeedUntilFault(c, Prepare(c, b, true), n - 1, s);
    LinesBehind(c, sheets, n);
    LinesBehind(c, sheets, n + 1);
    assert [] + SheetLines(c, sheets[0]) == SheetLines(c, sheets[0]);
  }

  // ---- transfers that fail for other reasons -------------------------------

  /** Nothing is scanned for a format there is no encoder for, or lines the encoder would not fit; the session stays. */
  lemma NothingScanned(c: Config, j: Job)
    requires JobInv(j) && j.state.Pending? && j.device.sheets != [] && j.device.sheets[0].start.Good?
    requires c.format.OtherFormat? || !LineSizesAgree(c)
    ensures
      var a := Next(c, j, []);
      && a.code == 200 && a.lines == [] && a.job.state.Aborted? && a.job.images == j.images && a.job.open
      && a.job.reason == if c.format.OtherFormat? then UnsupportedDocumentFormat else ErrorsDetected
  {
  }

  /** A line that is rejected or lost ends the transfer: aborted, session closed, page not counted. */
  lemma LineFails(c: Config, t: Transfer, outcome: Outcome, more: seq<Outcome>)
    requires Runnable(c, t) && t.job.state.Processing? && |t.job.device.bytes| >= c.params.bytesPerLine
    requires !outcome.Sent? && Natural(c, |t.lines|).Sent?
    ensures
      var r := Run(c, t, [outcome] + more);
      && r.job.state.Aborted? && r.job.reason.ErrorsDetected? && !r.job.open && r.job.images == t.job.images
      && r.lines == t.lines + (if outcome.Lost? then [t.job.device.bytes[..c.params.bytesPerLine]] else [])
  {
    StepRuns(c, t, [outcome] + more);
    assert ([outcome] + more)[0] == outcome && ([outcome] + more)[1..] == more;
    RunDone(c, SendLine(c, t, outcome), more);
  }
}
