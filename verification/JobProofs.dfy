/** What every run of a scan job keeps, and how its transfers end. */
module JobProofs {
  import opened Arithmetic
  import opened Sane
  import opened ImageEncoding
  import opened JobModel

  // ---- every interleaving of requests, worker steps and cancellation -------

  /** Where the job's worker is: idle, between begin and finish, or inside finish. */
  datatype System = Idle(job: Job) | Claimed(job: Job) | Busy(transfer: Transfer)

  function JobOf(s: System): Job {
    if s.Busy? then s.transfer.job else s.job
  }

  datatype Action = BeginRequest | FinishRequest | WorkerStep(outcome: Outcome) | CancelRequest

  /**
   * The worker holds the mutex while it runs a call, so a begin cannot get in
   * while a transfer is under way. Whether the thread that asked for it also
   * hears of its end is another matter: see TwoCallers.
   */
  function Apply(c: Config, s: System, a: Action): System {
    match a
    case BeginRequest =>
      if s.Busy? then s
      else
        var (j, ok) := Begin(s.job);
        if s.Idle? && ok then Claimed(j) else s.(job := j)
    case FinishRequest =>
      if s.Claimed? then Busy(Prepare(c, s.job, true)) else s
    case WorkerStep(outcome) =>
      if !s.Busy? then s
      else if s.transfer.job.state.Processing? then Busy(Step(c, s.transfer, outcome))
      else Idle(s.transfer.job)
    case CancelRequest =>
      if s.Busy? then Busy(s.transfer.(job := Cancel(s.transfer.job))) else s.(job := Cancel(s.job))
  }

  function Exec(c: Config, s: System, actions: seq<Action>): System
    decreases |actions|
  {
    if actions == [] then s else Exec(c, Apply(c, s, actions[0]), actions[1..])
  }

  predicate JobInv(j: Job) {
    && DeviceEnds(j.device)
    && (j.state.Completed? ==> j.images >= 1 && !j.open)
    && (j.state.Canceled? ==> !j.open)
    && (j.state.Processing? ==> j.open)
    && (j.kind.Single? ==> j.images <= 1 && (j.images == 1 ==> Finished(j)))
    && (j.kind.Single? && j.state.Pending? ==> !j.open)
    && (j.kind.AdfConcat? && j.state.Pending? ==> j.images == 0)
    && (j.state.Completed? <==> j.reason.JobCompletedSuccessfully?)
    && (j.state.Processing? ==> j.reason.JobScanning?)
  }

  predicate Inv(s: System) {
    && JobInv(JobOf(s))
    && (s.Idle? ==> !s.job.state.Processing?)
    && (s.Claimed? ==> s.job.state.Processing? || s.job.state.Canceled?)
    && (s.Busy? && s.transfer.job.state.Processing? ==> s.transfer.good)
  }

  /** A job as ScanJob::init leaves it. */
  predicate Initial(j: Job) {
    && DeviceEnds(j.device) && j.images == 0 && !j.open && j.adfStatus.Good?
    && ((j.state.Pending? && j.reason.JobQueued?) || (j.state.Aborted? && j.reason.InvalidScanTicket?))
  }

  /** updateStatus settles on a state that fits the image count and the session. */
  lemma {:induction false} UpdateStatusSettles(j: Job, status: Status)
    requires DeviceEnds(j.device) && j.open
    ensures
      var r := UpdateStatus(j, status);
      && DeviceEnds(r.device) && r.images == j.images && r.kind == j.kind && !r.state.Canceled?
      && (r.state.Completed? ==> r.images >= 1 && !r.open)
      && (r.state.Processing? ==> r.open)
      && (r.state.Aborted? ==> !r.open)
      && (r.state.Pending? && r.kind.Single? ==> !r.open && r.images == 0)
      && !(r.kind.AdfConcat? && r.state.Pending?)
      && (r.state.Completed? <==> r.reason.JobCompletedSuccessfully?)
      && (r.state.Processing? ==> r.reason.JobScanning?)
      && (r.state.Processing? && r.kind.Single? ==> status.Good?)
    decreases |j.device.sheets|, status.Eof?
  {
    if status.Eof? && j.kind.AdfConcat? {
      var (device, next) := Start(j.device);
      UpdateStatusSettles(j.(adfStatus := Good, device := device), next);
    }
  }

  /** A begin that claims the job leaves it processing with a session; one that fails leaves none. */
  lemma BeginContract(j: Job)
    requires JobInv(j)
    ensures
      var (r, ok) := Begin(j);
      && JobInv(r) && r.images == j.images
      && (ok <==> j.state.Pending? && r.state.Processing?)
      && (ok ==> r.open)
      && (j.state.Pending? && !ok ==> !r.open)
      && (!j.state.Pending? ==> r == j && !ok)
  {
    if j.state.Pending? {
      var (device, status) := Start(j.device);
      UpdateStatusSettles(j.(state := Processing, open := true, device := device), status);
    }
  }

  lemma StepInv(c: Config, t: Transfer, outcome: Outcome)
    requires JobInv(t.job) && t.job.state.Processing? && t.good
    ensures
      var r := Step(c, t, outcome);
      && JobInv(r.job) && (r.job.state.Processing? ==> r.good)
      && t.job.images <= r.job.images <= t.job.images + 1
  {
    if |t.job.device.bytes| < c.params.bytesPerLine {
      var d := t.job.device;
      UpdateStatusSettles(t.job.(device := Device(d.sheets, "", Eof), images := t.job.images + 1), d.ending);
    }
  }

  lemma ApplyInv(c: Config, s: System, a: Action)
    requires Inv(s)
    ensures Inv(Apply(c, s, a))
  {
    match a {
      case BeginRequest =>
        if !s.Busy? { BeginContract(s.job); }
      case FinishRequest =>
      case WorkerStep(outcome) =>
        if s.Busy? && s.transfer.job.state.Processing? { StepInv(c, s.transfer, outcome); }
      case CancelRequest =>
    }
  }

  /** The invariant holds in every state of every run. */
  lemma {:induction false} EveryRunKeepsInv(c: Config, s: System, actions: seq<Action>)
    requires Inv(s)
    ensures Inv(Exec(c, s, actions))
    decreases |actions|
  {
    if actions != [] {
      ApplyInv(c, s, actions[0]);
      EveryRunKeepsInv(c, Apply(c, s, actions[0]), actions[1..]);
    }
  }

  /**
   * Every run of a new job: completed means at least one image and no session,
   * processing means a session and a stream that is good, and a single job
   * counts at most one image and is finished once it has it.
   */
  lemma EveryRunFromTheStart(c: Config, j: Job, actions: seq<Action>)
    requires Initial(j)
    ensures
      var s := Exec(c, Idle(j), actions);
      var r := JobOf(s);
      && Inv(s)
      && (r.state.Completed? ==> r.images >= 1 && !r.open)
      && (r.state.Canceled? ==> !r.open)
      && (r.state.Processing? ==> r.open && (s.Busy? ==> s.transfer.good))
      && (r.kind.Single? ==> r.images <= 1 && (r.images == 1 ==> Finished(r)))
      && (s.Idle? ==> !r.state.Processing?)
  {
    EveryRunKeepsInv(c, Idle(j), actions);
  }

  /** A finished job stays finished and counts no further image, whatever happens. */
  lemma {:induction false} FinishedForever(c: Config, s: System, actions: seq<Action>)
    requires Finished(JobOf(s))
    ensures Finished(JobOf(Exec(c, s, actions))) && JobOf(Exec(c, s, actions)).images == JobOf(s).images
    decreases |actions|
  {
    if actions != [] {
      var next := Apply(c, s, actions[0]);
      assert Finished(JobOf(next)) && JobOf(next).images == JobOf(s).images;
      FinishedForever(c, next, actions[1..]);
    }
  }

  /** A request to cancel works at once, also in the middle of a transfer, and for good. */
  lemma {:induction false} CanceledForever(c: Config, s: System, actions: seq<Action>)
    ensures
      var r := JobOf(Exec(c, Apply(c, s, CancelRequest), actions));
      r.state.Canceled? && !r.open && r.reason.JobCanceledByUser?
    decreases |actions|
  {
    StaysCanceled(c, Apply(c, s, CancelRequest), actions);
  }

  lemma {:induction false} StaysCanceled(c: Config, s: System, actions: seq<Action>)
    requires JobOf(s).state.Canceled? && !JobOf(s).open && JobOf(s).reason.JobCanceledByUser?
    ensures
      var r := JobOf(Exec(c, s, actions));
      r.state.Canceled? && !r.open && r.reason.JobCanceledByUser?
    decreases |actions|
  {
    if actions != [] {
      StaysCanceled(c, Apply(c, s, actions[0]), actions[1..]);
    }
  }

  // ---- how a transfer ends -------------------------------------------------

  /** A transfer ends pending or completed only with the encoder between two images. */
  lemma {:induction false} EndsAtBoundary(c: Config, t: Transfer, outcomes: seq<Outcome>)
    requires Runnable(c, t) && t.job.state.Processing?
    ensures
      var r := Run(c, t, outcomes);
      (r.job.state.Pending? || r.job.state.Completed? ==> AtBoundary(c, r.lines)) && !r.job.state.Canceled?
    decreases |t.job.device.sheets|, |t.job.device.bytes|, ToRefusal(c, t)
  {
    var outcome := NextOutcome(c, t, outcomes);
    var next := Step(c, t, outcome);
    StepRuns(c, t, outcomes);
    if next.job.state.Processing? {
      EndsAtBoundary(c, next, RestOutcomes(c, t, outcomes));
    } else if |t.job.device.bytes| < c.params.bytesPerLine {
      var d := t.job.device;
      NeverCanceled(t.job.(device := Device(d.sheets, "", Eof), images := t.job.images + 1), d.ending);
    }
  }

  lemma {:induction false} NeverCanceled(j: Job, status: Status)
    ensures !UpdateStatus(j, status).state.Canceled?
    decreases |j.device.sheets|, status.Eof?
  {
    if status.Eof? && j.kind.AdfConcat? {
      var (device, next) := Start(j.device);
      NeverCanceled(j.(adfStatus := Good, device := device), next);
    }
  }

  /** What becomes of every line, by its number. */
  type Fate = nat -> Outcome

  /** If neither the socket nor an image library fails, the encoder decides. */
  function EncoderFate(c: Config): Fate {
    (k: nat) => Natural(c, k)
  }

  /** At most n steps of the loop. */
  function Iterate(c: Config, t: Transfer, fate: Fate, n: nat): Transfer
    decreases n
  {
    if n == 0 || !t.job.state.Processing? then t else Iterate(c, Step(c, t, fate(|t.lines|)), fate, n - 1)
  }

  ghost predicate Ends(c: Config, t: Transfer, fate: Fate) {
    exists n :: !Iterate(c, t, fate, n).job.state.Processing?
  }

  /** The fate of each line to come is its outcome in the list, unless the encoder's checks fail. */
  ghost predicate Lists(c: Config, t: Transfer, fate: Fate, outcomes: seq<Outcome>) {
    forall k :: k >= |t.lines| ==>
      fate(k) ==
        if Natural(c, k).Rejected? || k - |t.lines| >= |outcomes| then Natural(c, k) else outcomes[k - |t.lines|]
  }

  lemma ListsRest(c: Config, t: Transfer, fate: Fate, outcomes: seq<Outcome>)
    requires Runnable(c, t) && t.job.state.Processing? && Lists(c, t, fate, outcomes)
    ensures fate(|t.lines|) == NextOutcome(c, t, outcomes)
    ensures
      var next := Step(c, t, NextOutcome(c, t, outcomes));
      next.job.state.Processing? ==> Lists(c, next, fate, RestOutcomes(c, t, outcomes))
  {
    hide Natural, JobModel.UpdateStatus;
  }

  /** The loop as iterated steps and the loop as Run agree, and Run says how many steps it takes. */
  lemma {:induction false} RunIsIterate(c: Config, t: Transfer, fate: Fate, outcomes: seq<Outcome>) returns (n: nat)
    requires Runnable(c, t) && (t.job.state.Processing? ==> Lists(c, t, fate, outcomes))
    ensures Iterate(c, t, fate, n) == Run(c, t, outcomes)
    decreases t.job.state.Processing?, |t.job.device.sheets|, |t.job.device.bytes|, ToRefusal(c, t)
  {
    hide Natural, Lists, NextOutcome, RestOutcomes;
    if !t.job.state.Processing? {
      n := 0;
    } else {
      var outcome := NextOutcome(c, t, outcomes);
      ListsRest(c, t, fate, outcomes);
      StepRuns(c, t, outcomes);
      var m := RunIsIterate(c, Step(c, t, outcome), fate, RestOutcomes(c, t, outcomes));
      n := m + 1;
    }
  }

  /** The loop ends, whatever becomes of its lines. */
  lemma {:induction false} AlwaysEnds(c: Config, t: Transfer, fate: Fate) returns (n: nat)
    requires Runnable(c, t) && c.params.bytesPerLine >= 1
    ensures !Iterate(c, t, fate, n).job.state.Processing?
    decreases t.job.state.Processing?, |t.job.device.sheets|, |t.job.device.bytes|
  {
    if !t.job.state.Processing? {
      n := 0;
    } else {
      StepKeepsDevice(c, t, fate(|t.lines|));
      var m := AlwaysEnds(c, Step(c, t, fate(|t.lines|)), fate);
      n := m + 1;
    }
  }

  /** A bad stream, or empty lines that are all sent, keep the loop going. */
  lemma {:induction false} Livelock(c: Config, t: Transfer, fate: Fate, n: nat)
    requires t.job.state.Processing?
    requires if t.good then c.params.bytesPerLine == 0 && (forall k :: fate(k).Sent?) else AtBoundary(c, t.lines)
    ensures Iterate(c, t, fate, n).job.state.Processing?
    decreases n
  {
    if n > 0 {
      Livelock(c, Step(c, t, fate(|t.lines|)), fate, n - 1);
    }
  }

  /** Empty lines do not get past a line that is refused. */
  lemma {:induction false} EndsAtRefusal(c: Config, t: Transfer, fate: Fate, m: nat) returns (n: nat)
    requires t.job.state.Processing? && t.good && c.params.bytesPerLine == 0
    requires |t.lines| <= m && fate(m).Rejected?
    ensures n <= m - |t.lines| + 1 && !Iterate(c, t, fate, n).job.state.Processing?
    decreases m - |t.lines|
  {
    var next := Step(c, t, fate(|t.lines|));
    if next.job.state.Processing? {
      var k := EndsAtRefusal(c, next, fate, m);
      n := k + 1;
    } else {
      n := 1;
      assert Iterate(c, next, fate, 0) == next;
    }
  }

  /**
   * If neither the socket nor an image library fails, the transfer loop ends if
   * and only if the stream is good on entry and either lines have at least one
   * byte or the encoder refuses one of them.
   */
  lemma EndsIff(c: Config, j: Job, good: bool)
    requires DeviceEnds(j.device) && Prepare(c, j, good).job.state.Processing?
    ensures Ends(c, Prepare(c, j, good), EncoderFate(c)) <==>
            good && (c.params.bytesPerLine >= 1 || EncoderRefuses(c))
  {
    hide Natural, EncoderRefuses;
    var t, fate := Prepare(c, j, good), EncoderFate(c);
    RefusalIsFirst(c);
    FirstLine(c.params.lines, 0);
    if good && c.params.bytesPerLine >= 1 {
      var n := AlwaysEnds(c, t, fate);
    } else if good && EncoderRefuses(c) {
      var n := EndsAtRefusal(c, t, fate, FirstRefusal(c));
    } else {
      forall n: nat
        ensures Iterate(c, t, fate, n).job.state.Processing?
      {
        Livelock(c, t, fate, n);
      }
    }
  }

  /** What can become of lines: those the encoder refuses are rejected, any other may be sent, rejected or lost. */
  ghost predicate Obeys(c: Config, fate: Fate) {
    forall k :: Natural(c, k).Rejected? ==> fate(k).Rejected?
  }

  /** Failures do not matter: under the same condition the loop ends whatever else becomes of the lines. */
  lemma AlwaysEndsIff(c: Config, j: Job, good: bool)
    requires DeviceEnds(j.device) && Prepare(c, j, good).job.state.Processing?
    ensures (forall fate: Fate :: Obeys(c, fate) ==> Ends(c, Prepare(c, j, good), fate)) <==>
            good && (c.params.bytesPerLine >= 1 || EncoderRefuses(c))
  {
    hide Natural, EncoderRefuses;
    var t := Prepare(c, j, good);
    EndsIff(c, j, good);
    assert Obeys(c, EncoderFate(c));
    if good && (c.params.bytesPerLine >= 1 || EncoderRefuses(c)) {
      RefusalIsFirst(c);
      forall fate: Fate | Obeys(c, fate)
        ensures Ends(c, t, fate)
      {
        var n;
        if c.params.bytesPerLine >= 1 {
          n := AlwaysEnds(c, t, fate);
        } else {
          n := EndsAtRefusal(c, t, fate, FirstRefusal(c));
        }
      }
    }
  }
}
