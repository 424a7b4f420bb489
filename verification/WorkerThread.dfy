/**
 * The worker thread handoff (basic/workerthread.cpp) as a state machine.
 *
 * One caller constructs the object, makes calls one at a time and destroys it;
 * the worker runs threadFunc. Every statement between two points where the
 * other thread can get in is one event: acquiring or releasing the mutex,
 * going to sleep on a condition variable, notifying, testing a flag. A sleeping
 * thread may also wake up spuriously at any time.
 */
module WorkerThread {
  import opened Text

  datatype Holder = Free | Caller | Worker

  datatype CallerAt =
    | CtorCheck | CtorAsleep | CtorWoken                           // constructor, waiting for mStarted
    | Ready                                                        // between calls
    | CallLock | CallPost | CallCheck | CallAsleep | CallWoken     // executeSynchronously
    | DtorLock | DtorSet | DtorNotify | DtorJoin                   // destructor
    | Gone

  datatype WorkerAt =
    | StartLock | StartSet | StartNotify
    | LoopTest | LoopLock | LoopCheck | LoopAsleep | LoopWoken
    | RunCall | Unlock | Notify
    | Exited

  datatype State = State(
    mutex: Holder, callable: Option<int>, callDone: bool, started: bool, terminate: bool,
    caller: CallerAt, worker: WorkerAt,
    call: int,                        // the caller's current call
    issued: nat, executed: seq<int>)  // calls made so far, and the log of those run

  datatype Event =
    | CallerStep | WorkerStep           // the thread's next statement
    | CallerWakes | WorkerWakes         // spurious wakeups
    | NewCall | Destroy                 // what the owner asks for when ready

  predicate CallerHolds(s: State) {
    s.caller.CtorCheck? || s.caller.CallPost? || s.caller.CallCheck? || s.caller.DtorSet?
  }

  predicate WorkerHolds(s: State) {
    s.worker.StartSet? || s.worker.LoopCheck? || s.worker.RunCall? || s.worker.Unlock?
  }

  predicate Enabled(s: State, e: Event) {
    match e
    case CallerStep =>
      if s.caller.CtorWoken? || s.caller.CallLock? || s.caller.CallWoken? || s.caller.DtorLock? then s.mutex.Free?
      else if s.caller.DtorJoin? then s.worker.Exited?
      else CallerHolds(s) || s.caller.DtorNotify?
    case WorkerStep =>
      if s.worker.StartLock? || s.worker.LoopLock? || s.worker.LoopWoken? then s.mutex.Free?
      else WorkerHolds(s) || s.worker.StartNotify? || s.worker.LoopTest? || s.worker.Notify?
    case CallerWakes => s.caller.CtorAsleep? || s.caller.CallAsleep?
    case WorkerWakes => s.worker.LoopAsleep?
    case NewCall => s.caller.Ready?
    case Destroy => s.caller.Ready?
  }

  /** notify_one on mThreadCondition, where only the caller ever waits. */
  function WakeCaller(s: State): State {
    if s.caller.CtorAsleep? then s.(caller := CtorWoken)
    else if s.caller.CallAsleep? then s.(caller := CallWoken)
    else s
  }

  /** notify_one on mExecuteCondition, where only the worker ever waits. */
  function WakeWorker(s: State): State {
    if s.worker.LoopAsleep? then s.(worker := LoopWoken) else s
  }

  function CallerMoves(s: State): State {
    match s.caller
    case CtorCheck => if s.started then s.(caller := Ready, mutex := Free) else s.(caller := CtorAsleep, mutex := Free)
    case CtorWoken => s.(caller := CtorCheck, mutex := Caller)
    case CallLock => s.(caller := CallPost, mutex := Caller)
    case CallPost => WakeWorker(s.(caller := CallCheck, callable := Some(s.call), callDone := false))
    case CallCheck => if s.callDone then s.(caller := Ready, mutex := Free) else s.(caller := CallAsleep, mutex := Free)
    case CallWoken => s.(caller := CallCheck, mutex := Caller)
    case DtorLock => s.(caller := DtorSet, mutex := Caller)
    case DtorSet => s.(caller := DtorNotify, terminate := true, mutex := Free)
    case DtorNotify => WakeWorker(s.(caller := DtorJoin))
    case DtorJoin => s.(caller := Gone)
    case _ => s
  }

  function WorkerMoves(s: State): State {
    match s.worker
    case StartLock => s.(worker := StartSet, mutex := Worker)
    case StartSet => s.(worker := StartNotify, started := true, mutex := Free)
    case StartNotify => WakeCaller(s.(worker := LoopTest))
    case LoopTest => s.(worker := if s.terminate then Exited else LoopLock)
    case LoopLock => s.(worker := LoopCheck, mutex := Worker)
    case LoopWoken => s.(worker := LoopCheck, mutex := Worker)
    case LoopCheck =>
      if s.callable.Some? then s.(worker := RunCall)
      else if s.terminate then s.(worker := LoopTest, mutex := Free)
      else s.(worker := LoopAsleep, mutex := Free)
    case RunCall =>
      s.(worker := Unlock, callable := None, callDone := true,
         executed := s.executed + if s.callable.Some? then [s.callable.value] else [])
    case Unlock => s.(worker := Notify, mutex := Free)
    case Notify => WakeCaller(s.(worker := LoopTest))
    case _ => s
  }

  function Fire(s: State, e: Event): State
    requires Enabled(s, e)
  {
    match e
    case CallerStep => CallerMoves(s)
    case WorkerStep => WorkerMoves(s)
    case CallerWakes => WakeCaller(s)
    case WorkerWakes => WakeWorker(s)
    case NewCall => s.(caller := CallLock, call := s.issued, issued := s.issued + 1)
    case Destroy => s.(caller := DtorLock)
  }

  /** The constructor holds the mutex while it creates the thread. */
  const INITIAL: State := State(Caller, None, false, false, false, CtorCheck, StartLock, 0, 0, [])

  // ---- invariant -----------------------------------------------------------

  predicate CallPosted(s: State) {
    s.caller.CallCheck? || s.caller.CallAsleep? || s.caller.CallWoken?
  }

  predicate Inv(s: State) {
    // mutual exclusion
    && (s.mutex.Caller? <==> CallerHolds(s)) && (s.mutex.Worker? <==> WorkerHolds(s))
    // phases
    && (s.started <==> !s.worker.StartLock? && !s.worker.StartSet?)
    && (!s.started ==> s.caller.CtorCheck? || s.caller.CtorAsleep? || s.caller.CtorWoken?)
    && (s.terminate <==> s.caller.DtorNotify? || s.caller.DtorJoin? || s.caller.Gone?)
    && (s.worker.Exited? ==> s.terminate) && (s.caller.Gone? ==> s.worker.Exited?)
    // every call is run once, in order
    && (forall i :: 0 <= i < |s.executed| ==> s.executed[i] == i)
    && s.issued == |s.executed| + (if s.callable.Some? || s.caller.CallLock? || s.caller.CallPost? then 1 else 0)
    && (s.caller.CallLock? || s.caller.CallPost? ==> s.call == |s.executed|)
    && (s.callable.Some? ==> CallPosted(s) && !s.callDone && s.callable.value == |s.executed|)
    && (CallPosted(s) && s.callable.None? ==> s.callDone)
    && (s.worker.RunCall? ==> s.callable.Some?)
    && (s.worker.Unlock? ==> s.callable.None? && CallPosted(s))
    // no wakeup is lost
    && (s.caller.CtorAsleep? && s.started ==> s.worker.StartNotify?)
    && (s.caller.CallAsleep? && s.callDone ==> s.worker.Unlock? || s.worker.Notify?)
    && (s.worker.LoopAsleep? ==> s.callable.None? && (s.terminate ==> s.caller.DtorNotify?))
  }

  lemma FireKeepsInv(s: State, e: Event)
    requires Inv(s) && Enabled(s, e)
    ensures Inv(Fire(s, e))
  {
    match e {
      case CallerStep => CallerKeepsInv(s);
      case WorkerStep => WorkerKeepsInv(s);
      case CallerWakes =>
      case WorkerWakes =>
      case NewCall =>
      case Destroy =>
    }
  }

  lemma CallerKeepsInv(s: State)
    requires Inv(s) && Enabled(s, CallerStep)
    ensures Inv(CallerMoves(s))
  {
  }

  lemma WorkerKeepsInv(s: State)
    requires Inv(s) && Enabled(s, WorkerStep)
    ensures Inv(WorkerMoves(s))
  {
  }

  /** A sequence of events of which each is enabled when it happens. */
  predicate Possible(s: State, events: seq<Event>)
    decreases |events|
  {
    events == [] || (Enabled(s, events[0]) && Possible(Fire(s, events[0]), events[1..]))
  }

  function After(s: State, events: seq<Event>): State
    requires Possible(s, events)
    decreases |events|
  {
    if events == [] then s else After(Fire(s, events[0]), events[1..])
  }

  lemma {:induction false} EveryRunKeepsInv(s: State, events: seq<Event>)
    requires Inv(s) && Possible(s, events)
    ensures Inv(After(s, events))
    decreases |events|
  {
    if events != [] {
      FireKeepsInv(s, events[0]);
      EveryRunKeepsInv(Fire(s, events[0]), events[1..]);
    }
  }

  /**
   * In every run: calls are executed in order and at most once each, and when
   * the caller is back from its calls each of them was executed exactly once.
   */
  lemma ExactlyOnce(events: seq<Event>)
    requires Possible(INITIAL, events)
    ensures
      var s := After(INITIAL, events);
      && (forall i :: 0 <= i < |s.executed| ==> s.executed[i] == i)
      && |s.executed| <= s.issued <= |s.executed| + 1
      && (s.caller.Ready? ==> |s.executed| == s.issued)
      && (s.caller.CallPost? ==> s.callable.None?)
      && (s.worker.RunCall? ==> s.callable.Some? && !s.callDone)
  {
    EveryRunKeepsInv(INITIAL, events);
  }

  // ---- progress ------------------------------------------------------------

  /** Unless the object is idle or destroyed, one of the two threads can go on without a spurious wakeup. */
  lemma NeverStuck(s: State)
    requires Inv(s)
    ensures
      || Enabled(s, CallerStep) || Enabled(s, WorkerStep)
      || (s.caller.Ready? && s.worker.LoopAsleep?) || s.caller.Gone?
  {
  }

  function CallerRank(s: State): nat {
    match s.caller
    case CtorCheck => 1
    case CtorAsleep => 0
    case CtorWoken => 2
    case Ready => 0
    case CallLock => 16
    case CallPost => 15
    case CallCheck => 1
    case CallAsleep => 0
    case CallWoken => 2
    case DtorLock => 9
    case DtorSet => 8
    case DtorNotify => 5
    case DtorJoin => 1
    case Gone => 0
  }

  function WorkerRank(s: State): nat {
    match s.worker
    case StartLock => 9
    case StartSet => 8
    case StartNotify => 7
    case LoopTest => if s.terminate then 1 else 3
    case LoopLock => if s.terminate then 3 else 2
    case LoopCheck => if s.terminate then 2 else 1
    case LoopAsleep => 0
    case LoopWoken => if s.terminate then 3 else 2
    case RunCall => 0
    case Unlock => 8
    case Notify => 7
    case Exited => 0
  }

  /** How many statements the two threads can still execute by themselves, at most. */
  function Rank(s: State): nat {
    CallerRank(s) + WorkerRank(s) + if s.callable.Some? then 10 else 0
  }

  lemma RankFalls(s: State, e: Event)
    requires Inv(s) && Enabled(s, e)
    ensures e.CallerStep? || e.WorkerStep? ==> Rank(Fire(s, e)) < Rank(s)
    ensures e.CallerWakes? || e.WorkerWakes? ==> Rank(Fire(s, e)) <= Rank(s) + 3
  {
  }

  function Spurious(events: seq<Event>): nat {
    if events == [] then 0
    else (if events[0].CallerWakes? || events[0].WorkerWakes? then 1 else 0) + Spurious(events[1..])
  }

  /**
   * However the threads are scheduled, a run that asks for nothing new has a
   * bounded number of steps, each spurious wakeup adding at most three; so a
   * call, once made, comes back, and destruction joins.
   */
  lemma {:induction false} RunsAreBounded(s: State, events: seq<Event>)
    requires Inv(s) && Possible(s, events)
    requires forall i :: 0 <= i < |events| ==> !events[i].NewCall? && !events[i].Destroy?
    ensures |events| + Rank(After(s, events)) <= Rank(s) + 4 * Spurious(events)
    decreases |events|
  {
    if events != [] {
      RankFalls(s, events[0]);
      FireKeepsInv(s, events[0]);
      assert forall i :: 0 <= i < |events[1..]| ==> events[1..][i] == events[i + 1];
      RunsAreBounded(Fire(s, events[0]), events[1..]);
    }
  }

  /** The destructor was entered. */
  predicate Leaving(s: State) {
    s.caller.DtorLock? || s.caller.DtorSet? || s.caller.DtorNotify? || s.caller.DtorJoin? || s.caller.Gone?
  }

  lemma {:induction false} LeavesOnceDestroyed(s: State, events: seq<Event>)
    requires Possible(s, events) && (Leaving(s) || Destroy in events)
    ensures Leaving(After(s, events))
    decreases |events|
  {
    if events != [] {
      var next := Fire(s, events[0]);
      assert Leaving(s) ==> Leaving(next);
      assert Destroy in events ==> events[0] == Destroy || Destroy in events[1..];
      LeavesOnceDestroyed(next, events[1..]);
    }
  }

  /**
   * A run that cannot be continued ends with every call executed: idle, or, if
   * the object was destroyed, with the worker joined.
   */
  lemma EndsWell(s: State, events: seq<Event>)
    requires Inv(s) && Possible(s, events)
    requires !Enabled(After(s, events), CallerStep) && !Enabled(After(s, events), WorkerStep)
    ensures
      var r := After(s, events);
      && (r.caller.Ready? || (r.caller.Gone? && r.worker.Exited?))
      && (Destroy in events ==> r.caller.Gone?)
      && |r.executed| == r.issued && r.mutex.Free?
  {
    EveryRunKeepsInv(s, events);
    NeverStuck(After(s, events));
    if Destroy in events {
      LeavesOnceDestroyed(s, events);
    }
  }
}
