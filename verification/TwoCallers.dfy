/**
 * Two threads that share one worker thread (basic/workerthread.cpp), as two
 * HTTP requests for the same scan job do. The second caller runs the same code
 * as the first, and notify_one on mThreadCondition wakes either of them.
 */
module TwoCallers {
  import opened Text
  import opened WorkerThread

  /** The state as the first caller sees it, and where the second caller is. */
  datatype Two = Two(s: State, other: CallerAt, otherCall: int)

  datatype Who = First | Second

  datatype Action =
    | Acts(who: Who, event: Event)      // a caller's own statement, wakeup or new call
    | WorkerActs(wakes: Who)            // the worker's next statement, and whom it would wake
    | WorkerWakesUp                     // a spurious wakeup of the worker

  /** The same state as the second caller sees it. */
  function Swap(t: Two): Two {
    Two(t.s.(caller := t.other, call := t.otherCall), t.s.caller, t.s.call)
  }

  function As(who: Who, t: Two): Two {
    if who.First? then t else Swap(t)
  }

  /** One event of the machine with one caller, as the given caller sees it. */
  function FireAs(who: Who, t: Two, e: Event): Two
    requires Enabled(As(who, t).s, e)
  {
    As(who, As(who, t).(s := Fire(As(who, t).s, e)))
  }

  predicate Asleep(at: CallerAt) {
    at.CtorAsleep? || at.CallAsleep?
  }

  predicate CallerEvent(e: Event) {
    e.CallerStep? || e.CallerWakes? || e.NewCall?
  }

  /** A new call may overlap with a call of the other thread only if overlap is allowed. */
  predicate Allowed(overlap: bool, t: Two, a: Action) {
    match a
    case Acts(who, e) =>
      CallerEvent(e) && Enabled(As(who, t).s, e) && (e.NewCall? ==> overlap || As(who, t).other.Ready?)
    case WorkerActs(wakes) =>
      Enabled(t.s, WorkerStep) && (Asleep(As(wakes, t).other) ==> Asleep(As(wakes, t).s.caller))
    case WorkerWakesUp => Enabled(t.s, WorkerWakes)
  }

  function Do(overlap: bool, t: Two, a: Action): Two
    requires Allowed(overlap, t, a)
  {
    match a
    case Acts(who, e) => FireAs(who, t, e)
    case WorkerActs(wakes) => FireAs(wakes, t, WorkerStep)
    case WorkerWakesUp => FireAs(First, t, WorkerWakes)
  }

  predicate Possibly(overlap: bool, t: Two, actions: seq<Action>)
    decreases |actions|
  {
    actions == [] || (Allowed(overlap, t, actions[0]) && Possibly(overlap, Do(overlap, t, actions[0]), actions[1..]))
  }

  function Result(overlap: bool, t: Two, actions: seq<Action>): Two
    requires Possibly(overlap, t, actions)
    decreases |actions|
  {
    if actions == [] then t else Result(overlap, Do(overlap, t, actions[0]), actions[1..])
  }

  /** An object in use: constructed, its worker waiting, no call under way. */
  const IDLE: Two := Two(State(Free, None, false, true, false, Ready, LoopAsleep, 0, 0, []), Ready, 0)

  /** A caller waits and, short of a new call or a spurious wakeup, no thread ever goes on. */
  predicate Stuck(t: Two) {
    && (t.s.caller.CallAsleep? || t.other.CallAsleep?)
    && !Enabled(t.s, CallerStep) && !Enabled(Swap(t).s, CallerStep) && !Enabled(t.s, WorkerStep)
  }

  // ---- calls that do not overlap -------------------------------------------

  /** One caller is between calls; the other one and the worker are as with a single caller. */
  predicate Serial(t: Two) {
    (t.other.Ready? && Inv(t.s)) || (t.s.caller.Ready? && Inv(Swap(t).s))
  }

  /** With both callers between calls it does not matter which one is looked at. */
  lemma EitherView(t: Two)
    requires t.other.Ready? && t.s.caller.Ready?
    ensures Inv(t.s) <==> Inv(Swap(t).s)
  {
  }

  /** A worker that notifies a caller who does not wait does the same whoever looks. */
  lemma WorkerSeenByEither(t: Two)
    requires !Asleep(t.s.caller) && !Asleep(t.other) && Enabled(t.s, WorkerStep)
    ensures FireAs(Second, t, WorkerStep) == FireAs(First, t, WorkerStep)
  {
  }

  lemma SerialStepFirst(t: Two, a: Action)
    requires t.other.Ready? && Inv(t.s) && Allowed(false, t, a)
    ensures Serial(Do(false, t, a))
  {
    hide Inv, Fire;
    match a {
      case Acts(First, e) => FireKeepsInv(t.s, e);
      case Acts(Second, e) =>
        EitherView(t);
        FireKeepsInv(Swap(t).s, e);
      case WorkerActs(wakes) =>
        if wakes.Second? {
          WorkerSeenByEither(t);
        }
        FireKeepsInv(t.s, WorkerStep);
      case WorkerWakesUp => FireKeepsInv(t.s, WorkerWakes);
    }
  }

  function SwapWho(who: Who): Who {
    if who.First? then Second else First
  }

  function SwapAction(a: Action): Action {
    match a
    case Acts(who, e) => Acts(SwapWho(who), e)
    case WorkerActs(wakes) => WorkerActs(SwapWho(wakes))
    case WorkerWakesUp => WorkerWakesUp
  }

  lemma Symmetric(t: Two, a: Action)
    requires Allowed(false, t, a)
    ensures Allowed(false, Swap(t), SwapAction(a)) && Do(false, Swap(t), SwapAction(a)) == Swap(Do(false, t, a))
  {
    assert Swap(Swap(t)) == t;
  }

  lemma SerialStep(t: Two, a: Action)
    requires Serial(t) && Allowed(false, t, a)
    ensures Serial(Do(false, t, a))
  {
    hide Inv, Do, Allowed;
    if t.other.Ready? && Inv(t.s) {
      SerialStepFirst(t, a);
    } else {
      Symmetric(t, a);
      SerialStepFirst(Swap(t), SwapAction(a));
      assert Swap(Swap(Do(false, t, a))) == Do(false, t, a);
    }
  }

  lemma {:induction false} SerialRun(t: Two, actions: seq<Action>)
    requires Serial(t) && Possibly(false, t, actions)
    ensures Serial(Result(false, t, actions))
    decreases |actions|
  {
    if actions != [] {
      SerialStep(t, actions[0]);
      SerialRun(Do(false, t, actions[0]), actions[1..]);
    }
  }

  lemma SerialNotStuck(t: Two)
    requires Serial(t)
    ensures !Stuck(t)
  {
  }

  // ---- calls that overlap --------------------------------------------------

  /** The state a run with overlapping calls leads to. */
  ghost predicate Reaches(actions: seq<Action>, t: Two) {
    Possibly(true, IDLE, actions) && Result(true, IDLE, actions) == t
  }

  lemma {:induction false} RunOn(t: Two, actions: seq<Action>, a: Action)
    requires Possibly(true, t, actions) && Allowed(true, Result(true, t, actions), a)
    ensures Possibly(true, t, actions + [a])
    ensures Result(true, t, actions + [a]) == Do(true, Result(true, t, actions), a)
    decreases |actions|
  {
    hide Do, Allowed;
    if actions == [] {
      assert [] + [a] == [a];
      assert Possibly(true, Do(true, t, a), []);
    } else {
      RunOn(Do(true, t, actions[0]), actions[1..], a);
      assert (actions + [a])[1..] == actions[1..] + [a];
    }
  }

  lemma Then(actions: seq<Action>, t: Two, a: Action) returns (more: seq<Action>, r: Two)
    requires Reaches(actions, t) && Allowed(true, t, a)
    ensures Reaches(more, r) && r == Do(true, t, a)
  {
    hide Do, Allowed;
    RunOn(IDLE, actions, a);
    more, r := actions + [a], Do(true, t, a);
  }

  lemma StartsIdle()
    ensures Reaches([], IDLE)
  {
  }

  /** The worker has run the first call and is about to say so. */
  const FIRST_RUN: Two := Two(State(Worker, None, true, true, false, CallAsleep, Unlock, 0, 1, [0]), Ready, 0)

  lemma FirstCallRuns() returns (actions: seq<Action>)
    ensures Reaches(actions, FIRST_RUN)
  {
    var t := IDLE;
    actions := [];
    hide Reaches;
    StartsIdle();
    actions, t := Then(actions, t, Acts(First, NewCall));
    actions, t := Then(actions, t, Acts(First, CallerStep));
    actions, t := Then(actions, t, Acts(First, CallerStep));
    actions, t := Then(actions, t, Acts(First, CallerStep));
    actions, t := Then(actions, t, WorkerActs(First));
    actions, t := Then(actions, t, WorkerActs(First));
    actions, t := Then(actions, t, WorkerActs(First));
    assert t.s.executed == [0];
  }

  /** The second caller has the mutex although the first one was notified before. */
  const OVERTAKEN: Two := Two(State(Caller, None, true, true, false, CallWoken, LoopTest, 0, 2, [0]), CallPost, 1)

  lemma SecondCallerOvertakes(before: seq<Action>) returns (actions: seq<Action>)
    requires Reaches(before, FIRST_RUN)
    ensures Reaches(actions, OVERTAKEN)
  {
    hide Reaches;
    var t := FIRST_RUN;
    actions := before;
    actions, t := Then(actions, t, Acts(Second, NewCall));
    actions, t := Then(actions, t, WorkerActs(First));
    actions, t := Then(actions, t, Acts(Second, CallerStep));
    actions, t := Then(actions, t, WorkerActs(First));
  }

  /** Both callers wait, the first one for a flag the second one has cleared. */
  const BOTH_WAIT: Two := Two(State(Free, Some(1), false, true, false, CallAsleep, LoopTest, 0, 2, [0]), CallAsleep, 1)

  lemma BothCallersWait(before: seq<Action>) returns (actions: seq<Action>)
    requires Reaches(before, OVERTAKEN)
    ensures Reaches(actions, BOTH_WAIT)
  {
    hide Reaches;
    var t := OVERTAKEN;
    actions := before;
    actions, t := Then(actions, t, Acts(Second, CallerStep));
    actions, t := Then(actions, t, Acts(Second, CallerStep));
    actions, t := Then(actions, t, Acts(First, CallerStep));
    actions, t := Then(actions, t, Acts(First, CallerStep));
  }

  const SECOND_RUN: Two := Two(State(Free, None, true, true, false, CallAsleep, Notify, 0, 2, [0, 1]), CallAsleep, 1)

  lemma SecondCallRuns(before: seq<Action>) returns (actions: seq<Action>)
    requires Reaches(before, BOTH_WAIT)
    ensures Reaches(actions, SECOND_RUN)
  {
    hide Reaches;
    var t := BOTH_WAIT;
    actions := before;
    actions, t := Then(actions, t, WorkerActs(First));
    actions, t := Then(actions, t, WorkerActs(First));
    actions, t := Then(actions, t, WorkerActs(First));
    actions, t := Then(actions, t, WorkerActs(First));
    actions, t := Then(actions, t, WorkerActs(First));
    assert t.s.executed == [0, 1];
  }

  /** Both calls were run and the first caller is back; nobody will wake the second one. */
  const ONE_LEFT: Two := Two(State(Free, None, true, true, false, Ready, LoopAsleep, 0, 2, [0, 1]), CallAsleep, 1)

  /** The one notification for the second call goes to the first caller. */
  lemma NotificationGoesAstray(before: seq<Action>) returns (actions: seq<Action>)
    requires Reaches(before, SECOND_RUN)
    ensures Reaches(actions, ONE_LEFT)
  {
    hide Reaches;
    var t := SECOND_RUN;
    actions := before;
    actions, t := Then(actions, t, WorkerActs(First));
    actions, t := Then(actions, t, Acts(First, CallerStep));
    actions, t := Then(actions, t, Acts(First, CallerStep));
    actions, t := Then(actions, t, WorkerActs(Second));
    actions, t := Then(actions, t, WorkerActs(Second));
    actions, t := Then(actions, t, WorkerActs(Second));
  }

  // ---- what later calls change ---------------------------------------------

  predicate WorkerWaits(s: State) {
    s.worker.LoopTest? || s.worker.LoopLock? || s.worker.LoopCheck? || s.worker.LoopAsleep? || s.worker.LoopWoken?
  }

  /** The second caller waits although its call is over; the first one is at any point of its calls. */
  predicate SecondLeft(t: Two) {
    && t.other.CallAsleep? && !t.s.terminate
    && (t.s.mutex.Caller? <==> CallerHolds(t.s)) && (t.s.mutex.Worker? <==> WorkerHolds(t.s))
    && if t.s.callable.Some? then
         !t.s.callDone && (t.s.caller.CallCheck? || t.s.caller.CallAsleep?) && (WorkerWaits(t.s) || t.s.worker.RunCall?)
       else
         && t.s.callDone
         && if t.s.caller.CallAsleep? then t.s.worker.Unlock? || t.s.worker.Notify?
            else
              && WorkerWaits(t.s)
              && (t.s.caller.Ready? || t.s.caller.CallLock? || t.s.caller.CallPost? || t.s.caller.CallWoken? ||
                  t.s.caller.CallCheck?)
  }

  predicate OneLeft(t: Two) {
    SecondLeft(t) || SecondLeft(Swap(t))
  }

  /** A caller's spurious wakeup, the only thing that helps. */
  predicate WakesByChance(a: Action) {
    a.Acts? && a.event.CallerWakes?
  }

  lemma LeftByCaller(t: Two, e: Event)
    requires SecondLeft(t) && Allowed(true, t, Acts(First, e)) && !e.CallerWakes?
    ensures SecondLeft(FireAs(First, t, e))
  {
  }

  lemma LeftByWorker(t: Two, wakes: Who)
    requires SecondLeft(t) && Allowed(true, t, WorkerActs(wakes))
    ensures OneLeft(FireAs(wakes, t, WorkerStep))
  {
    if wakes.Second? && !t.s.worker.Notify? {
      WorkerSeenByBoth(t);
    }
  }

  /** Short of a notification, what the worker does is the same whoever looks. */
  lemma WorkerSeenByBoth(t: Two)
    requires Enabled(t.s, WorkerStep) && !t.s.worker.Notify? && !t.s.worker.StartNotify?
    ensures FireAs(Second, t, WorkerStep) == FireAs(First, t, WorkerStep)
  {
  }

  lemma LeftStep(t: Two, a: Action)
    requires SecondLeft(t) && Allowed(true, t, a) && !WakesByChance(a)
    ensures OneLeft(Do(true, t, a))
  {
    hide Fire, OneLeft, FireAs;
    match a {
      case Acts(First, e) =>
        LeftByCaller(t, e);
        assert OneLeft(FireAs(First, t, e)) by { LeftIsLeft(FireAs(First, t, e)); }
      case Acts(Second, e) =>
      case WorkerActs(wakes) => LeftByWorker(t, wakes);
      case WorkerWakesUp => LeftByWaking(t);
    }
  }

  lemma LeftIsLeft(t: Two)
    requires SecondLeft(t)
    ensures OneLeft(t)
  {
  }

  lemma LeftByWaking(t: Two)
    requires SecondLeft(t) && Enabled(t.s, WorkerWakes)
    ensures OneLeft(FireAs(First, t, WorkerWakes))
  {
  }

  lemma SymmetricOverlap(t: Two, a: Action)
    requires Allowed(true, t, a)
    ensures Allowed(true, Swap(t), SwapAction(a)) && Do(true, Swap(t), SwapAction(a)) == Swap(Do(true, t, a))
  {
    assert Swap(Swap(t)) == t;
  }

  /**
   * Once a caller was left behind, one is for ever: later calls can only pass
   * the fate on, unless a waiting thread wakes up spuriously.
   */
  lemma {:induction false} SomeoneStaysLeft(t: Two, actions: seq<Action>)
    requires OneLeft(t) && Possibly(true, t, actions)
    requires forall i :: 0 <= i < |actions| ==> !WakesByChance(actions[i])
    ensures
      var r := Result(true, t, actions);
      OneLeft(r) && !(r.s.caller.Ready? && r.other.Ready?)
    decreases |actions|
  {
    hide SecondLeft, Do, Allowed;
    if actions == [] {
      SomeoneWaits(t);
    } else {
      var a := actions[0];
      if SecondLeft(t) {
        LeftStep(t, a);
      } else {
        SymmetricOverlap(t, a);
        LeftStep(Swap(t), SwapAction(a));
        assert Swap(Swap(Do(true, t, a))) == Do(true, t, a);
      }
      assert forall i :: 0 <= i < |actions[1..]| ==> actions[1..][i] == actions[i + 1];
      SomeoneStaysLeft(Do(true, t, a), actions[1..]);
    }
  }

  lemma SomeoneWaits(t: Two)
    requires OneLeft(t)
    ensures !(t.s.caller.Ready? && t.other.Ready?)
  {
  }

  lemma OneLeftIsLeft()
    ensures OneLeft(ONE_LEFT)
  {
  }

  const THIRD_RUN: Two := Two(State(Free, None, true, true, false, CallAsleep, Notify, 2, 3, [0, 1, 2]), CallAsleep, 1)

  /** The first caller calls again. */
  lemma ThirdCallRuns(before: seq<Action>) returns (actions: seq<Action>)
    requires Reaches(before, ONE_LEFT)
    ensures Reaches(actions, THIRD_RUN)
  {
    hide Reaches;
    var t := ONE_LEFT;
    actions := before;
    actions, t := Then(actions, t, Acts(First, NewCall));
    actions, t := Then(actions, t, Acts(First, CallerStep));
    actions, t := Then(actions, t, Acts(First, CallerStep));
    actions, t := Then(actions, t, Acts(First, CallerStep));
    actions, t := Then(actions, t, WorkerActs(First));
    actions, t := Then(actions, t, WorkerActs(First));
    actions, t := Then(actions, t, WorkerActs(First));
    actions, t := Then(actions, t, WorkerActs(First));
    assert t.s.executed == [0, 1, 2];
  }

  /** Now the second caller is back, and the first one is left. */
  const OTHER_LEFT: Two := Two(State(Free, None, true, true, false, CallAsleep, LoopAsleep, 2, 3, [0, 1, 2]), Ready, 1)

  /** The notification for the third call releases the second caller, in place of the first. */
  lemma FatePassesOn(before: seq<Action>) returns (actions: seq<Action>)
    requires Reaches(before, THIRD_RUN)
    ensures Reaches(actions, OTHER_LEFT) && Stuck(OTHER_LEFT)
  {
    hide Reaches;
    var t := THIRD_RUN;
    actions := before;
    actions, t := Then(actions, t, WorkerActs(Second));
    actions, t := Then(actions, t, Acts(Second, CallerStep));
    actions, t := Then(actions, t, Acts(Second, CallerStep));
    actions, t := Then(actions, t, WorkerActs(First));
    actions, t := Then(actions, t, WorkerActs(First));
    actions, t := Then(actions, t, WorkerActs(First));
  }

  // ---- the exact condition -------------------------------------------------

  /** No run leaves a caller waiting with nobody to wake it. */
  ghost predicate EveryCallReturns(overlap: bool) {
    forall actions :: Possibly(overlap, IDLE, actions) ==> !Stuck(Result(overlap, IDLE, actions))
  }

  /**
   * One outstanding call at a time is exactly what the handoff needs: without
   * overlapping calls no caller is ever left behind; with them one can be, and
   * then there is one for ever, however many calls follow.
   */
  lemma OneCallAtATime(overlap: bool)
    ensures EveryCallReturns(overlap) <==> !overlap
    ensures overlap ==> exists actions, t :: Reaches(actions, t) && Stuck(t) && OneLeft(t)
  {
    hide Stuck, Serial, OneLeft;
    if overlap {
      var actions := FirstCallRuns();
      actions := SecondCallerOvertakes(actions);
      actions := BothCallersWait(actions);
      actions := SecondCallRuns(actions);
      actions := NotificationGoesAstray(actions);
      OneLeftIsStuck();
      OneLeftIsLeft();
    } else {
      forall actions | Possibly(false, IDLE, actions)
        ensures !Stuck(Result(false, IDLE, actions))
      {
        assert Serial(IDLE) by { IdleIsSerial(); }
        SerialRun(IDLE, actions);
        SerialNotStuck(Result(false, IDLE, actions));
      }
    }
  }

  lemma OneLeftIsStuck()
    ensures Stuck(ONE_LEFT)
  {
  }

  lemma IdleIsSerial()
    ensures Serial(IDLE)
  {
  }
}
