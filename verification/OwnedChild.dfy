/**
 Ownership of one child process and its process group: who may still signal it, and what has to be seen
 before its exit counts as confirmed. Answers of the operating system are arbitrary, except that the
 identity of a reaped process cannot be revalidated.
 */
module OwnedChild {
  import opened DiscoveryDomain

  datatype Target = Root | Group

  /** A signal that was sent, and whether the root had been reaped by then. Number 0 only probes. */
  datatype Signal = Signal(target: Target, number: nat, afterReap: bool)

  const SIGKILL: nat := 9
  const SIGTERM: nat := 15
  const SIGCONT: nat := 19

  datatype Outcome = Delivered | Absent | Denied | Failed

  datatype Validation = Confirmed | RootMissing | BoundaryGone | Unavailable

  datatype Waited = Reaped | StillRunning | Interrupted | WaitError | UnexpectedPid

  datatype CleanupFailure = Api | Timeout | BoundaryLost | RevalidationUnavailable | UnexpectedWait

  /** What was asked of the operating system, and what it answered. */
  datatype Event =
    | Sent(signal: Signal, outcome: Outcome)
    | Checked(validation: Validation)
    | Awaited(answer: Waited)

  datatype Execution = Suspended | Running

  datatype Poll = Exited | StillAlive | PollRefused

  datatype StopResult = StopDelivered | SignalUnavailable | StopRefused

  /** No signal but a probe reaches a process or group whose root is gone. */
  ghost predicate Harmless(log: seq<Event>) {
    forall i | 0 <= i < |log| && log[i].Sent? :: log[i].signal.number != 0 ==> !log[i].signal.afterReap
  }

  /** The last thing that was sent is a probe that found the group absent. */
  ghost predicate EndsAbsent(log: seq<Event>) {
    exists i ::
      && 0 <= i < |log| && log[i].Sent? && log[i].outcome.Absent?
      && log[i].signal.target == Group && log[i].signal.number == 0
      && forall j | i < j < |log| :: !log[j].Sent?
  }

  lemma WaitingKeepsAbsent(log: seq<Event>, waited: Waited)
    requires EndsAbsent(log)
    ensures EndsAbsent(log + [Awaited(waited)])
  {
    var i :| 0 <= i < |log| && log[i].Sent? && log[i].outcome.Absent? && log[i].signal.target == Group
             && log[i].signal.number == 0 && forall j | i < j < |log| :: !log[j].Sent?;
    assert (log + [Awaited(waited)])[i] == log[i];
  }

  lemma ProbeEndsAbsent(log: seq<Event>, afterReap: bool)
    ensures EndsAbsent(log + [Sent(Signal(Group, 0, afterReap), Absent)])
  {
    assert (log + [Sent(Signal(Group, 0, afterReap), Absent)])[|log|]
           == Sent(Signal(Group, 0, afterReap), Absent);
  }

  // ----- What calls ask and conclude -----

  predicate IsSent(event: Event, target: Target, number: nat, afterReap: bool) {
    event.Sent? && event.signal == Signal(target, number, afterReap)
  }

  /** The root is waited for until the answer says something, or the deadline has passed: at least once. */
  predicate RootWaits(asked: seq<Event>) {
    && asked != []
    && (forall i | 0 <= i < |asked| :: asked[i].Awaited?)
    && (forall i | 0 <= i < |asked| - 1 :: asked[i].answer.StillRunning? || asked[i].answer.Interrupted?)
  }

  function WaitFailure(asked: seq<Event>): Option<CleanupFailure>
    requires RootWaits(asked)
  {
    match asked[|asked| - 1].answer
    case Reaped => None
    case WaitError => Some(Api)
    case UnexpectedPid => Some(UnexpectedWait)
    case StillRunning => Some(Timeout)
    case Interrupted => Some(Timeout)
  }

  /** The group is probed until it is absent, or the deadline has passed: at least once. */
  predicate GroupProbes(asked: seq<Event>) {
    && asked != []
    && (forall i | 0 <= i < |asked| :: IsSent(asked[i], Group, 0, true))
    && (forall i | 0 <= i < |asked| - 1 :: asked[i].outcome.Delivered? || asked[i].outcome.Denied?)
  }

  function ProbeFailure(asked: seq<Event>): Option<CleanupFailure>
    requires GroupProbes(asked)
  {
    match asked[|asked| - 1].outcome
    case Absent => None
    case Failed => Some(Api)
    case Delivered => Some(Timeout)
    case Denied => Some(Timeout)
  }

  /** The root is killed by its number and waited for; that the signal failed matters only if the wait does. */
  predicate RootKill(asked: seq<Event>) {
    |asked| >= 2 && IsSent(asked[0], Root, SIGKILL, false) && RootWaits(asked[1..])
  }

  function KillFailure(asked: seq<Event>): Option<CleanupFailure>
    requires RootKill(asked)
  {
    var wait := WaitFailure(asked[1..]);
    if wait.Some? && (asked[0].outcome.Denied? || asked[0].outcome.Failed?) then Some(Api) else wait
  }

  /** A root whose group cannot be told any more is killed, and the boundary reported lost. */
  ghost predicate BoundaryLostEnds(asked: seq<Event>, reaped: bool, failure: Option<CleanupFailure>) {
    if reaped then asked == [] && failure == Some(BoundaryLost)
    else
      && RootKill(asked)
      && failure == (if KillFailure(asked).None? then Some(BoundaryLost) else KillFailure(asked))
  }

  /** After the group was killed: the root is reaped first, and then the group has to go. */
  ghost predicate GroupEnds(asked: seq<Event>, reaped: bool, failure: Option<CleanupFailure>) {
    if reaped then GroupProbes(asked) && failure == ProbeFailure(asked)
    else
      || (RootWaits(asked) && WaitFailure(asked).Some? && failure == WaitFailure(asked))
      || exists n ::
           && 0 < n < |asked| && RootWaits(asked[..n]) && WaitFailure(asked[..n]).None?
           && GroupProbes(asked[n..]) && failure == ProbeFailure(asked[n..])
  }

  /** The end of a running process: what is asked depends on what earlier attempts found. */
  ghost predicate RunningGroupEnds(
    asked: seq<Event>, boundaryLost: bool, killSent: bool, reaped: bool, failure: Option<CleanupFailure>)
  {
    if boundaryLost then BoundaryLostEnds(asked, reaped, failure)
    else if killSent then GroupEnds(asked, reaped, failure)
    else
      && asked != [] && asked[0].Checked?
      && match asked[0].validation
         case BoundaryGone => BoundaryLostEnds(asked[1..], false, failure)
         case Unavailable => |asked| == 1 && failure == Some(RevalidationUnavailable)
         case Confirmed => GroupKilled(asked[1..], failure)
         case RootMissing => GroupKilled(asked[1..], failure)
  }

  ghost predicate GroupKilled(asked: seq<Event>, failure: Option<CleanupFailure>) {
    && asked != [] && IsSent(asked[0], Group, SIGKILL, false)
    && (if asked[0].outcome.Denied? || asked[0].outcome.Failed? then |asked| == 1 && failure == Some(Api)
        else GroupEnds(asked[1..], false, failure))
  }

  /** A stop signal reaches the whole group, and only after the identity was confirmed. */
  predicate StopSent(asked: seq<Event>, number: nat, result: StopResult) {
    && asked != [] && asked[0].Checked?
    && match asked[0].validation
       case Confirmed =>
         && |asked| == 2 && IsSent(asked[1], Group, number, false)
         && result == if asked[1].outcome.Delivered? then StopDelivered else SignalUnavailable
       case RootMissing => |asked| == 1 && result.SignalUnavailable?
       case BoundaryGone => |asked| == 1 && result.StopRefused?
       case Unavailable => |asked| == 1 && result.StopRefused?
  }

  /** One look: the root is waited for once, and only when its group is absent. */
  predicate ExitPolled(asked: seq<Event>, reaped: bool, poll: Poll) {
    && asked != [] && IsSent(asked[0], Group, 0, reaped)
    && match asked[0].outcome
       case Delivered => |asked| == 1 && poll.StillAlive?
       case Denied => |asked| == 1 && poll.StillAlive?
       case Failed => |asked| == 1 && poll.PollRefused?
       case Absent =>
         if reaped then |asked| == 1 && poll.Exited?
         else
           && |asked| == 2 && asked[1].Awaited?
           && poll == if asked[1].answer.Reaped? then Exited else PollRefused
  }

  class Child {
    var execution: Execution
    var groupKillSent: bool
    var groupBoundaryLost: bool
    var rootReaped: bool
    var stopAttemptObserved: bool
    var controlledExitConfirmed: bool
    ghost var log: seq<Event>

    /** A reaped root is remembered in a way that keeps every later call from signalling it. */
    ghost predicate Valid()
      reads this
    {
      && Harmless(log) && ReapIsSeen()
      && (controlledExitConfirmed ==> execution.Running? && rootReaped && EndsAbsent(log))
      && (rootReaped && execution.Running? ==> groupKillSent || groupBoundaryLost || controlledExitConfirmed)
    }

    /** The root counts as reaped exactly once a wait has said so. */
    ghost predicate ReapIsSeen()
      reads this`rootReaped, this`log
    {
      rootReaped <==> Awaited(Reaped) in log
    }

    /** What was asked since, and answered. */
    ghost function Since(earlier: seq<Event>): seq<Event>
      requires earlier <= log
      reads this`log
    {
      log[|earlier|..]
    }

    constructor ()
      ensures Valid() && execution.Suspended? && !rootReaped && !controlledExitConfirmed && log == []
    {
      execution := Suspended;
      groupKillSent, groupBoundaryLost, rootReaped := false, false, false;
      stopAttemptObserved, controlledExitConfirmed := false, false;
      log := [];
    }

    // ----- The operating system -----

    method SendSignal(target: Target, number: nat) returns (outcome: Outcome)
      modifies this`log
      ensures log == old(log) + [Sent(Signal(target, number, rootReaped), outcome)]
    {
      outcome := *;
      log := log + [Sent(Signal(target, number, rootReaped), outcome)];
    }

    method RevalidateIdentityAndGroup() returns (v: Validation)
      modifies this`log
      ensures log == old(log) + [Checked(v)]
      ensures rootReaped ==> !v.Confirmed?
    {
      v := *;
      if v.Confirmed? && rootReaped {
        v := RootMissing;
      }
      log := log + [Checked(v)];
    }

    method WaitNoHang() returns (w: Waited)
      modifies this`rootReaped, this`log
      ensures log == old(log) + [Awaited(w)]
      ensures rootReaped == (old(rootReaped) || w.Reaped?)
    {
      w := *;
      log := log + [Awaited(w)];
      if w.Reaped? {
        rootReaped := true;
      }
    }

    // ----- Cleanup -----

    /** Polls until the root is reaped or the deadline passes. */
    method WaitForRootExit() returns (failure: Option<CleanupFailure>)
      requires ReapIsSeen()
      modifies this`rootReaped, this`log
      ensures old(log) <= log && ReapIsSeen()
      ensures if old(rootReaped) then failure.None? && log == old(log)
              else RootWaits(Since(old(log))) && failure == WaitFailure(Since(old(log)))
      ensures rootReaped <==> failure.None?
    {
      if rootReaped {
        return None;
      }
      var budget: nat := *;
      while true
        invariant !rootReaped && old(log) <= log && ReapIsSeen()
        invariant forall e | e in Since(old(log)) :: e.Awaited? && (e.answer.StillRunning? || e.answer.Interrupted?)
        decreases budget
      {
        var waited := WaitNoHang();
        assert Since(old(log))[|Since(old(log))| - 1] == Awaited(waited);
        match waited
        case Reaped => return None;
        case WaitError => return Some(Api);
        case UnexpectedPid => return Some(UnexpectedWait);
        case _ =>
        if budget == 0 {
          return Some(Timeout);
        }
        budget := budget - 1;
      }
    }

    method WaitForGroupAbsent() returns (failure: Option<CleanupFailure>)
      requires rootReaped && Harmless(log) && ReapIsSeen()
      modifies this`log
      ensures old(log) <= log && ReapIsSeen() && GroupProbes(Since(old(log)))
              && failure == ProbeFailure(Since(old(log)))
      ensures Harmless(log) && (failure.None? ==> EndsAbsent(log))
    {
      var budget: nat := *;
      while true
        invariant old(log) <= log && Harmless(log) && ReapIsSeen()
        invariant forall e | e in Since(old(log)) ::
                    IsSent(e, Group, 0, true) && (e.outcome.Delivered? || e.outcome.Denied?)
        decreases budget
      {
        ghost var before := log;
        var outcome := SendSignal(Group, 0);
        assert Since(old(log))[|Since(old(log))| - 1] == Sent(Signal(Group, 0, true), outcome);
        match outcome
        case Absent =>
          ProbeEndsAbsent(before, true);
          return None;
        case Failed => return Some(Api);
        case _ =>
        if budget == 0 {
          return Some(Timeout);
        }
        budget := budget - 1;
      }
    }

    method KillAndWaitRoot() returns (failure: Option<CleanupFailure>)
      requires Harmless(log) && ReapIsSeen()
      modifies this`rootReaped, this`log
      ensures old(log) <= log && Harmless(log) && ReapIsSeen()
      ensures if old(rootReaped) then failure.None? && log == old(log)
              else RootKill(Since(old(log))) && failure == KillFailure(Since(old(log)))
      ensures rootReaped <==> failure.None?
    {
      if rootReaped {
        return None;
      }
      failure := TerminateSuspended();
    }

    /** A suspended root is killed by its number without a look: harmless exactly until it is reaped. */
    method TerminateSuspended() returns (failure: Option<CleanupFailure>)
      requires Harmless(log) && ReapIsSeen()
      modifies this`rootReaped, this`log
      ensures old(log) <= log && ReapIsSeen() && (Harmless(log) <==> !old(rootReaped))
      ensures if old(rootReaped) then failure.None? && |Since(old(log))| == 1
                                      && IsSent(Since(old(log))[0], Root, SIGKILL, true)
              else RootKill(Since(old(log))) && failure == KillFailure(Since(old(log)))
      ensures rootReaped <==> failure.None?
    {
      var outcome := SendSignal(Root, SIGKILL);
      assert log[|log| - 1].signal.afterReap == rootReaped;
      ghost var sent := log;
      var wait := WaitForRootExit();
      assert Since(old(log))[1..] == Since(sent);
      failure := if wait.Some? && (outcome.Denied? || outcome.Failed?) then Some(Api) else wait;
    }

    /**
     Kill and confirm. A suspended child is killed by its own number, and may therefore be asked for this
     only until its root is reaped; a running one by its group, once, while the root still holds the group.
     */
    method TerminateAndConfirm() returns (failure: Option<CleanupFailure>)
      requires Valid() && (execution.Suspended? ==> !rootReaped)
      modifies this`groupKillSent, this`groupBoundaryLost, this`rootReaped, this`controlledExitConfirmed, this`log
      ensures Valid() && old(log) <= log
      ensures failure.None? ==> rootReaped && (execution.Running? ==> controlledExitConfirmed)
      ensures execution.Suspended? && failure.Some? ==> !rootReaped
      ensures Terminated(old(View()), Since(old(log)), failure)
    {
      if controlledExitConfirmed {
        return None;
      }
      if execution.Suspended? {
        failure := TerminateSuspended();
      } else {
        failure := TerminateRunningGroup();
      }
    }

    ghost function View(): Evidence
      reads this
    {
      Evidence(execution, groupKillSent, groupBoundaryLost, rootReaped, controlledExitConfirmed)
    }

    method TerminateRunningGroup() returns (failure: Option<CleanupFailure>)
      requires Valid() && execution.Running? && !controlledExitConfirmed
      modifies this`groupKillSent, this`groupBoundaryLost, this`rootReaped, this`controlledExitConfirmed, this`log
      ensures Valid() && old(log) <= log && (failure.None? <==> controlledExitConfirmed)
      ensures RunningGroupEnds(
                Since(old(log)), old(groupBoundaryLost), old(groupKillSent), old(rootReaped), failure)
      ensures groupBoundaryLost <==> old(groupBoundaryLost) || Checked(BoundaryGone) in Since(old(log))
    {
      hide GroupEnds, GroupKilled, BoundaryLostEnds;
      if groupBoundaryLost {
        failure := LoseBoundary();
        return;
      }
      if groupKillSent {
        failure := ConfirmGroupExit();
        return;
      }
      var validation := RevalidateIdentityAndGroup();
      ghost var checked := log;
      match validation
      case BoundaryGone =>
        failure := LoseBoundary();
        groupBoundaryLost := true;
        assert Since(old(log))[1..] == Since(checked);
      case Unavailable => failure := Some(RevalidationUnavailable);
      case _ =>
        failure := KillGroup();
        assert Since(old(log))[1..] == Since(checked);
    }

    method KillGroup() returns (failure: Option<CleanupFailure>)
      requires Valid() && execution.Running? && !controlledExitConfirmed && !groupKillSent && !rootReaped
      modifies this`groupKillSent, this`rootReaped, this`controlledExitConfirmed, this`log
      ensures Valid() && old(log) <= log && (failure.None? <==> controlledExitConfirmed)
      ensures GroupKilled(Since(old(log)), failure) && Checked(BoundaryGone) !in Since(old(log))
    {
      hide GroupEnds;
      var outcome := SendSignal(Group, SIGKILL);
      if outcome.Denied? || outcome.Failed? {
        return Some(Api);
      }
      groupKillSent := true;
      ghost var killed := log;
      failure := ConfirmGroupExit();
      assert Since(old(log))[1..] == Since(killed);
    }

    method LoseBoundary() returns (failure: Option<CleanupFailure>)
      requires Harmless(log) && ReapIsSeen()
      modifies this`rootReaped, this`log
      ensures old(log) <= log && Harmless(log) && ReapIsSeen()
              && BoundaryLostEnds(Since(old(log)), old(rootReaped), failure)
      ensures failure.Some? && (old(rootReaped) ==> rootReaped)
    {
      failure := KillAndWaitRoot();
      if failure.None? {
        failure := Some(BoundaryLost);
      }
    }

    /** The root is reaped first, and then the group has to go. */
    method ConfirmGroupExit() returns (failure: Option<CleanupFailure>)
      requires Valid() && execution.Running? && groupKillSent && !controlledExitConfirmed
      modifies this`rootReaped, this`controlledExitConfirmed, this`log
      ensures Valid() && old(log) <= log && (failure.None? <==> controlledExitConfirmed)
      ensures GroupEnds(Since(old(log)), old(rootReaped), failure) && Checked(BoundaryGone) !in Since(old(log))
    {
      failure := WaitForRootExit();
      if failure.Some? {
        return;
      }
      ghost var waited := log;
      failure := WaitForGroupAbsent();
      ghost var n := |waited| - |old(log)|;
      assert Since(old(log))[..n] == waited[|old(log)|..] && Since(old(log))[n..] == Since(waited);
      if failure.None? {
        controlledExitConfirmed := true;
      }
    }

    // ----- A running process -----

    method SendManagedStopSignal(number: nat, force: bool) returns (result: StopResult)
      requires Valid() && execution.Running? && number != 0
      modifies this`groupKillSent, this`stopAttemptObserved, this`log
      ensures Valid() && old(log) <= log && StopSent(Since(old(log)), number, result)
      ensures result.StopDelivered? ==> !rootReaped
      ensures stopAttemptObserved <==> old(stopAttemptObserved) || !result.StopRefused?
      ensures groupKillSent
              <==> || old(groupKillSent)
                   || (force && |Since(old(log))| == 2
                       && (Since(old(log))[1].outcome.Delivered? || Since(old(log))[1].outcome.Absent?))
    {
      var validation := RevalidateIdentityAndGroup();
      if !validation.Confirmed? {
        if validation.RootMissing? {
          stopAttemptObserved := true;
          return SignalUnavailable;
        }
        return StopRefused;
      }
      var outcome := SendSignal(Group, number);
      stopAttemptObserved := true;
      if outcome.Delivered? || outcome.Absent? {
        if force {
          groupKillSent := true;
        }
      }
      result := if outcome.Delivered? then StopDelivered else SignalUnavailable;
    }

    /** Exit after a stop: refused until a stop was attempted. */
    method PollManagedExit() returns (poll: Poll)
      requires Valid() && execution.Running?
      modifies this`rootReaped, this`controlledExitConfirmed, this`log
      ensures Valid() && old(log) <= log && (poll.Exited? <==> controlledExitConfirmed)
      ensures if old(controlledExitConfirmed) then log == old(log)
              else if !stopAttemptObserved then poll.PollRefused? && log == old(log)
              else ExitPolled(Since(old(log)), old(rootReaped), poll)
    {
      if controlledExitConfirmed {
        return Exited;
      }
      if !stopAttemptObserved {
        return PollRefused;
      }
      poll := PollCompleteGroupExit();
    }

    method PollNaturalExit() returns (poll: Poll)
      requires Valid() && execution.Running?
      modifies this`rootReaped, this`controlledExitConfirmed, this`log
      ensures Valid() && old(log) <= log && (poll.Exited? <==> controlledExitConfirmed)
      ensures if old(controlledExitConfirmed) then log == old(log)
              else ExitPolled(Since(old(log)), old(rootReaped), poll)
    {
      if controlledExitConfirmed {
        return Exited;
      }
      poll := PollCompleteGroupExit();
    }

    /** The root is not reaped while its group still exists. */
    method PollCompleteGroupExit() returns (poll: Poll)
      requires Valid() && execution.Running? && !controlledExitConfirmed
      modifies this`rootReaped, this`controlledExitConfirmed, this`log
      ensures Valid() && old(log) <= log && (poll.Exited? <==> controlledExitConfirmed)
      ensures ExitPolled(Since(old(log)), old(rootReaped), poll)
    {
      var outcome := SendSignal(Group, 0);
      match outcome
      case Delivered => return StillAlive;
      case Denied => return StillAlive;
      case Failed => return PollRefused;
      case Absent =>
      ProbeEndsAbsent(old(log), rootReaped);
      if rootReaped {
        controlledExitConfirmed := true;
        return Exited;
      }
      ghost var probed := log;
      var waited := WaitNoHang();
      WaitingKeepsAbsent(probed, waited);
      if waited.Reaped? {
        controlledExitConfirmed := true;
        return Exited;
      }
      poll := PollRefused;
    }
  }

  /** What is known about a child before it is terminated. */
  datatype Evidence = Evidence(
    execution: Execution, groupKillSent: bool, groupBoundaryLost: bool, rootReaped: bool, exitConfirmed: bool)

  /** A confirmed exit needs nothing; a suspended child is killed by its number, a running one by its group. */
  ghost predicate Terminated(known: Evidence, asked: seq<Event>, failure: Option<CleanupFailure>) {
    if known.exitConfirmed then asked == [] && failure.None?
    else if known.execution.Suspended? then RootKill(asked) && failure == KillFailure(asked)
    else RunningGroupEnds(asked, known.groupBoundaryLost, known.groupKillSent, known.rootReaped, failure)
  }

  // ----- Owners -----

  /** Who holds the child: before and after it was resumed, a failed cleanup to be retried, or nobody. */
  datatype Owner = SuspendedOwner | RunningOwner | PendingCleanup | Released | Quarantined

  datatype Call =
    | Abort | Resume | SendGraceful | SendForce | PollExit | PollNatural | TerminateAndWait | RetryCleanup | Drop

  /** A cleanup: the owner is released, or keeps the evidence for a retry. */
  ghost predicate CleanedUp(known: Evidence, asked: seq<Event>, kept: Owner, next: Owner) {
    exists failure :: Terminated(known, asked, failure) && next == if failure.None? then Released else kept
  }

  /**
   A suspended child whose identity is confirmed and whose SIGCONT is delivered runs; every other one is cleaned
   up.
   */
  ghost predicate Resumed(known: Evidence, asked: seq<Event>, next: Owner) {
    && asked != [] && asked[0].Checked?
    && if !asked[0].validation.Confirmed? then CleanedUp(known, asked[1..], PendingCleanup, next)
       else
         && |asked| >= 2 && IsSent(asked[1], Root, SIGCONT, false)
         && (if asked[1].outcome.Delivered? then |asked| == 2 && next == RunningOwner
             else CleanedUp(known, asked[2..], PendingCleanup, next))
  }

  /** What each call asks, and who holds the child afterwards. A call that is not the owner's changes nothing. */
  ghost predicate CallDone(
    call: Call, owner: Owner, known: Evidence, stopObserved: bool, asked: seq<Event>, next: Owner)
  {
    match call
    case Abort =>
      if owner.SuspendedOwner? then CleanedUp(known, asked, PendingCleanup, next) else asked == [] && next == owner
    case Resume =>
      if owner.SuspendedOwner? then Resumed(known, asked, next) else asked == [] && next == owner
    case SendGraceful =>
      && next == owner
      && (if owner.RunningOwner? then exists result :: StopSent(asked, SIGTERM, result) else asked == [])
    case SendForce =>
      && next == owner
      && (if owner.RunningOwner? then exists result :: StopSent(asked, SIGKILL, result) else asked == [])
    case PollExit =>
      && next == owner
      && (if owner.RunningOwner? && !known.exitConfirmed && stopObserved
          then exists poll :: ExitPolled(asked, known.rootReaped, poll) else asked == [])
    case PollNatural =>
      && next == owner
      && (if owner.RunningOwner? && !known.exitConfirmed
          then exists poll :: ExitPolled(asked, known.rootReaped, poll) else asked == [])
    case TerminateAndWait =>
      if owner.RunningOwner? then CleanedUp(known, asked, PendingCleanup, next) else asked == [] && next == owner
    case RetryCleanup =>
      if owner.PendingCleanup? then CleanedUp(known, asked, PendingCleanup, next) else asked == [] && next == owner
    case Drop =>
      if owner.Released? || owner.Quarantined? then asked == [] && next == owner
      else CleanedUp(known, asked, Quarantined, next)
  }

  /** The owner, the child and everything that was asked so far. */
  datatype Moment = Moment(owner: Owner, known: Evidence, stopObserved: bool, log: seq<Event>)

  ghost predicate Follows(call: Call, before: Moment, after: Moment) {
    && before.log <= after.log
    && CallDone(call, before.owner, before.known, before.stopObserved, after.log[|before.log|..], after.owner)
  }

  class Ownership {
    const child: Child
    var owner: Owner

    ghost predicate Valid()
      reads this, child
    {
      && child.Valid()
      && (owner.SuspendedOwner? ==> child.execution.Suspended?)
      && (owner.RunningOwner? ==> child.execution.Running?)
      && (owner.SuspendedOwner? || owner.PendingCleanup? ==> child.execution.Suspended? ==> !child.rootReaped)
      && (owner.Released? ==> child.rootReaped && (child.execution.Running? ==> child.controlledExitConfirmed))
    }

    ghost function Here(): Moment
      reads this, child
    {
      Moment(owner, child.View(), child.stopAttemptObserved, child.log)
    }

    constructor ()
      ensures Valid() && owner == SuspendedOwner && fresh(child) && child.log == []
    {
      child := new Child();
      owner := SuspendedOwner;
    }

    /** Clean up; a failure keeps the evidence for a retry. */
    method CleanUp()
      requires Valid() && !owner.Released? && !owner.Quarantined?
      modifies this, child
      ensures Valid() && old(child.log) <= child.log
      ensures CleanedUp(old(child.View()), child.Since(old(child.log)), PendingCleanup, owner)
    {
      hide Terminated;
      assert child.execution.Suspended? ==> !child.rootReaped;
      var failure := child.TerminateAndConfirm();
      owner := if failure.None? then Released else PendingCleanup;
      assert Terminated(old(child.View()), child.Since(old(child.log)), failure);
    }

    method ResumeChild()
      requires Valid() && owner.SuspendedOwner?
      modifies this, child
      ensures Valid() && old(child.log) <= child.log
      ensures Resumed(old(child.View()), child.Since(old(child.log)), owner)
    {
      hide CleanedUp;
      var validation := child.RevalidateIdentityAndGroup();
      ghost var checked := child.log;
      if !validation.Confirmed? {
        CleanUp();
        assert child.Since(old(child.log))[1..] == child.Since(checked);
        return;
      }
      var outcome := child.SendSignal(Root, SIGCONT);
      ghost var sent := child.log;
      if !outcome.Delivered? {
        CleanUp();
        assert child.Since(old(child.log))[2..] == child.Since(sent);
        return;
      }
      child.execution := Running;
      owner := RunningOwner;
    }

    /** Dropping an owner cleans up once; if that fails, nobody touches the child again. */
    method DropOwner()
      requires Valid() && !owner.Released? && !owner.Quarantined?
      modifies this, child
      ensures Valid() && old(child.log) <= child.log
      ensures CleanedUp(old(child.View()), child.Since(old(child.log)), Quarantined, owner)
    {
      hide Terminated;
      CleanUp();
      if owner.PendingCleanup? {
        owner := Quarantined;
      }
    }

    method Handle(call: Call)
      requires Valid()
      modifies this, child
      ensures Valid() && Follows(call, old(Here()), Here())
    {
      hide CleanedUp, Resumed, StopSent, ExitPolled;
      match call
      case Abort =>
        if owner.SuspendedOwner? {
          CleanUp();
        }
      case Resume =>
        if owner.SuspendedOwner? {
          ResumeChild();
        }
      case SendGraceful =>
        if owner.RunningOwner? {
          var result := child.SendManagedStopSignal(SIGTERM, false);
        }
      case SendForce =>
        if owner.RunningOwner? {
          var result := child.SendManagedStopSignal(SIGKILL, true);
        }
      case PollExit =>
        if owner.RunningOwner? {
          var poll := child.PollManagedExit();
        }
      case PollNatural =>
        if owner.RunningOwner? {
          var poll := child.PollNaturalExit();
        }
      case TerminateAndWait =>
        if owner.RunningOwner? {
          CleanUp();
        }
      case RetryCleanup =>
        if owner.PendingCleanup? {
          CleanUp();
        }
      case Drop =>
        if !owner.Released? && !owner.Quarantined? {
          DropOwner();
        }
    }
  }

  /**
   Over every sequence of calls, each of which does what is stated for it: no signal but a probe is sent once the
   root has been reaped, and a resumed child counts as exited only after its root was reaped, and after a last
   probe found its group absent.
   */
  method RunCalls(calls: seq<Call>) returns (ownership: Ownership, ghost moments: seq<Moment>)
    ensures fresh(ownership) && ownership.Valid() && Harmless(ownership.child.log)
    ensures |moments| == |calls| + 1 && moments[0].log == [] && moments[|calls|] == ownership.Here()
    ensures forall i | 0 <= i < |calls| :: Follows(calls[i], moments[i], moments[i + 1])
    ensures ownership.child.rootReaped <==> Awaited(Reaped) in ownership.child.log
    ensures ownership.child.controlledExitConfirmed ==> ownership.child.rootReaped && EndsAbsent(ownership.child.log)
    ensures ownership.owner.Released? ==> ownership.child.rootReaped
    ensures ownership.owner.Released? && ownership.child.execution.Running? ==>
              ownership.child.controlledExitConfirmed
  {
    hide Follows;
    ownership := new Ownership();
    moments := [ownership.Here()];
    var i := 0;
    while i < |calls|
      invariant 0 <= i <= |calls| && fresh(ownership) && fresh(ownership.child) && ownership.Valid()
      invariant |moments| == i + 1 && moments[0].log == [] && moments[i] == ownership.Here()
      invariant forall j | 0 <= j < i :: Follows(calls[j], moments[j], moments[j + 1])
    {
      ownership.Handle(calls[i]);
      moments := moments + [ownership.Here()];
      i := i + 1;
    }
  }
}
