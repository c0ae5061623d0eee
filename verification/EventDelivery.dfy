/**
 Delivery of log events: two writers that only ever leave a token in a channel of capacity one, and a
 single consumer that coalesces tokens and reads whatever the files hold. The steps of all three
 interleave freely.
 */
module EventDelivery {
  import opened DiscoveryDomain
  import opened RollingFiles
  import Utf8
  import LogRange

  const JS_MAX_SAFE_INTEGER: nat := 9_007_199_254_740_991
  const MAX_LOG_EVENT_BYTES: nat := 64 * 1024

  datatype Event = Event(
    sequence: nat, firstAvailable: nat, first: nat, next: nat, end: nat, text: Bytes,
    error: Option<nat>)

  /** One stream: what its writer publishes, and how far its consumer has come. */
  datatype Stream = Stream(
    firstAvailable: nat, bytes: Bytes, status: nat,
    notifyOwed: bool, writerAlive: bool,
    cursor: nat, seenStatus: nat, deliveryError: Option<nat>,
    origin: nat, events: seq<Event>)

  datatype Phase = Idle | Throttling | Filling(stream: nat) | Finished

  datatype State = State(streams: seq<Stream>, token: bool, backlog: bool, disconnected: bool, phase: Phase)

  datatype Step =
    | Write(stream: nat, firstAvailable: nat, more: Bytes, status: nat)
    | Notify(stream: nat)
    | DropWriter(stream: nat)
    | TakeToken
    | StartBacklog
    | ConsumeToken
    | NoticeDisconnect
    | BeginFill
    | FillOk(range: LogRange.Range)
    | FillFailed(error: nat)
    | ReturnNone

  function NewStream(found: Bytes): Stream {
    Stream(0, found, 0, false, true, |found|, 0, None, |found|, [])
  }

  /** Delivery starts where the files ended when they were opened. */
  function Start(found: (Bytes, Bytes)): State {
    State([NewStream(found.0), NewStream(found.1)], false, false, false, Idle)
  }

  predicate WellFormed(s: State) {
    && |s.streams| == 2
    && (s.phase.Filling? ==> s.phase.stream < 2)
    && (forall i | 0 <= i < 2 :: s.streams[i].firstAvailable <= |s.streams[i].bytes|)
  }

  predicate WritersGone(s: State)
    requires |s.streams| == 2
  {
    !s.streams[0].writerAlive && !s.streams[1].writerAlive
  }

  /** Where a read starts: at the cursor, or at the first byte that is still there. */
  function ReadStart(t: Stream): nat {
    LogRange.Clamp(t.cursor, t.firstAvailable, |t.bytes|)
  }

  /** What a read from the cursor returns if it succeeds. */
  ghost predicate ReadsFromCursor(t: Stream, range: LogRange.Range) {
    LogRange.ReadsStream(t.bytes, t.firstAvailable, Some(t.cursor), MAX_LOG_EVENT_BYTES, range)
  }

  /** The first byte available may also move back, when a window is reconciled. */
  ghost predicate Enabled(s: State, step: Step) {
    && WellFormed(s)
    && match step
       case Write(i, firstAvailable, more, status) =>
         && i < 2 && s.streams[i].writerAlive && !s.streams[i].notifyOwed
         && firstAvailable <= |s.streams[i].bytes + more|
       case Notify(i) => i < 2 && s.streams[i].notifyOwed
       case DropWriter(i) => i < 2 && s.streams[i].writerAlive && !s.streams[i].notifyOwed
       case TakeToken => s.phase.Idle? && !s.backlog && !s.disconnected && s.token
       case StartBacklog => s.phase.Idle? && s.backlog
       case ConsumeToken => s.phase.Throttling? && s.token
       case NoticeDisconnect => s.phase.Throttling? && !s.token && WritersGone(s)
       case BeginFill => s.phase.Throttling?
       case FillOk(range) =>
         s.phase.Filling?
         && var t := s.streams[s.phase.stream]; ReadsFromCursor(t, range) && |t.events| < JS_MAX_SAFE_INTEGER
       case FillFailed(_) => s.phase.Filling? && |s.streams[s.phase.stream].events| < JS_MAX_SAFE_INTEGER
       case ReturnNone => s.phase.Idle? && !s.backlog && (s.disconnected || (!s.token && WritersGone(s)))
  }

  function EventOf(t: Stream, range: LogRange.Range): Event {
    Event(|t.events| + 1, range.firstAvailable, range.first, range.next, range.end, range.text, None)
  }

  /** A successful read: an event only if there is text, news or a gap to report. */
  function Filled(t: Stream, range: LogRange.Range): Stream {
    if range.text == [] && t.seenStatus == t.status && t.deliveryError.None? && range.first == t.cursor then t
    else
      t.(cursor := range.next, seenStatus := t.status, deliveryError := None, events := t.events + [EventOf(t, range)])
  }

  /** A failed read is reported once for each kind of error and status; the cursor only skips what is gone. */
  function FilledFailing(t: Stream, error: nat): Stream {
    var first := ReadStart(t);
    if t.seenStatus == t.status && t.deliveryError == Some(error) then t
    else
      t.(cursor := first, seenStatus := t.status, deliveryError := Some(error),
         events := t.events
                   + [Event(|t.events| + 1, t.firstAvailable, first, first, |t.bytes|, [], Some(error))])
  }

  function AfterFill(s: State, i: nat, t: Stream, backlog: bool): State
    requires i < |s.streams|
  {
    s.(streams := s.streams[i := t], backlog := backlog, phase := if i == 0 then Filling(1) else Idle)
  }

  ghost function Do(s: State, step: Step): (r: State)
    requires Enabled(s, step)
  {
    match step
    case Write(i, firstAvailable, more, status) =>
      s.(streams := s.streams[i := s.streams[i].(
           firstAvailable := firstAvailable, bytes := s.streams[i].bytes + more, status := status,
           notifyOwed := true)])
    case Notify(i) => s.(token := true, streams := s.streams[i := s.streams[i].(notifyOwed := false)])
    case DropWriter(i) => s.(streams := s.streams[i := s.streams[i].(writerAlive := false)])
    case TakeToken => s.(token := false, phase := Throttling)
    case StartBacklog => s.(phase := Throttling)
    case ConsumeToken => s.(token := false)
    case NoticeDisconnect => s.(disconnected := true)
    case BeginFill => s.(backlog := false, phase := Filling(0))
    case FillOk(range) =>
      var i := s.phase.stream;
      AfterFill(s, i, Filled(s.streams[i], range), s.backlog || range.hasMore)
    case FillFailed(error) =>
      var i := s.phase.stream;
      AfterFill(s, i, FilledFailing(s.streams[i], error), s.backlog)
    case ReturnNone => s.(disconnected := true, phase := Finished)
  }

  // ----- No lost wake-up -----

  predicate Ahead(t: Stream) {
    t.cursor != |t.bytes| || t.seenStatus != t.status
  }

  /** Something is on its way that will make the consumer look at this stream. */
  predicate WillBeSeen(s: State, i: nat)
    requires i < |s.streams|
  {
    || s.token || s.backlog || s.streams[i].notifyOwed || s.phase.Throttling?
    || (s.phase.Filling? && s.phase.stream <= i)
  }

  ghost predicate StreamWakes(s: State, i: nat)
    requires i < |s.streams|
  {
    var t := s.streams[i];
    && (Ahead(t) && t.deliveryError.None? ==> WillBeSeen(s, i))
    && (!t.writerAlive ==> !t.notifyOwed)
    && t.cursor <= |t.bytes|
  }

  ghost predicate NoLostWakeUp(s: State) {
    && WellFormed(s)
    && StreamWakes(s, 0) && StreamWakes(s, 1)
    && (s.disconnected ==> WritersGone(s) && !s.token)
    && (s.phase.Finished? ==> s.disconnected && !s.backlog)
  }

  /** Only one stream has changed, or none, and nothing on its way to the other has been withdrawn. */
  lemma OthersStillWake(s: State, r: State, i: nat, t: Stream)
    requires NoLostWakeUp(s) && i < 2 && r.streams == s.streams[i := t]
    requires s.token ==> r.token || r.phase.Throttling?
    requires s.backlog ==> r.backlog || r.phase.Throttling?
    requires r.phase == s.phase || r.phase.Throttling?
    ensures StreamWakes(r, 1 - i)
  {
  }

  lemma WriteKeepsWakeUp(s: State, i: nat, firstAvailable: nat, more: Bytes, status: nat)
    requires NoLostWakeUp(s) && Enabled(s, Write(i, firstAvailable, more, status))
    ensures NoLostWakeUp(Do(s, Write(i, firstAvailable, more, status)))
  {
    var r := Do(s, Write(i, firstAvailable, more, status));
    OthersStillWake(s, r, i, r.streams[i]);
  }

  lemma NotifyKeepsWakeUp(s: State, i: nat)
    requires NoLostWakeUp(s) && Enabled(s, Notify(i))
    ensures NoLostWakeUp(Do(s, Notify(i)))
  {
    var r := Do(s, Notify(i));
    OthersStillWake(s, r, i, r.streams[i]);
  }

  lemma DropWriterKeepsWakeUp(s: State, i: nat)
    requires NoLostWakeUp(s) && Enabled(s, DropWriter(i))
    ensures NoLostWakeUp(Do(s, DropWriter(i)))
  {
    var r := Do(s, DropWriter(i));
    OthersStillWake(s, r, i, r.streams[i]);
  }

  lemma TakeTokenKeepsWakeUp(s: State)
    requires NoLostWakeUp(s) && Enabled(s, TakeToken)
    ensures NoLostWakeUp(Do(s, TakeToken))
  {
  }

  lemma StartBacklogKeepsWakeUp(s: State)
    requires NoLostWakeUp(s) && Enabled(s, StartBacklog)
    ensures NoLostWakeUp(Do(s, StartBacklog))
  {
  }

  lemma ConsumeTokenKeepsWakeUp(s: State)
    requires NoLostWakeUp(s) && Enabled(s, ConsumeToken)
    ensures NoLostWakeUp(Do(s, ConsumeToken))
  {
  }

  lemma NoticeDisconnectKeepsWakeUp(s: State)
    requires NoLostWakeUp(s) && Enabled(s, NoticeDisconnect)
    ensures NoLostWakeUp(Do(s, NoticeDisconnect))
  {
  }

  lemma BeginFillKeepsWakeUp(s: State)
    requires NoLostWakeUp(s) && Enabled(s, BeginFill)
    ensures NoLostWakeUp(Do(s, BeginFill))
  {
  }

  lemma ReturnNoneKeepsWakeUp(s: State)
    requires NoLostWakeUp(s) && Enabled(s, ReturnNone)
    ensures NoLostWakeUp(Do(s, ReturnNone))
  {
  }

  /** A stream that was read successfully is ahead only if there is more, and then backlog is set. */
  lemma FillKeepsWakeUp(s: State, t: Stream, backlog: bool)
    requires NoLostWakeUp(s) && s.phase.Filling?
    requires var before := s.streams[s.phase.stream];
             t == before.(cursor := t.cursor, seenStatus := t.seenStatus, deliveryError := t.deliveryError,
                          events := t.events)
    requires t.cursor <= |t.bytes| && (s.backlog ==> backlog)
    requires Ahead(t) && t.deliveryError.None? ==> backlog
    ensures NoLostWakeUp(AfterFill(s, s.phase.stream, t, backlog))
  {
  }

  lemma FillOkKeepsWakeUp(s: State, range: LogRange.Range)
    requires NoLostWakeUp(s) && Enabled(s, FillOk(range))
    ensures NoLostWakeUp(Do(s, FillOk(range)))
  {
    hide NoLostWakeUp, LogRange.ReadEnd;
    var t := s.streams[s.phase.stream];
    assert |range.text| == range.next - range.first;
    FillKeepsWakeUp(s, Filled(t, range), s.backlog || range.hasMore);
  }

  lemma FillFailedKeepsWakeUp(s: State, error: nat)
    requires NoLostWakeUp(s) && Enabled(s, FillFailed(error))
    ensures NoLostWakeUp(Do(s, FillFailed(error)))
  {
    var t := s.streams[s.phase.stream];
    StartInBytes(t);
    FillKeepsWakeUp(s, FilledFailing(t, error), s.backlog);
  }

  lemma StartInBytes(t: Stream)
    ensures ReadStart(t) <= |t.bytes| && (t.cursor <= |t.bytes| ==> t.cursor <= ReadStart(t))
    ensures t.firstAvailable <= |t.bytes| && ReadStart(t) != t.cursor && t.cursor <= |t.bytes| ==>
              ReadStart(t) == t.firstAvailable
  {
  }

  lemma StepKeepsWakeUp(s: State, step: Step)
    requires NoLostWakeUp(s) && Enabled(s, step)
    ensures NoLostWakeUp(Do(s, step))
  {
    hide NoLostWakeUp, Enabled, Do;
    match step
    case Write(i, firstAvailable, more, status) => WriteKeepsWakeUp(s, i, firstAvailable, more, status);
    case Notify(i) => NotifyKeepsWakeUp(s, i);
    case DropWriter(i) => DropWriterKeepsWakeUp(s, i);
    case TakeToken => TakeTokenKeepsWakeUp(s);
    case StartBacklog => StartBacklogKeepsWakeUp(s);
    case ConsumeToken => ConsumeTokenKeepsWakeUp(s);
    case NoticeDisconnect => NoticeDisconnectKeepsWakeUp(s);
    case BeginFill => BeginFillKeepsWakeUp(s);
    case FillOk(range) => FillOkKeepsWakeUp(s, range);
    case FillFailed(error) => FillFailedKeepsWakeUp(s, error);
    case ReturnNone => ReturnNoneKeepsWakeUp(s);
  }

  // ----- Events tile the stream -----

  /** How far the events have come. */
  function Reached(events: seq<Event>, origin: nat): nat {
    if events == [] then origin else events[|events| - 1].next
  }

  /**
   Events are numbered from 1, start where the last one ended or skip to the first byte that is available, and
   carry the bytes of the stream between their offsets.
   */
  ghost predicate Tiles(events: seq<Event>, origin: nat, bytes: Bytes) {
    if events == [] then origin <= |bytes|
    else
      var front, last := events[..|events| - 1], events[|events| - 1];
      Tiles(front, origin, bytes) && Follows(last, |events|, Reached(front, origin), bytes)
  }

  predicate Follows(event: Event, sequence: nat, previous: nat, bytes: Bytes) {
    && event.sequence == sequence
    && previous <= event.first <= event.next <= |bytes| && event.firstAvailable <= event.end
    && (event.first != previous ==> event.first == event.firstAvailable)
    && event.text == bytes[event.first..event.next]
  }

  ghost predicate StreamTiled(t: Stream) {
    && t.firstAvailable <= |t.bytes|
    && t.cursor == Reached(t.events, t.origin) && t.cursor <= |t.bytes|
    && Tiles(t.events, t.origin, t.bytes)
  }

  ghost predicate Tiled(s: State) {
    WellFormed(s) && StreamTiled(s.streams[0]) && StreamTiled(s.streams[1])
  }

  /** What was delivered stays part of the stream as it grows. */
  lemma {:induction false} TilesGrow(events: seq<Event>, origin: nat, bytes: Bytes, more: Bytes)
    requires Tiles(events, origin, bytes)
    ensures Tiles(events, origin, bytes + more) && Reached(events, origin) <= |bytes|
  {
    if events != [] {
      var last := events[|events| - 1];
      TilesGrow(events[..|events| - 1], origin, bytes, more);
      assert (bytes + more)[last.first..last.next] == bytes[last.first..last.next];
    }
  }

  lemma EventExtends(events: seq<Event>, origin: nat, bytes: Bytes, event: Event)
    requires Tiles(events, origin, bytes) && Follows(event, |events| + 1, Reached(events, origin), bytes)
    ensures Tiles(events + [event], origin, bytes) && Reached(events + [event], origin) == event.next
  {
    assert (events + [event])[..|events|] == events;
  }

  lemma FilledStaysTiled(t: Stream, range: LogRange.Range)
    requires StreamTiled(t) && ReadsFromCursor(t, range)
    ensures StreamTiled(Filled(t, range))
  {
    hide Tiles, Reached, LogRange.ReadEnd;
    StartInBytes(t);
    EventExtends(t.events, t.origin, t.bytes, EventOf(t, range));
  }

  lemma FailingStaysTiled(t: Stream, error: nat)
    requires StreamTiled(t)
    ensures StreamTiled(FilledFailing(t, error))
  {
    hide Tiles, Reached;
    StartInBytes(t);
    var first := ReadStart(t);
    assert t.bytes[first..first] == [];
    EventExtends(
      t.events, t.origin, t.bytes,
      Event(|t.events| + 1, t.firstAvailable, first, first, |t.bytes|, [], Some(error)));
  }

  /** The step changes at most one stream, and keeps that one tiled. */
  lemma ChangedStaysTiled(s: State, step: Step, i: nat)
    requires Tiled(s) && Enabled(s, step) && i < 2
    ensures StreamTiled(Do(s, step).streams[i])
  {
    hide Tiles, Reached, Filled, FilledFailing, ReadsFromCursor;
    var t := s.streams[i];
    match step
    case Write(_, _, more, _) => TilesGrow(t.events, t.origin, t.bytes, more);
    case FillOk(range) =>
      if i == s.phase.stream {
        FilledStaysTiled(t, range);
      }
    case FillFailed(error) => FailingStaysTiled(t, error);
    case _ =>
  }

  lemma StepKeepsTiles(s: State, step: Step)
    requires Tiled(s) && Enabled(s, step)
    ensures Tiled(Do(s, step))
  {
    hide StreamTiled, ReadsFromCursor;
    ChangedStaysTiled(s, step, 0);
    ChangedStaysTiled(s, step, 1);
    StreamsInBytes(Do(s, step));
  }

  lemma StreamsInBytes(s: State)
    requires |s.streams| == 2 && StreamTiled(s.streams[0]) && StreamTiled(s.streams[1])
    ensures forall i | 0 <= i < 2 :: s.streams[i].firstAvailable <= |s.streams[i].bytes|
  {
  }

  // ----- What the events say -----

  /** The texts delivered, one after the other. */
  function Texts(events: seq<Event>): Bytes {
    if events == [] then [] else Texts(events[..|events| - 1]) + events[|events| - 1].text
  }

  /** The texts with what the events skipped put back before each of them. */
  function Restored(events: seq<Event>, origin: nat, bytes: Bytes): Bytes
    requires origin <= |bytes|
  {
    if events == [] then []
    else
      var front, last := events[..|events| - 1], events[|events| - 1];
      var previous := Reached(front, origin);
      Restored(front, origin, bytes)
      + (if previous <= last.first <= |bytes| then bytes[previous..last.first] else []) + last.text
  }

  predicate Gapless(events: seq<Event>, origin: nat) {
    forall i | 0 <= i < |events| :: events[i].first == Reached(events[..i], origin)
  }

  /** Apart from the gaps that events state, the texts are the stream from where delivery began. */
  lemma {:induction false} TextsAreStream(events: seq<Event>, origin: nat, bytes: Bytes)
    requires Tiles(events, origin, bytes)
    ensures origin <= Reached(events, origin) <= |bytes|
    ensures Restored(events, origin, bytes) == bytes[origin..Reached(events, origin)]
    ensures Gapless(events, origin) ==> Texts(events) == bytes[origin..Reached(events, origin)]
  {
    hide Gapless;
    if events != [] {
      var front, last := events[..|events| - 1], events[|events| - 1];
      TextsAreStream(front, origin, bytes);
      var previous := Reached(front, origin);
      LogRange.GlueSlices(bytes, origin, previous, last.first);
      LogRange.GlueSlices(bytes, origin, last.first, last.next);
      if Gapless(events, origin) {
        FrontIsGapless(events, origin);
      }
    }
  }

  lemma FrontIsGapless(events: seq<Event>, origin: nat)
    requires events != [] && Gapless(events, origin)
    ensures var front := events[..|events| - 1];
            Gapless(front, origin) && events[|events| - 1].first == Reached(front, origin)
  {
    hide Reached;
    var front := events[..|events| - 1];
    forall i | 0 <= i < |front| ensures front[i].first == Reached(front[..i], origin) {
      assert front[..i] == events[..i];
    }
  }

  /** There is something to report: text, a gap, another status, or that reading works again or fails otherwise. */
  predicate IsNews(t: Stream, step: Step) {
    || t.seenStatus != t.status
    || (match step
        case FillOk(range) => range.text != [] || range.first != t.cursor || t.deliveryError.Some?
        case FillFailed(error) => t.deliveryError != Some(error)
        case _ => false)
  }

  /**
   A read that has news adds one event, which states what the files held at that moment, and any other adds none.
   Either way nothing that the writer publishes is touched.
   */
  lemma FillReports(s: State, step: Step)
    requires NoLostWakeUp(s) && Enabled(s, step) && (step.FillOk? || step.FillFailed?)
    ensures var i := s.phase.stream;
            var t, r := s.streams[i], Do(s, step).streams[i];
            && Do(s, step).streams == s.streams[i := r]
            && r == t.(cursor := r.cursor, seenStatus := t.status, deliveryError := r.deliveryError, events := r.events)
            && r.deliveryError == (if step.FillOk? then None else Some(step.error))
            && if !IsNews(t, step) then r == t
               else
                 && |r.events| == |t.events| + 1 && r.events[..|t.events|] == t.events
                 && var e := r.events[|t.events|];
                    && e.sequence == |r.events| && e.firstAvailable == t.firstAvailable && e.end == |t.bytes|
                    && e.error == r.deliveryError && e.next == r.cursor
                    && e.first == (if t.cursor < t.firstAvailable then t.firstAvailable else t.cursor)
                    && e.next <= |t.bytes| && e.first <= e.next && e.text == t.bytes[e.first..e.next]
                    && (step.FillFailed? ==> e.text == [])
  {
    hide LogRange.ReadEnd;
    var t := s.streams[s.phase.stream];
    StartInBytes(t);
  }

  // ----- Runs -----

  /** The states of a run, one step at a time. */
  ghost predicate IsRun(found: (Bytes, Bytes), states: seq<State>, steps: seq<Step>) {
    && |states| == |steps| + 1 && states[0] == Start(found)
    && (forall i | 0 <= i < |steps| :: Enabled(states[i], steps[i]) && states[i + 1] == Do(states[i], steps[i]))
  }

  lemma {:induction false} RunsAreSafe(found: (Bytes, Bytes), states: seq<State>, steps: seq<Step>, n: nat)
    requires IsRun(found, states, steps) && n < |states|
    ensures NoLostWakeUp(states[n]) && Tiled(states[n])
  {
    hide Enabled, Do;
    if n > 0 {
      RunsAreSafe(found, states, steps, n - 1);
      StepKeepsWakeUp(states[n - 1], steps[n - 1]);
      StepKeepsTiles(states[n - 1], steps[n - 1]);
    }
  }

  /**
   When the source ends, every stream whose last read succeeded was delivered to its end: apart from the gaps
   its events state, their texts are everything written since delivery began.
   */
  lemma EndMeansDelivered(found: (Bytes, Bytes), states: seq<State>, steps: seq<Step>, n: nat, i: nat)
    requires IsRun(found, states, steps) && n < |states| && states[n].phase.Finished? && i < 2
    ensures |states[n].streams| == 2
    ensures var t := states[n].streams[i];
            && !t.writerAlive
            && Tiles(t.events, t.origin, t.bytes)
            && (t.deliveryError.None? ==>
                  && t.cursor == |t.bytes| && t.seenStatus == t.status && t.origin <= |t.bytes|
                  && Restored(t.events, t.origin, t.bytes) == t.bytes[t.origin..]
                  && (Gapless(t.events, t.origin) ==> Texts(t.events) == t.bytes[t.origin..]))
  {
    hide IsRun, Tiles, Restored, Texts, Gapless, Reached;
    RunsAreSafe(found, states, steps, n);
    var t := states[n].streams[i];
    TextsAreStream(t.events, t.origin, t.bytes);
    assert t.bytes[t.origin..|t.bytes|] == t.bytes[t.origin..];
  }

  /** Where the remaining bytes are text, there is something to read. */
  lemma ReadIsPossible(t: Stream) returns (range: LogRange.Range)
    requires t.firstAvailable <= |t.bytes| && Utf8.Valid(t.bytes[ReadStart(t)..])
    ensures ReadsFromCursor(t, range)
  {
    hide Utf8.Valid, LogRange.ReadEnd, Utf8.Decode;
    StartInBytes(t);
    var first := ReadStart(t);
    LogRange.WindowText(t.bytes, first, MAX_LOG_EVENT_BYTES);
    var next := LogRange.ReadEnd(t.bytes, first, MAX_LOG_EVENT_BYTES);
    LogRange.HeadOfSlice(
      t.bytes, first, LogRange.Min(first + MAX_LOG_EVENT_BYTES, |t.bytes|), next - first);
    range := LogRange.Range(
      t.firstAvailable, first, next, |t.bytes|, next < |t.bytes|,
      t.firstAvailable <= t.cursor <= |t.bytes| && next >= |t.bytes|, t.bytes[first..next]);
  }

  /** Undelivered text never waits for nobody: a writer owes a notification, or the consumer can go on. */
  lemma NeverStuck(found: (Bytes, Bytes), states: seq<State>, steps: seq<Step>, n: nat, i: nat)
    requires IsRun(found, states, steps) && n < |states| && i < 2
    requires |states[n].streams| == 2 && Ahead(states[n].streams[i]) && states[n].streams[i].deliveryError.None?
    requires forall j | 0 <= j < 2 :: |states[n].streams[j].events| < JS_MAX_SAFE_INTEGER
    ensures var s := states[n];
            || Enabled(s, Notify(i)) || Enabled(s, TakeToken) || Enabled(s, StartBacklog) || Enabled(s, BeginFill)
            || (s.phase.Filling? && s.phase.stream < 2
                && var t := s.streams[s.phase.stream];
                   if ReadStart(t) <= |t.bytes| && Utf8.Valid(t.bytes[ReadStart(t)..])
                   then exists range :: Enabled(s, FillOk(range))
                   else forall error :: Enabled(s, FillFailed(error)))
  {
    hide IsRun, Tiled, Utf8.Valid, ReadsFromCursor;
    RunsAreSafe(found, states, steps, n);
    var s := states[n];
    if s.phase.Filling? {
      var t := s.streams[s.phase.stream];
      StartInBytes(t);
      if Utf8.Valid(t.bytes[ReadStart(t)..]) {
        var range := ReadIsPossible(t);
        assert Enabled(s, FillOk(range));
      }
    }
  }

  /** The events of one stream, read from the tiling: consecutive numbers, and gaps only where bytes are gone. */
  lemma {:induction false} TilesMean(events: seq<Event>, origin: nat, bytes: Bytes, i: nat)
    requires Tiles(events, origin, bytes) && i < |events|
    ensures Follows(events[i], i + 1, if i == 0 then origin else events[i - 1].next, bytes)
    decreases |events|
  {
    if i < |events| - 1 {
      TilesMean(events[..|events| - 1], origin, bytes, i);
    }
  }
}
