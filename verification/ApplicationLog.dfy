/** The bounded ring of structured application-log lines and cursor reads over it. */
module ApplicationLog {
  import opened DiscoveryDomain
  import opened Utf8

  type Bytes = seq<byte>

  const JS_MAX_SAFE_INTEGER: nat := 9_007_199_254_740_991
  const MAX_APPLICATION_LOG_SEQUENCE: nat := JS_MAX_SAFE_INTEGER - 1
  const MAX_APPLICATION_LOG_RECORDS: nat := 65_536
  const MAX_APPLICATION_LOG_RETAINED_BYTES: nat := 32 * 1024 * 1024
  const MAX_APPLICATION_LOG_RECORD_BYTES: nat := 16 * 1024
  const MAX_APPLICATION_LOG_READ_BYTES: nat := 64 * 1024

  datatype LogError =
    | InvalidTimestamp | SequenceExhausted | InvalidEvent | RecordTooLarge | ReadLimitInvalid | CursorAhead

  datatype Limits = Limits(records: nat, retainedBytes: nat)

  predicate ValidLimits(limits: Limits) {
    && 0 < limits.records <= MAX_APPLICATION_LOG_RECORDS
    && MAX_APPLICATION_LOG_RECORD_BYTES <= limits.retainedBytes <= MAX_APPLICATION_LOG_RETAINED_BYTES
  }

  datatype Line = Line(sequence: nat, text: Bytes)

  /** An event: its time, and the line it makes for a sequence number, if its fields are valid. */
  datatype LogEvent = LogEvent(timestamp: nat, line: nat -> Option<Bytes>)

  datatype Appended = Receipt(sequence: nat) | AppendFailed(error: LogError)

  datatype LinesRead = LinesRead(
    requested: nat, firstSequence: Option<nat>, nextSequence: nat, endSequence: nat,
    hasMore: bool, complete: bool, dropped: nat, text: Bytes)

  datatype ReadLines = Lines(read: LinesRead) | ReadFailed(error: LogError)

  function TotalBytes(lines: seq<Line>): nat {
    if lines == [] then 0 else |lines[0].text| + TotalBytes(lines[1..])
  }

  function Text(lines: seq<Line>): Bytes {
    if lines == [] then [] else Text(lines[..|lines| - 1]) + lines[|lines| - 1].text
  }

  lemma {:induction false} BytesOfText(lines: seq<Line>)
    ensures |Text(lines)| == TotalBytes(lines)
    decreases |lines|
  {
    if lines != [] {
      BytesOfText(lines[..|lines| - 1]);
      TotalOfAppend(lines[..|lines| - 1], lines[|lines| - 1]);
      assert lines == lines[..|lines| - 1] + [lines[|lines| - 1]];
    }
  }

  lemma {:induction false} TotalOfAppend(lines: seq<Line>, line: Line)
    ensures TotalBytes(lines + [line]) == TotalBytes(lines) + |line.text|
  {
    if lines == [] {
      assert [] + [line] == [line] && [line][1..] == [];
    } else {
      TotalOfAppend(lines[1..], line);
      assert (lines + [line])[1..] == lines[1..] + [line];
    }
  }

  predicate Fits(limits: Limits, lines: seq<Line>) {
    |lines| <= limits.records && TotalBytes(lines) <= limits.retainedBytes
  }

  lemma RoomAfterAppend(limits: Limits, lines: seq<Line>, line: Line)
    ensures Fits(limits, lines + [line])
            <==> |lines| < limits.records && TotalBytes(lines) + |line.text| <= limits.retainedBytes
  {
    TotalOfAppend(lines, line);
  }

  class ApplicationLogBuffer {
    const limits: Limits
    var records: seq<Line>
    var retainedBytes: nat
    var nextSequence: nat
    var droppedRecords: nat
    /** Every line ever appended. */
    ghost var history: seq<Line>

    ghost predicate Valid()
      reads this
    {
      && ValidLimits(limits)
      && |history| + 1 == nextSequence == droppedRecords + |records| + 1
      && nextSequence <= MAX_APPLICATION_LOG_SEQUENCE + 1
      && records == history[droppedRecords..]
      && retainedBytes == TotalBytes(records)
      && Fits(limits, records)
      && (forall i | 0 <= i < |history| ::
            history[i].sequence == i + 1 && 0 < |history[i].text| <= MAX_APPLICATION_LOG_RECORD_BYTES)
    }

    constructor (limits: Limits)
      requires ValidLimits(limits)
      ensures Valid() && history == [] && this.limits == limits
    {
      this.limits := limits;
      records, history := [], [];
      retainedBytes, nextSequence, droppedRecords := 0, 1, 0;
    }

    method DropOldest()
      requires records != [] && retainedBytes == TotalBytes(records)
      modifies this`records, this`retainedBytes, this`droppedRecords
      ensures records == old(records)[1..] && retainedBytes == TotalBytes(records)
      ensures droppedRecords == old(droppedRecords) + 1
    {
      retainedBytes := retainedBytes - |records[0].text|;
      records := records[1..];
      droppedRecords := droppedRecords + 1;
    }

    /** Drop lines until the new one fits; there is always something left to drop. */
    method MakeRoom(line: Line)
      requires Valid() && |line.text| <= MAX_APPLICATION_LOG_RECORD_BYTES
      modifies this`records, this`retainedBytes, this`droppedRecords
      ensures Valid() && Fits(limits, records + [line]) && old(droppedRecords) <= droppedRecords
      ensures forall d | old(droppedRecords) <= d < droppedRecords :: !Fits(limits, history[d..] + [line])
    {
      while |records| >= limits.records || retainedBytes + |line.text| > limits.retainedBytes
        invariant Valid() && old(droppedRecords) <= droppedRecords
        invariant forall d | old(droppedRecords) <= d < droppedRecords :: !Fits(limits, history[d..] + [line])
        decreases |records|
      {
        RoomAfterAppend(limits, records, line);
        DropOldest();
        assert records == history[droppedRecords..];
      }
      RoomAfterAppend(limits, records, line);
    }

    /** A failed append changes nothing; otherwise only as many old lines are dropped as have to be. */
    method Append(event: LogEvent) returns (result: Appended)
      requires Valid()
      modifies this
      ensures Valid()
      ensures result.AppendFailed? ==>
                && history == old(history) && records == old(records) && droppedRecords == old(droppedRecords)
                && match result.error
                   case InvalidTimestamp => event.timestamp > JS_MAX_SAFE_INTEGER
                   case SequenceExhausted =>
                     event.timestamp <= JS_MAX_SAFE_INTEGER && old(nextSequence) > MAX_APPLICATION_LOG_SEQUENCE
                   case InvalidEvent => event.line(old(nextSequence)).None?
                   case RecordTooLarge =>
                     && event.line(old(nextSequence)).Some?
                     && |event.line(old(nextSequence)).value| + 1 > MAX_APPLICATION_LOG_RECORD_BYTES
                   case _ => false
      ensures result.Receipt? <==>
                && event.timestamp <= JS_MAX_SAFE_INTEGER && old(nextSequence) <= MAX_APPLICATION_LOG_SEQUENCE
                && event.line(old(nextSequence)).Some?
                && |event.line(old(nextSequence)).value| + 1 <= MAX_APPLICATION_LOG_RECORD_BYTES
      ensures result.Receipt? ==>
                var line := Line(old(nextSequence), event.line(old(nextSequence)).value + [0x0A]);
                && result.sequence == old(nextSequence)
                && history == old(history) + [line] && old(droppedRecords) <= droppedRecords
                && (forall d | old(droppedRecords) <= d < droppedRecords ::
                      !Fits(limits, old(history)[d..] + [line]))
    {
      if event.timestamp > JS_MAX_SAFE_INTEGER {
        return AppendFailed(InvalidTimestamp);
      }
      if nextSequence > MAX_APPLICATION_LOG_SEQUENCE {
        return AppendFailed(SequenceExhausted);
      }
      var json := event.line(nextSequence);
      if json.None? {
        return AppendFailed(InvalidEvent);
      }
      if |json.value| + 1 > MAX_APPLICATION_LOG_RECORD_BYTES {
        return AppendFailed(RecordTooLarge);
      }
      var line := Line(nextSequence, json.value + [0x0A]);
      MakeRoom(line);
      TotalOfAppend(records, line);
      assert (history + [line])[droppedRecords..] == history[droppedRecords..] + [line];
      retainedBytes := retainedBytes + |line.text|;
      records := records + [line];
      history := history + [line];
      result := Receipt(nextSequence);
      nextSequence := nextSequence + 1;
    }

    /** Whole lines from a cursor on; the cursor it returns always moves while there are lines. */
    method ReadJsonLines(sequence: Option<nat>, maxBytes: nat) returns (result: ReadLines)
      requires Valid()
      ensures result == ReadFailed(ReadLimitInvalid) <==>
                !(MAX_APPLICATION_LOG_RECORD_BYTES <= maxBytes <= MAX_APPLICATION_LOG_READ_BYTES)
      ensures result == ReadFailed(CursorAhead) <==>
                && MAX_APPLICATION_LOG_RECORD_BYTES <= maxBytes <= MAX_APPLICATION_LOG_READ_BYTES
                && sequence.Some? && (sequence.value == 0 || sequence.value > nextSequence)
      ensures result.ReadFailed? ==> result.error.ReadLimitInvalid? || result.error.CursorAhead?
      ensures result.Lines? ==>
                var r := result.read;
                var start := if r.requested <= droppedRecords then droppedRecords + 1 else r.requested;
                && r.requested == (if sequence.Some? then sequence.value else droppedRecords + 1)
                && start <= r.nextSequence <= nextSequence == r.endSequence
                && r.text == Text(history[start - 1..r.nextSequence - 1])
                && |r.text| == TotalBytes(history[start - 1..r.nextSequence - 1]) <= maxBytes
                && (start < nextSequence ==> start < r.nextSequence)
                && (r.nextSequence < nextSequence ==>
                      |r.text| + |history[r.nextSequence - 1].text| > maxBytes)
                && r.firstSequence == (if start < r.nextSequence then Some(start) else None)
                && r.hasMore == (r.nextSequence < nextSequence) && r.dropped == droppedRecords
                && (r.complete <==> r.requested > droppedRecords && !r.hasMore)
    {
      hide Text, TotalBytes, Fits, ValidLimits;
      if !(MAX_APPLICATION_LOG_RECORD_BYTES <= maxBytes <= MAX_APPLICATION_LOG_READ_BYTES) {
        return ReadFailed(ReadLimitInvalid);
      }
      var firstAvailable := if records == [] then nextSequence else records[0].sequence;
      assert firstAvailable == droppedRecords + 1;
      var requested := if sequence.Some? then sequence.value else firstAvailable;
      if requested == 0 || requested > nextSequence {
        return ReadFailed(CursorAhead);
      }
      var start := if requested < firstAvailable then firstAvailable else requested;
      var next, text := CollectLines(start, maxBytes);
      BytesOfText(history[start - 1..next - 1]);
      var hasMore := next < nextSequence;
      result := Lines(LinesRead(
        requested, if start < next then Some(start) else None, next, nextSequence, hasMore,
        requested >= start && !hasMore, droppedRecords, text));
    }

    method CollectLines(start: nat, maxBytes: nat) returns (next: nat, text: Bytes)
      requires Valid() && droppedRecords < start <= nextSequence && MAX_APPLICATION_LOG_RECORD_BYTES <= maxBytes
      ensures start <= next <= nextSequence && text == Text(history[start - 1..next - 1]) && |text| <= maxBytes
      ensures start < nextSequence ==> start < next
      ensures next < nextSequence ==> |text| + |history[next - 1].text| > maxBytes
    {
      next, text := start, [];
      var i := start - 1 - droppedRecords;
      while i < |records|
        invariant start - 1 - droppedRecords <= i <= |records| && next == droppedRecords + i + 1
        invariant text == Text(history[start - 1..next - 1]) && |text| <= maxBytes
        invariant start == next ==> text == []
      {
        assert records[i] == history[droppedRecords + i];
        if |text| + |records[i].text| > maxBytes {
          return;
        }
        assert history[start - 1..next][..next - start] == history[start - 1..next - 1];
        text := text + records[i].text;
        next := records[i].sequence + 1;
        i := i + 1;
      }
    }

    /** Chaining the cursor over a ring nobody appends to returns every retained line exactly once. */
    method ReadAll(maxBytes: nat) returns (text: Bytes)
      requires Valid() && MAX_APPLICATION_LOG_RECORD_BYTES <= maxBytes <= MAX_APPLICATION_LOG_READ_BYTES
      ensures text == Text(records) && |text| == retainedBytes
    {
      hide Text, TotalBytes, Fits;
      text := [];
      var next := droppedRecords + 1;
      NothingYet(history, droppedRecords);
      while next < nextSequence
        invariant droppedRecords < next <= nextSequence
        invariant text == Text(history[droppedRecords..next - 1])
        decreases nextSequence - next
      {
        var result := ReadJsonLines(Some(next), maxBytes);
        TextOfSlices(history, droppedRecords, next - 1, result.read.nextSequence - 1);
        text := text + result.read.text;
        next := result.read.nextSequence;
      }
      assert history[droppedRecords..next - 1] == records;
      BytesOfText(records);
    }
  }

  lemma NothingYet(lines: seq<Line>, at: nat)
    requires at <= |lines|
    ensures Text(lines[at..at]) == []
  {
  }

  lemma TextOfSlices(lines: seq<Line>, from: nat, middle: nat, to: nat)
    requires from <= middle <= to <= |lines|
    ensures Text(lines[from..middle]) + Text(lines[middle..to]) == Text(lines[from..to])
  {
    TextSplits(lines[from..middle], lines[middle..to]);
    assert lines[from..middle] + lines[middle..to] == lines[from..to];
  }

  lemma {:induction false} TextSplits(a: seq<Line>, b: seq<Line>)
    ensures Text(a + b) == Text(a) + Text(b)
    decreases |b|
  {
    if b == [] {
      assert a + b == a;
    } else {
      var front, last := b[..|b| - 1], b[|b| - 1];
      TextSplits(a, front);
      assert (a + b)[..|a + b| - 1] == a + front;
    }
  }
}
