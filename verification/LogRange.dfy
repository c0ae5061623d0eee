/** Reading a bounded range of a retained window. */
module LogRange {
  import opened DiscoveryDomain
  import opened Utf8
  import opened MemoryTail
  import opened RollingFiles
  import opened RollingLog
  import opened RollingWindow

  const MAX_LOG_RANGE_BYTES: nat := 64 * 1024

  datatype ReadError = BadRequest | BadData | ReadFailed

  datatype Range = Range(
    firstAvailable: nat, first: nat, next: nat, end: nat, hasMore: bool, complete: bool, text: Bytes)

  datatype ReadResult = Read(range: Range) | Rejected(error: ReadError)

  datatype OpenedFile = OpenedFile(start: nat, content: Bytes)

  function Flatten(files: seq<OpenedFile>): Bytes {
    if files == [] then [] else Flatten(files[..|files| - 1]) + files[|files| - 1].content
  }

  /** The existing files oldest first, each with the offset at which it starts. */
  function FilesFrom(slots: Slots, first: nat): seq<OpenedFile> {
    if slots == [] then []
    else
      var older := FilesFrom(slots[1..], first);
      if slots[0].Some? then older + [OpenedFile(first + |Retained(slots[1..])|, slots[0].value)] else older
  }

  lemma {:induction false} FilesHoldRetained(slots: Slots, first: nat)
    ensures Flatten(FilesFrom(slots, first)) == Retained(slots)
    ensures Consecutive(FilesFrom(slots, first), first)
  {
    if slots != [] {
      FilesHoldRetained(slots[1..], first);
      if slots[0].Some? {
        var older := FilesFrom(slots[1..], first);
        var all := older + [OpenedFile(first + |Retained(slots[1..])|, slots[0].value)];
        assert all[..|all| - 1] == older;
      }
    }
  }

  lemma {:induction false} NoMoreFilesThanSlots(slots: Slots, first: nat)
    ensures |FilesFrom(slots, first)| <= |slots|
  {
    if slots != [] {
      NoMoreFilesThanSlots(slots[1..], first);
    }
  }

  ghost predicate Consecutive(files: seq<OpenedFile>, first: nat) {
    files == []
    || (var front, last := files[..|files| - 1], files[|files| - 1];
        Consecutive(front, first) && last.start == first + |Flatten(front)|)
  }

  lemma {:induction false} FlattenSplits(files: seq<OpenedFile>, first: nat, i: nat)
    requires i < |files| && Consecutive(files, first)
    ensures files[i].start == first + |Flatten(files[..i])|
    ensures Flatten(files[..i + 1]) == Flatten(files[..i]) + files[i].content
    ensures Flatten(files[..i + 1]) <= Flatten(files)
    decreases |files|
  {
    assert files[..i + 1][..i] == files[..i];
    if i == |files| - 1 {
      assert files[..i + 1] == files;
    } else {
      var front := files[..|files| - 1];
      FlattenSplits(front, first, i);
      assert front[..i + 1] == files[..i + 1] && front[..i] == files[..i];
    }
  }

  /** Which files can be opened, by slot, and which of the opened ones can be read, oldest first. */
  datatype Disk = Disk(canOpen: nat -> bool, canRead: nat -> bool)

  /** All files of a window can be opened and read. */
  ghost predicate Readable(disk: Disk, slots: Slots) {
    (forall i | 0 <= i < |slots| :: disk.canOpen(i)) && (forall i | 0 <= i < |slots| :: disk.canRead(i))
  }

  /** Opens every retained file, or none. */
  method OpenRetained(disk: Disk, limits: Limits, slots: Slots, firstAvailable: nat)
    returns (files: Option<seq<OpenedFile>>)
    requires FilesFit(slots, limits.fileBytes)
    ensures files.Some? ==> files.value == FilesFrom(slots, firstAvailable)
    ensures files.Some? <==> forall i | 0 <= i < |slots| :: disk.canOpen(i)
  {
    var found: seq<OpenedFile> := [];
    var nextStart := firstAvailable;
    var index := |slots|;
    while index > 0
      invariant 0 <= index <= |slots|
      invariant found == FilesFrom(slots[index..], firstAvailable)
      invariant nextStart == firstAvailable + |Retained(slots[index..])|
      invariant forall i | index <= i < |slots| :: disk.canOpen(i)
    {
      index := index - 1;
      assert slots[index..][1..] == slots[index + 1..];
      if !disk.canOpen(index) {
        return None;
      }
      if slots[index].Some? {
        found := found + [OpenedFile(nextStart, slots[index].value)];
        nextStart := nextStart + |slots[index].value|;
      }
    }
    assert slots[0..] == slots;
    files := Some(found);
  }

  function Min(a: nat, b: nat): nat { if a < b then a else b }

  /** The part of the window read so far, after the files up to `done` bytes were visited. */
  ghost predicate ReadSoFar(window: Bytes, at: nat, limit: nat, done: nat, bytes: Bytes) {
    && at <= limit <= |window|
    && |bytes| == (if done <= at then 0 else Min(done, limit) - at)
    && bytes == window[at..at + |bytes|]
  }

  /** How one file adds to what was read. */
  lemma ReadStep(
    window: Bytes, at: nat, limit: nat, done: nat, bytes: Bytes, content: Bytes, within: nat, count: nat)
    requires ReadSoFar(window, at, limit, done, bytes) && at + |bytes| < limit
    requires done + |content| <= |window| && window[done..done + |content|] == content
    requires within == (if at + |bytes| >= done then at + |bytes| - done else 0)
    requires within < |content| && count == Min(|content| - within, limit - at - |bytes|)
    ensures ReadSoFar(window, at, limit, done + |content|, bytes + content[within..within + count])
  {
    hide Min;
    ReadLength(at, limit, done, |bytes|, |content|, within, count);
    SliceOfSlice(window, done, |content|, within, count);
    GlueSlices(window, at, at + |bytes|, at + |bytes| + count);
  }

  lemma ReadLength(at: nat, limit: nat, done: nat, read: nat, length: nat, within: nat, count: nat)
    requires at <= limit && read == (if done <= at then 0 else Min(done, limit) - at) && at + read < limit
    requires within == (if at + read >= done then at + read - done else 0) && within < length
    requires count == Min(length - within, limit - at - read)
    ensures read + count == (if done + length <= at then 0 else Min(done + length, limit) - at)
    ensures at + read == done + within && within + count <= length && at + read + count <= limit
  {
  }

  lemma GlueSlices(window: Bytes, from: nat, middle: nat, to: nat)
    requires from <= middle <= to <= |window|
    ensures window[from..middle] + window[middle..to] == window[from..to]
  {
  }

  lemma SliceOfSlice(window: Bytes, done: nat, length: nat, within: nat, count: nat)
    requires done + length <= |window| && within + count <= length
    ensures window[done..done + length][within..within + count] == window[done + within..done + within + count]
  {
    var left, right := window[done..done + length][within..within + count],
      window[done + within..done + within + count];
    assert |left| == |right|;
    forall i | 0 <= i < |left| ensures left[i] == right[i] {
    }
  }

  lemma SkipStep(window: Bytes, at: nat, limit: nat, done: nat, bytes: Bytes, length: nat)
    requires ReadSoFar(window, at, limit, done, bytes) && done + length <= |window|
    requires at + |bytes| == limit || at + |bytes| >= done + length
    ensures ReadSoFar(window, at, limit, done + length, bytes)
  {
  }

  /** The bytes of the window from `at`, at most `maxBytes`, gathered file by file. */
  method Gather(disk: Disk, files: seq<OpenedFile>, first: nat, firstAvailable: nat, end: nat, maxBytes: nat)
    returns (bytes: Option<Bytes>)
    requires Consecutive(files, firstAvailable) && firstAvailable <= first <= end
    requires |Flatten(files)| == end - firstAvailable
    ensures bytes.Some? ==>
              bytes.value == Flatten(files)[first - firstAvailable..Min(first + maxBytes, end) - firstAvailable]
    ensures bytes.None? ==> exists i | 0 <= i < |files| :: !disk.canRead(i)
  {
    hide Flatten, Consecutive, ReadSoFar;
    ghost var window, at := Flatten(files), first - firstAvailable;
    ghost var limit := Min(first + maxBytes, end) - firstAvailable;
    var found: Bytes := [];
    var i := 0;
    NothingFlattened(files);
    NothingRead(window, at, limit);
    while i < |files| && |found| != maxBytes && first + |found| < end
      invariant 0 <= i <= |files|
      invariant Flatten(files[..i]) <= window
      invariant ReadSoFar(window, at, limit, |Flatten(files[..i])|, found) && at + |found| <= limit
    {
      FlattenSplits(files, firstAvailable, i);
      ghost var done := |Flatten(files[..i])|;
      assert window[done..done + |files[i].content|] == files[i].content;
      var more := ReadFile(disk.canRead(i), files[i], first, maxBytes, found, window, at, limit, done);
      if more.None? {
        return None;
      }
      found := more.value;
      i := i + 1;
    }
    if i == |files| {
      assert files[..i] == files;
    }
    AllRead(window, at, limit, |Flatten(files[..i])|, found);
    bytes := Some(found);
  }

  /** What one file has of the bytes that are still to be read. */
  method ReadFile(
    readable: bool, file: OpenedFile, first: nat, maxBytes: nat, found: Bytes,
    ghost window: Bytes, ghost at: nat, ghost limit: nat, ghost done: nat)
    returns (more: Option<Bytes>)
    requires at <= first && file.start == first - at + done && limit - at <= maxBytes
    requires ReadSoFar(window, at, limit, done, found) && at + |found| < limit
    requires limit - at == maxBytes || limit == |window|
    requires done + |file.content| <= |window| && window[done..done + |file.content|] == file.content
    ensures more.Some? ==> ReadSoFar(window, at, limit, done + |file.content|, more.value)
    ensures more.Some? ==> at + |more.value| <= limit
    ensures readable ==> more.Some?
  {
    var requested := first + |found|;
    if requested >= file.start + |file.content| {
      SkipStep(window, at, limit, done, found, |file.content|);
      return Some(found);
    }
    var within := if requested >= file.start then requested - file.start else 0;
    if !readable {
      return None;
    }
    var count := Min(|file.content| - within, maxBytes - |found|);
    ReadStep(window, at, limit, done, found, file.content, within, count);
    more := Some(found + file.content[within..within + count]);
  }

  lemma NothingRead(window: Bytes, at: nat, limit: nat)
    requires at <= limit <= |window|
    ensures ReadSoFar(window, at, limit, 0, [])
  {
  }

  lemma AllRead(window: Bytes, at: nat, limit: nat, done: nat, bytes: Bytes)
    requires ReadSoFar(window, at, limit, done, bytes) && (done == |window| || |bytes| >= limit - at)
    ensures bytes == window[at..limit]
  {
  }

  lemma NothingFlattened(files: seq<OpenedFile>)
    ensures Flatten(files[..0]) == []
  {
  }

  /** Where a read starting at `first` ends: at most `maxBytes` on, cut back to a scalar boundary. */
  function ReadEnd(stream: Bytes, first: nat, maxBytes: nat): nat
    requires first <= |stream|
  {
    first + FloorBoundary(stream[first..], Min(maxBytes, |stream| - first))
  }

  function Clamp(offset: nat, low: nat, high: nat): nat {
    Min(if offset < low then low else offset, high)
  }

  /** What a successful read promises about the stream behind the window. */
  ghost predicate ReadsStream(stream: Bytes, firstAvailable: nat, offset: Option<nat>, maxBytes: nat, r: Range) {
    var requested := if offset.Some? then offset.value else firstAvailable;
    && r.firstAvailable == firstAvailable && r.end == |stream| && firstAvailable <= |stream|
    && r.first == Clamp(requested, firstAvailable, |stream|)
    && r.first <= r.next <= |stream| && r.next - r.first <= maxBytes
    && r.next == ReadEnd(stream, r.first, maxBytes)
    && r.text == stream[r.first..r.next] && Utf8.Valid(r.text) && Utf8.Valid(stream[r.first..])
    && r.hasMore == (r.next < |stream|)
    && (r.first < |stream| ==> r.first < r.next)
    && (r.complete <==> firstAvailable <= requested <= |stream| && !r.hasMore)
  }

  /** Bytes cut at the first incomplete scalar; bytes that are no text at all are an error. */
  function KeptPart(bytes: Bytes): Option<Bytes> {
    match Decode(bytes)
    case Whole => Some(bytes)
    case Truncated(n) => if n <= |bytes| then Some(bytes[..n]) else None
    case Malformed => None
  }

  method TruncateIncompleteUtf8(bytes: Bytes) returns (text: Option<Bytes>)
    ensures text == KeptPart(bytes)
  {
    var decoded := Decode(bytes);
    if decoded.Whole? {
      return Some(bytes);
    }
    text := if decoded.Truncated? && decoded.validUpTo <= |bytes| then Some(bytes[..decoded.validUpTo]) else None;
  }

  /** The result that the bytes read decide. */
  function Answer(firstAvailable: nat, end: nat, requested: nat, first: nat, bytes: Bytes): ReadResult {
    var text := KeptPart(bytes);
    if text.None? || Decode(text.value) != Whole then Rejected(BadData)
    else
      var next := first + |text.value|;
      Read(Range(
        firstAvailable, first, next, end, next < end,
        firstAvailable <= requested <= end && next >= end, text.value))
  }

  /** In a window of text, a read either starts inside a scalar, or gets a whole-scalar piece of it. */
  lemma WindowText(stream: Bytes, first: nat, maxBytes: nat)
    requires first <= |stream| && MIN_UTF8_BOUNDARY_BYTES <= maxBytes
    requires Utf8.Valid(stream[first..])
    ensures var cut := stream[first..Min(first + maxBytes, |stream|)];
            var length := ReadEnd(stream, first, maxBytes) - first;
            && length <= |cut| && Utf8.Valid(cut[..length])
            && Decode(cut) == (if length == |cut| then Whole else Truncated(length))
            && (first < |stream| ==> length > 0)
  {
    hide Utf8.Valid, Decode;
    var rest, limit := stream[first..], Min(maxBytes, |stream| - first);
    CutOfRest(stream, first, maxBytes);
    RestText(rest, limit);
  }

  lemma CutOfRest(stream: Bytes, first: nat, maxBytes: nat)
    requires first <= |stream|
    ensures stream[first..Min(first + maxBytes, |stream|)] == stream[first..][..Min(maxBytes, |stream| - first)]
  {
  }

  /** Text cut after `limit` bytes decodes up to its last boundary. */
  lemma RestText(rest: Bytes, limit: nat)
    requires Utf8.Valid(rest) && limit <= |rest| && (limit < |rest| ==> MIN_UTF8_BOUNDARY_BYTES <= limit)
    ensures var length := FloorBoundary(rest, limit);
            && Utf8.Valid(rest[..limit][..length])
            && Decode(rest[..limit]) == (if length == limit then Whole else Truncated(length))
            && (rest != [] ==> length > 0)
  {
    hide Utf8.Valid, Decode;
    var length := FloorBoundary(rest, limit);
    DecodeCut(rest, limit);
    BoundaryCuts(rest, length);
    HeadOfSlice(rest, 0, limit, length);
    if rest != [] {
      ValidHead(rest);
      FloorPasses(rest, limit);
    }
  }

  /** An offset inside a scalar is told apart. */
  lemma InsideScalar(window: Bytes, at: nat, cut: Bytes)
    requires Utf8.Valid(window) && at <= |window| && !IsBoundary(window, at)
    requires cut != [] && cut <= window[at..]
    ensures Decode(cut) == Malformed
  {
  }

  /**
   A bounded read. It is refused when the files do not add up to the window; otherwise it is exact, ends on
   a scalar boundary and makes progress. An offset inside a scalar is rejected.
   */
  method ReadSnapshot(
    disk: Disk, limits: Limits, slots: Slots, firstAvailable: nat, end: nat, offset: Option<nat>, maxBytes: nat,
    ghost stream: Bytes)
    returns (result: ReadResult)
    requires FilesFit(slots, limits.fileBytes) && firstAvailable <= end == |stream|
    ensures (offset.Some? && offset.value > JS_MAX_SAFE_INTEGER)
            || maxBytes < MIN_UTF8_BOUNDARY_BYTES || maxBytes > MAX_LOG_RANGE_BYTES <==>
              result == Rejected(BadRequest)
    ensures result == Rejected(ReadFailed) ==> !Readable(disk, slots)
    ensures result.Read? ==> |Retained(slots)| == end - firstAvailable
    ensures result.Read? && FilesValid(slots) && IsSuffix(stream, Retained(slots)) ==>
              ReadsStream(stream, firstAvailable, offset, maxBytes, result.range)
    ensures result == Rejected(BadData) && FilesValid(slots) && HoldsWindow(slots, stream, firstAvailable) ==>
              var first := Clamp(if offset.Some? then offset.value else firstAvailable, firstAvailable, end);
              !IsBoundary(stream[firstAvailable..], first - firstAvailable)
  {
    hide Utf8.Valid, Retained, ReadsStream, Flatten, FilesFrom, HoldsWindow, IsSuffix, FilesValid, Answer;
    if (offset.Some? && offset.value > JS_MAX_SAFE_INTEGER)
       || maxBytes < MIN_UTF8_BOUNDARY_BYTES || maxBytes > MAX_LOG_RANGE_BYTES {
      return Rejected(BadRequest);
    }
    var requested := if offset.Some? then offset.value else firstAvailable;
    var files := OpenRetained(disk, limits, slots, firstAvailable);
    if files.None? {
      return Rejected(ReadFailed);
    }
    FilesHoldRetained(slots, firstAvailable);
    NoMoreFilesThanSlots(slots, firstAvailable);
    if HoldsWindow(slots, stream, firstAvailable) {
      WindowIsSuffix(slots, stream, firstAvailable);
    }
    if |Retained(slots)| != end - firstAvailable {
      return Rejected(BadData);
    }
    var first := Clamp(requested, firstAvailable, end);
    var bytes := Gather(disk, files.value, first, firstAvailable, end, maxBytes);
    if bytes.None? {
      return Rejected(ReadFailed);
    }
    if FilesValid(slots) && IsSuffix(stream, Retained(slots)) {
      ReadIsExact(slots, stream, firstAvailable, offset, maxBytes, first, bytes.value);
    }
    result := Decide(firstAvailable, end, requested, first, bytes.value);
  }

  method Decide(firstAvailable: nat, end: nat, requested: nat, first: nat, bytes: Bytes) returns (result: ReadResult)
    ensures result == Answer(firstAvailable, end, requested, first, bytes)
    ensures result.Rejected? ==> result.error.BadData?
  {
    var text := TruncateIncompleteUtf8(bytes);
    if text.None? || Decode(text.value) != Whole {
      return Rejected(BadData);
    }
    var next := first + |text.value|;
    result := Read(Range(
      firstAvailable, first, next, end, next < end,
      firstAvailable <= requested <= end && next >= end, text.value));
  }

  /** The answer is exact from a scalar boundary on, and a rejection inside a scalar. */
  lemma ReadIsExact(
    slots: Slots, stream: Bytes, firstAvailable: nat, offset: Option<nat>, maxBytes: nat, first: nat, bytes: Bytes)
    requires firstAvailable <= |stream| && MIN_UTF8_BOUNDARY_BYTES <= maxBytes
    requires |Retained(slots)| == |stream| - firstAvailable
    requires first == Clamp(if offset.Some? then offset.value else firstAvailable, firstAvailable, |stream|)
    requires bytes == Retained(slots)[first - firstAvailable..Min(first + maxBytes, |stream|) - firstAvailable]
    requires FilesValid(slots) && IsSuffix(stream, Retained(slots))
    ensures var requested := if offset.Some? then offset.value else firstAvailable;
            var answer := Answer(firstAvailable, |stream|, requested, first, bytes);
            if IsBoundary(stream[firstAvailable..], first - firstAvailable) then
              answer.Read? && ReadsStream(stream, firstAvailable, offset, maxBytes, answer.range)
            else answer == Rejected(BadData)
  {
    hide Utf8.Valid, Decode, Retained, ReadsStream;
    var window, at := stream[firstAvailable..], first - firstAvailable;
    RetainedIsValid(slots);
    LengthDecides(slots, stream, firstAvailable);
    BytesOfStream(slots, stream, firstAvailable, first, maxBytes);
    assert window[at..] == stream[first..];
    BoundaryCuts(window, at);
    if IsBoundary(window, at) {
      ReadAtBoundary(stream, firstAvailable, offset, maxBytes, first, bytes);
    } else {
      InsideScalar(window, at, bytes);
    }
  }

  lemma BytesOfStream(slots: Slots, stream: Bytes, firstAvailable: nat, first: nat, maxBytes: nat)
    requires HoldsWindow(slots, stream, firstAvailable) && firstAvailable <= first <= |stream|
    ensures Retained(slots)[first - firstAvailable..Min(first + maxBytes, |stream|) - firstAvailable]
            == stream[first..Min(first + maxBytes, |stream|)]
  {
  }

  lemma InRange(offset: nat, low: nat, high: nat, maxBytes: nat)
    requires low <= high
    ensures var first := Clamp(offset, low, high);
            low <= first <= high && first <= Min(first + maxBytes, high) <= high
            && Min(first + maxBytes, high) - first <= maxBytes
  {
  }

  lemma HeadOfSlice(stream: Bytes, from: nat, to: nat, length: nat)
    requires from + length <= to <= |stream|
    ensures stream[from..to][..length] == stream[from..from + length]
  {
  }

  lemma ReadAtBoundary(
    stream: Bytes, firstAvailable: nat, offset: Option<nat>, maxBytes: nat, first: nat, bytes: Bytes)
    requires firstAvailable <= |stream| && MIN_UTF8_BOUNDARY_BYTES <= maxBytes
    requires first == Clamp(if offset.Some? then offset.value else firstAvailable, firstAvailable, |stream|)
    requires bytes == stream[first..Min(first + maxBytes, |stream|)] && Utf8.Valid(stream[first..])
    ensures var requested := if offset.Some? then offset.value else firstAvailable;
            var answer := Answer(firstAvailable, |stream|, requested, first, bytes);
            answer.Read? && ReadsStream(stream, firstAvailable, offset, maxBytes, answer.range)
  {
    hide Utf8.Valid, Decode, ReadEnd, Min, Clamp;
    InRange(if offset.Some? then offset.value else firstAvailable, firstAvailable, |stream|, maxBytes);
    WindowText(stream, first, maxBytes);
    var length := ReadEnd(stream, first, maxBytes) - first;
    HeadOfSlice(stream, first, Min(first + maxBytes, |stream|), length);
    DecodeWhole(bytes[..length]);
    assert bytes[..|bytes|] == bytes;
    assert KeptPart(bytes) == Some(bytes[..length]);
  }

  /** Chaining `next` over a stable window returns it whole, each byte once. */
  method ReadWhole(
    disk: Disk, limits: Limits, slots: Slots, firstAvailable: nat, end: nat, maxBytes: nat, ghost stream: Bytes)
    returns (text: Option<Bytes>)
    requires FilesFit(slots, limits.fileBytes) && FilesValid(slots)
    requires end == |stream| <= JS_MAX_SAFE_INTEGER && HoldsWindow(slots, stream, firstAvailable)
    requires MIN_UTF8_BOUNDARY_BYTES <= maxBytes <= MAX_LOG_RANGE_BYTES
    ensures text.Some? ==> text.value == stream[firstAvailable..]
    ensures Readable(disk, slots) ==> text.Some?
  {
    hide Utf8.Valid, Retained, HoldsWindow, IsSuffix, FilesValid, ReadEnd;
    WindowIsSuffix(slots, stream, firstAvailable);
    WindowIsText(slots, stream, firstAvailable);
    var found: Bytes := [];
    var at := firstAvailable;
    assert stream[firstAvailable..firstAvailable] == [];
    while at < end
      invariant firstAvailable <= at <= end && found == stream[firstAvailable..at]
      invariant Utf8.Valid(stream[at..]) && Utf8.Valid(stream[firstAvailable..])
      decreases end - at
    {
      var result := ReadSnapshot(disk, limits, slots, firstAvailable, end, Some(at), maxBytes, stream);
      if result.Rejected? {
        BoundaryOfWindow(stream, firstAvailable, at);
        assert Clamp(at, firstAvailable, end) == at && result != Rejected(BadData) && result != Rejected(BadRequest);
        assert result.error.ReadFailed?;
        return None;
      }
      found := found + result.range.text;
      RestIsText(stream, at, result.range.next);
      at := result.range.next;
    }
    assert stream[firstAvailable..end] == stream[firstAvailable..];
    text := Some(found);
  }

  lemma WindowIsText(slots: Slots, stream: Bytes, firstAvailable: nat)
    requires FilesValid(slots) && HoldsWindow(slots, stream, firstAvailable)
    ensures Utf8.Valid(stream[firstAvailable..]) && firstAvailable <= |stream|
  {
    RetainedIsValid(slots);
  }

  lemma BoundaryOfWindow(stream: Bytes, firstAvailable: nat, at: nat)
    requires firstAvailable <= at <= |stream|
    requires Utf8.Valid(stream[firstAvailable..]) && Utf8.Valid(stream[at..])
    ensures IsBoundary(stream[firstAvailable..], at - firstAvailable)
  {
    hide Utf8.Valid;
    BoundaryCuts(stream[firstAvailable..], at - firstAvailable);
    assert stream[firstAvailable..][at - firstAvailable..] == stream[at..];
  }

  lemma RestIsText(stream: Bytes, first: nat, next: nat)
    requires first <= next <= |stream| && Utf8.Valid(stream[first..]) && Utf8.Valid(stream[first..next])
    ensures Utf8.Valid(stream[next..])
  {
    assert stream[first..] == stream[first..next] + stream[next..];
    ValidRemainder(stream[first..next], stream[next..]);
  }

  /** Validation by bounded buffers, carrying an incomplete scalar over, accepts exactly the valid files. */
  method ValidateUtf8File(content: Bytes, bufferBytes: nat) returns (valid: bool)
    requires bufferBytes > 0
    ensures valid <==> Utf8.Valid(content)
  {
    hide Utf8.Valid, Decode;
    var checked, position := 0, 0;
    assert content[0..0] == [] && content[..0] == [];
    EmptyIsValid();
    while position < |content|
      invariant 0 <= checked <= position <= |content| && position - checked < MIN_UTF8_BOUNDARY_BYTES
      invariant Utf8.Valid(content[..checked])
      invariant Utf8.Valid(content) ==> Utf8.Valid(content[checked..])
      invariant position == |content| && checked < position ==> !Utf8.Valid(content[checked..])
      decreases |content| - position
    {
      var read := Min(bufferBytes, |content| - position);
      var piece := content[checked..position + read];
      var decoded := Decode(piece);
      PieceDecides(content, checked, position + read);
      if decoded.Malformed? {
        return false;
      }
      var length := if decoded.Whole? then |piece| else decoded.validUpTo;
      if length > |piece| || |piece| - length >= MIN_UTF8_BOUNDARY_BYTES {
        return false;
      }
      PieceAdvances(content, checked, position + read, length);
      checked, position := checked + length, position + read;
    }
    assert checked == position ==> content[..checked] == content;
    assert content[checked..] == content[checked..position];
    valid := checked == position;
  }

  lemma EmptyIsValid()
    ensures Utf8.Valid([])
  {
  }

  /** In valid text a piece that starts on a boundary decodes, leaving less than one scalar. */
  lemma PieceDecides(content: Bytes, checked: nat, to: nat)
    requires checked <= to <= |content|
    ensures Utf8.Valid(content[checked..]) ==>
              var decoded := Decode(content[checked..to]);
              && !decoded.Malformed?
              && (decoded.Truncated? ==>
                    decoded.validUpTo <= to - checked && to - checked - decoded.validUpTo < MIN_UTF8_BOUNDARY_BYTES)
  {
    if Utf8.Valid(content[checked..]) {
      var rest := content[checked..];
      DecodeCut(rest, to - checked);
      assert rest[..to - checked] == content[checked..to];
      FloorIsNear(rest, to - checked);
    }
  }

  lemma {:induction false} DecodedPrefixIsValid(s: Bytes)
    ensures Decode(s).Truncated? ==>
              Decode(s).validUpTo < |s| && Utf8.Valid(s[..Decode(s).validUpTo]) && !Utf8.Valid(s)
    decreases |s|
  {
    hide ScalarLength, IsScalarPrefix;
    DecodeWhole(s);
    if s != [] && ScalarLength(s) > 0 {
      var n := ScalarLength(s);
      DecodedPrefixIsValid(s[n..]);
      if Decode(s).Truncated? {
        var k := Decode(s[n..]).validUpTo;
        CutAfterScalar(s, n + k);
      }
    }
  }

  lemma PieceAdvances(content: Bytes, checked: nat, to: nat, length: nat)
    requires checked <= to <= |content| && Utf8.Valid(content[..checked])
    requires var decoded := Decode(content[checked..to]);
             !decoded.Malformed? && length == (if decoded.Whole? then to - checked else decoded.validUpTo)
    ensures checked + length <= to && Utf8.Valid(content[..checked + length])
    ensures Utf8.Valid(content[checked..]) ==> Utf8.Valid(content[checked + length..])
    ensures to == |content| && checked + length < to ==> !Utf8.Valid(content[checked + length..])
  {
    hide Utf8.Valid, Decode;
    var piece := content[checked..to];
    DecodeWhole(piece);
    DecodedPrefixIsValid(piece);
    assert length <= |piece|;
    assert piece[..|piece|] == piece;
    assert Utf8.Valid(piece[..length]);
    assert content[..checked + length] == content[..checked] + piece[..length];
    ValidAppend(content[..checked], piece[..length]);
    assert content[checked..] == piece[..length] + content[checked + length..];
    if Utf8.Valid(content[checked..]) {
      ValidRemainder(piece[..length], content[checked + length..]);
    }
    if to == |content| {
      assert piece == content[checked..];
      if checked + length < to && Utf8.Valid(content[checked + length..]) {
        ValidAppend(piece[..length], content[checked + length..]);
      }
    }
  }

  /**
   Reading a collector's stream. Whatever failed before, short of a torn write, a read that succeeds is
   exact, and while the stream is available only an offset inside a scalar is rejected. After a torn write
   reads succeed only from a window that has slid back over it.
   */
  method ReadCollector(disk: Disk, collector: LogStreamCollector, offset: Option<nat>, maxBytes: nat)
    returns (result: ReadResult)
    requires collector.Valid()
    ensures result.Read? && !collector.file.torn ==>
              ReadsStream(collector.stream, collector.firstAvailable, offset, maxBytes, result.range)
    ensures result.Read? && collector.file.torn ==>
              && |collector.tornBytes| <= collector.tornFrom
              && collector.firstAvailable == collector.tornFrom - |collector.tornBytes|
              && (HoldsWindow(collector.file.slots, collector.stream, collector.firstAvailable)
                  <==> Repeats(
                         collector.stream + collector.tornBytes, collector.firstAvailable, |collector.tornBytes|))
    ensures result == Rejected(ReadFailed) ==> !Readable(disk, collector.file.slots)
    ensures result == Rejected(BadRequest) <==>
              || (offset.Some? && offset.value > JS_MAX_SAFE_INTEGER)
              || maxBytes < MIN_UTF8_BOUNDARY_BYTES || maxBytes > MAX_LOG_RANGE_BYTES
    ensures result == Rejected(BadData) && !collector.unavailable ==>
              var first := Clamp(
                             if offset.Some? then offset.value else collector.firstAvailable,
                             collector.firstAvailable, collector.end);
              !IsBoundary(collector.stream[collector.firstAvailable..], first - collector.firstAvailable)
  {
    hide Utf8.Valid, Retained, ReadsStream, HoldsWindow, HoldsTorn, IsSuffix, FilesValid, Repeats;
    result := ReadSnapshot(
      disk, collector.limits, collector.file.slots, collector.firstAvailable, collector.end, offset, maxBytes,
      collector.stream);
    if collector.file.torn {
      TornWindowSlides(collector.file.slots, collector.stream, collector.tornFrom, collector.tornBytes);
    }
  }
}
