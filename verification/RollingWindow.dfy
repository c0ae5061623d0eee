/** The window of a stream that a set of rolling files holds, what appending makes of it, and what a torn write does. */
module RollingWindow {
  import opened DiscoveryDomain
  import opened Utf8
  import opened MemoryTail
  import opened RollingFiles

  /** The files hold exactly the window [firstAvailable, end) of the stream. */
  ghost predicate HoldsWindow(slots: Slots, stream: Bytes, firstAvailable: nat) {
    firstAvailable <= |stream| && Retained(slots) == stream[firstAvailable..]
  }

  /** Archives made by this generation are full up to less than one scalar. */
  ghost predicate ArchivesFull(slots: Slots, rotations: nat, fileBytes: nat) {
    forall i | 1 <= i <= rotations && i < |slots| :: slots[i].Some? && |slots[i].value| + 3 >= fileBytes
  }

  lemma WindowAfterRotation(slots: Slots, stream: Bytes, firstAvailable: nat)
    requires slots != [] && HoldsWindow(slots, stream, firstAvailable)
    ensures HoldsWindow(Rotated(slots), stream, firstAvailable + |Content(slots[|slots| - 1])|)
  {
    RotationDropsOldest(slots);
    var dropped := Content(slots[|slots| - 1]);
    assert stream[firstAvailable..] == dropped + Retained(Rotated(slots));
    assert stream[firstAvailable..][|dropped|..] == stream[firstAvailable + |dropped|..];
  }

  lemma WindowIsSuffix(slots: Slots, stream: Bytes, firstAvailable: nat)
    requires HoldsWindow(slots, stream, firstAvailable)
    ensures IsSuffix(stream, Retained(slots)) && |Retained(slots)| == |stream| - firstAvailable
  {
  }

  lemma SuffixOfSuffix(a: Bytes, b: Bytes, c: Bytes)
    requires IsSuffix(a, b) && IsSuffix(b, c)
    ensures IsSuffix(a, c)
  {
  }

  /** Any suffix is the window that ends where the stream ends. */
  lemma SuffixIsWindow(slots: Slots, stream: Bytes)
    requires IsSuffix(stream, Retained(slots))
    ensures HoldsWindow(slots, stream, |stream| - |Retained(slots)|)
  {
  }

  /** A rotation makes room only when the active file is full up to less than one scalar. */
  lemma ArchivesAfterRotation(slots: Slots, rotations: nat, fileBytes: nat)
    requires slots != [] && slots[0].Some? && |slots[0].value| + 3 >= fileBytes
    requires ArchivesFull(slots, rotations, fileBytes)
    ensures ArchivesFull(Rotated(slots), rotations + 1, fileBytes)
  {
  }

  lemma TailGrows(stream: Bytes, tail: Bytes, chunk: Bytes)
    requires IsSuffix(stream, tail)
    ensures IsSuffix(stream + chunk, tail + chunk)
  {
  }

  lemma ChunkKeepsWindow(
    slots: Slots, stream: Bytes, firstAvailable: nat, chunk: Bytes, rotations: nat, fileBytes: nat)
    requires slots != [] && slots[0].Some? && HoldsWindow(slots, stream, firstAvailable)
    requires ArchivesFull(slots, rotations, fileBytes)
    ensures var after := slots[0 := Some(slots[0].value + chunk)];
            && HoldsWindow(after, stream + chunk, firstAvailable)
            && IsSuffix(stream + chunk, Retained(after))
            && ArchivesFull(after, rotations, fileBytes)
  {
  }

  /** Unless a write was torn, matching lengths mean matching bytes. */
  lemma LengthDecides(slots: Slots, stream: Bytes, firstAvailable: nat)
    requires IsSuffix(stream, Retained(slots)) && firstAvailable <= |stream|
    ensures HoldsWindow(slots, stream, firstAvailable) <==> |Retained(slots)| == |stream| - firstAvailable
  {
  }

  // ----- What appending makes of the files -----

  /** The files of a stream and the offset at which they start. */
  datatype Window = Window(slots: Slots, firstAvailable: nat)

  function Available(fileBytes: nat, slots: Slots): nat
    requires slots != []
  {
    if |Content(slots[0])| < fileBytes then fileBytes - |Content(slots[0])| else 0
  }

  /** One rotation, if the next scalar does not fit. */
  function RoomFor(fileBytes: nat, w: Window, text: Bytes): (r: Window)
    requires w.slots != []
    ensures |r.slots| == |w.slots|
  {
    if Available(fileBytes, w.slots) < ScalarLength(text) then
      Window(Rotated(w.slots), w.firstAvailable + |Content(w.slots[|w.slots| - 1])|)
    else w
  }

  /** As many whole scalars as fit into the active file. */
  function PassLength(fileBytes: nat, w: Window, text: Bytes): (n: nat)
    requires w.slots != []
    ensures n <= |text|
  {
    var available := Available(fileBytes, RoomFor(fileBytes, w, text).slots);
    FloorBoundary(text, if |text| < available then |text| else available)
  }

  function AfterPass(fileBytes: nat, w: Window, text: Bytes): (r: Window)
    requires w.slots != []
    ensures |r.slots| == |w.slots|
  {
    var room := RoomFor(fileBytes, w, text);
    room.(slots := Extended(room.slots, text[..PassLength(fileBytes, w, text)]))
  }

  function Extended(slots: Slots, chunk: Bytes): Slots
    requires slots != []
  {
    slots[0 := Some(Content(slots[0]) + chunk)]
  }

  /** The boundary below a limit cannot be moved on by a scalar. */
  lemma FloorIsMaximal(text: Bytes, limit: nat)
    requires Valid(text) && limit <= |text| && FloorBoundary(text, limit) < |text|
    ensures var n := FloorBoundary(text, limit); n + ScalarLength(text[n..]) > limit
  {
    hide Valid, ScalarLength;
    var n := FloorBoundary(text, limit);
    BoundaryCuts(text, n);
    FirstScalar(text[n..]);
    var next := n + ScalarLength(text[n..]);
    if next <= limit {
      assert text[n..][ScalarLength(text[n..])..] == text[next..];
      BoundaryCuts(text, next);
    }
  }

  /**
   A pass rotates exactly if the next scalar does not fit into the active file, which drops the oldest file and
   starts an empty one. Then it writes whole scalars, at least one, and stops only where the next does not fit.
   */
  lemma PassIsGreedy(fileBytes: nat, w: Window, text: Bytes)
    requires w.slots != [] && Valid(text) && text != []
    requires MIN_UTF8_BOUNDARY_BYTES <= fileBytes && |Content(w.slots[0])| <= fileBytes
    ensures var n, after, last := PassLength(fileBytes, w, text), AfterPass(fileBytes, w, text), |w.slots| - 1;
            && 0 < n && IsBoundary(text, n) && |Content(after.slots[0])| <= fileBytes
            && (n < |text| ==> |Content(after.slots[0])| + ScalarLength(text[n..]) > fileBytes)
            && after == if |Content(w.slots[0])| + ScalarLength(text) <= fileBytes
                        then Window(w.slots[0 := Some(Content(w.slots[0]) + text[..n])], w.firstAvailable)
                        else Window(
                          [Some(text[..n])] + w.slots[..last], w.firstAvailable + |Content(w.slots[last])|)
  {
    hide Valid, FloorBoundary, ScalarLength, PassLength, RoomFor, Extended;
    RoomIsMade(fileBytes, w, text);
    PassFits(fileBytes, w, text);
    ExtendedFront(
      RoomFor(fileBytes, w, text).slots, w.slots[..|w.slots| - 1], text[..PassLength(fileBytes, w, text)]);
    ExtendedInPlace(w.slots, text[..PassLength(fileBytes, w, text)]);
  }

  lemma RoomIsMade(fileBytes: nat, w: Window, text: Bytes)
    requires w.slots != [] && |Content(w.slots[0])| <= fileBytes
    ensures var room, last := RoomFor(fileBytes, w, text), |w.slots| - 1;
            && room.slots != []
            && room == (if |Content(w.slots[0])| + ScalarLength(text) <= fileBytes then w
                        else Window(
                          [Some([])] + w.slots[..last], w.firstAvailable + |Content(w.slots[last])|))
  {
    hide ScalarLength;
  }

  lemma ExtendedInPlace(slots: Slots, chunk: Bytes)
    requires slots != []
    ensures Extended(slots, chunk) == slots[0 := Some(Content(slots[0]) + chunk)]
  {
  }

  lemma ExtendedFront(slots: Slots, older: Slots, chunk: Bytes)
    requires slots != []
    ensures |Content(Extended(slots, chunk)[0])| == |Content(slots[0])| + |chunk|
    ensures Extended([Some([])] + older, chunk) == [Some(chunk)] + older
  {
    assert [] + chunk == chunk;
  }

  lemma PassFits(fileBytes: nat, w: Window, text: Bytes)
    requires w.slots != [] && Valid(text) && text != []
    requires MIN_UTF8_BOUNDARY_BYTES <= fileBytes && |Content(w.slots[0])| <= fileBytes
    ensures var n, room := PassLength(fileBytes, w, text), |Content(RoomFor(fileBytes, w, text).slots[0])|;
            && 0 < n && IsBoundary(text, n) && room + n <= fileBytes
            && (n < |text| ==> room + n + ScalarLength(text[n..]) > fileBytes)
  {
    hide Valid, FloorBoundary, ScalarLength;
    var available := Available(fileBytes, RoomFor(fileBytes, w, text).slots);
    var limit := if |text| < available then |text| else available;
    FirstScalar(text);
    ScalarIsShort(text);
    FloorPasses(text, limit);
    if PassLength(fileBytes, w, text) < |text| {
      FloorIsMaximal(text, limit);
    }
  }

  lemma ScalarIsShort(text: Bytes)
    ensures ScalarLength(text) <= MIN_UTF8_BOUNDARY_BYTES && ScalarLength(text) <= |text|
  {
  }

  /** Pass after pass, as far as `accepted` bytes reach. */
  function StateAfter(fileBytes: nat, w: Window, text: Bytes, accepted: nat): (r: Window)
    requires w.slots != []
    ensures |r.slots| == |w.slots|
    decreases |text|
  {
    var n := PassLength(fileBytes, w, text);
    if n == 0 || accepted < n then w
    else StateAfter(fileBytes, AfterPass(fileBytes, w, text), text[n..], accepted - n)
  }

  /** After `accepted` bytes the passes have come to `w`, and go on from there. */
  ghost predicate Reaches(fileBytes: nat, before: Window, text: Bytes, accepted: nat, w: Window)
    requires before.slots != [] && w.slots != [] && accepted <= |text|
  {
    forall total | accepted <= total <= |text| ::
      StateAfter(fileBytes, before, text, total) == StateAfter(fileBytes, w, text[accepted..], total - accepted)
  }

  lemma NothingAppended(fileBytes: nat, w: Window, text: Bytes)
    requires w.slots != []
    ensures Reaches(fileBytes, w, text, 0, w)
  {
    assert text[0..] == text;
  }

  lemma ReachedState(fileBytes: nat, before: Window, text: Bytes, accepted: nat, w: Window)
    requires before.slots != [] && w.slots != [] && accepted <= |text|
    requires Reaches(fileBytes, before, text, accepted, w)
    ensures StateAfter(fileBytes, before, text, accepted) == w
  {
    assert StateAfter(fileBytes, w, text[accepted..], accepted - accepted) == w;
  }

  lemma OnePassFurther(fileBytes: nat, before: Window, text: Bytes, accepted: nat, w: Window)
    requires before.slots != [] && w.slots != [] && accepted <= |text|
    requires Reaches(fileBytes, before, text, accepted, w) && PassLength(fileBytes, w, text[accepted..]) > 0
    ensures var n := PassLength(fileBytes, w, text[accepted..]);
            Reaches(fileBytes, before, text, accepted + n, AfterPass(fileBytes, w, text[accepted..]))
  {
    hide PassLength, AfterPass;
    var rest, n := text[accepted..], PassLength(fileBytes, w, text[accepted..]);
    assert rest[n..] == text[accepted + n..];
    forall total | accepted + n <= total <= |text|
      ensures StateAfter(fileBytes, before, text, total)
              == StateAfter(fileBytes, AfterPass(fileBytes, w, rest), text[accepted + n..], total - (accepted + n))
    {
      assert StateAfter(fileBytes, before, text, total) == StateAfter(fileBytes, w, rest, total - accepted);
    }
  }

  // ----- What a torn write does -----

  /** The files hold the window from `from` on, and after it bytes that are not part of the stream. */
  ghost predicate HoldsTorn(slots: Slots, stream: Bytes, from: nat, torn: Bytes) {
    torn != [] && from <= |stream| && Retained(slots) == stream[from..] + torn
  }

  /** Some, but not all, of the bytes that should have been written. */
  predicate IsTornFrom(torn: Bytes, chunk: Bytes) {
    0 < |torn| < |chunk| && torn == chunk[..|torn|]
  }

  /** The write after `accepted` bytes was torn, when the window had come to start at `from`. */
  ghost predicate TornAt(fileBytes: nat, before: Window, text: Bytes, accepted: nat, from: nat, torn: Bytes)
    requires before.slots != []
  {
    && accepted <= |text|
    && var w, rest := StateAfter(fileBytes, before, text, accepted), text[accepted..];
       && from == RoomFor(fileBytes, w, rest).firstAvailable
       && IsTornFrom(torn, rest[..PassLength(fileBytes, w, rest)])
  }

  lemma TornWriteHolds(slots: Slots, stream: Bytes, from: nat, torn: Bytes)
    requires slots != [] && HoldsWindow(slots, stream, from) && torn != []
    ensures HoldsTorn(Extended(slots, torn), stream, from, torn)
  {
    assert Extended(slots, torn)[1..] == slots[1..];
    assert Retained(slots[1..]) + (Content(slots[0]) + torn) == Retained(slots) + torn;
  }

  /** From `at` on, every byte is followed by the same byte `period` later. */
  ghost predicate Repeats(s: Bytes, at: nat, period: nat) {
    forall i | at <= i && i + period < |s| :: s[i] == s[i + period]
  }

  /** Where reconciling puts the start of the window if the files end in `torn` foreign bytes. */
  function Reconciled(from: nat, torn: nat): nat {
    if torn <= from then from - torn else from
  }

  /**
   Reconciling slides the window back over the torn bytes exactly if at least as many bytes were rotated away
   before. It then holds the right bytes exactly if the stream with the torn bytes repeats itself from there on
   with their number as its period. Otherwise the lengths still disagree, and reads are refused.
   */
  lemma TornWindowSlides(slots: Slots, stream: Bytes, from: nat, torn: Bytes)
    requires HoldsTorn(slots, stream, from, torn)
    ensures |Retained(slots)| <= |stream| <==> |torn| <= from
    ensures |Retained(slots)| != |stream| - from
    ensures |Retained(slots)| == |stream| - Reconciled(from, |torn|) <==> |torn| <= from
    ensures |torn| <= from ==>
              (HoldsWindow(slots, stream, from - |torn|) <==> Repeats(stream + torn, from - |torn|, |torn|))
  {
    hide Repeats;
    if |torn| <= from {
      SlidWindow(stream, from, torn);
    }
  }

  lemma SlidWindow(stream: Bytes, from: nat, torn: Bytes)
    requires |torn| <= from <= |stream|
    ensures stream[from..] + torn == stream[from - |torn|..] <==> Repeats(stream + torn, from - |torn|, |torn|)
  {
    var held, shown, all, at := stream[from..] + torn, stream[from - |torn|..], stream + torn, from - |torn|;
    assert |held| == |shown|;
    forall i | 0 <= i < |held| ensures held[i] == all[at + i + |torn|] && shown[i] == all[at + i] {
    }
    if held == shown {
      forall i | at <= i && i + |torn| < |all| ensures all[i] == all[i + |torn|] {
        assert held[i - at] == shown[i - at];
      }
    }
    if Repeats(all, at, |torn|) {
      forall i | 0 <= i < |held| ensures held[i] == shown[i] {
        assert all[at + i] == all[at + i + |torn|];
      }
    }
  }

  // ----- A torn write that goes unnoticed -----

  const TEXT_WXYZ: Bytes := [0x77, 0x78, 0x79, 0x7A]
  const TEXT_AB: Bytes := [0x61, 0x62]
  const TEXT_CD: Bytes := [0x63, 0x64]

  /** One file of four bytes: "wxyz" fills it, "ab" rotates it away. */
  lemma AppendedExample()
    ensures var empty, full := Window([Some([])], 0), Window([Some(TEXT_WXYZ)], 0);
            && StateAfter(4, empty, TEXT_WXYZ, 4) == full
            && StateAfter(4, full, TEXT_AB, 2) == Window([Some(TEXT_AB)], 4)
  {
    var empty, full := Window([Some([])], 0), Window([Some(TEXT_WXYZ)], 0);
    assert [] + TEXT_WXYZ == TEXT_WXYZ && [] + TEXT_AB == TEXT_AB;
    assert PassLength(4, empty, TEXT_WXYZ) == 4 && TEXT_WXYZ[..4] == TEXT_WXYZ;
    assert AfterPass(4, empty, TEXT_WXYZ) == full;
    assert Rotated(full.slots) == empty.slots;
    assert RoomFor(4, full, TEXT_AB) == Window(empty.slots, 4);
    assert PassLength(4, full, TEXT_AB) == 2 && TEXT_AB[..2] == TEXT_AB;
    assert AfterPass(4, full, TEXT_AB) == Window([Some(TEXT_AB)], 4);
  }

  /** A disk that takes only the "c" of "cd" leaves exactly such files. */
  lemma TornExampleHappens()
    ensures var before, torn := Window([Some(TEXT_AB)], 4), [0x63];
            && TornAt(4, before, TEXT_CD, 0, before.firstAvailable, torn)
            && HoldsTorn(Extended(before.slots, torn), TEXT_WXYZ + TEXT_AB, before.firstAvailable, torn)
  {
    var before, torn := Window([Some(TEXT_AB)], 4), [0x63];
    assert TEXT_CD[0..] == TEXT_CD && TEXT_CD[..2] == TEXT_CD;
    assert PassLength(4, before, TEXT_CD) == 2 && StateAfter(4, before, TEXT_CD, 0) == before;
    assert torn == TEXT_CD[..1];
    assert (TEXT_WXYZ + TEXT_AB)[4..] == TEXT_AB;
  }

  /** If only the "c" of "cd" can be written, the window slides back and shows "abc" for "zab". */
  lemma TornExample(slots: Slots, from: nat, torn: Bytes)
    requires TornAt(4, Window([Some(TEXT_AB)], 4), TEXT_CD, 0, from, torn)
    requires HoldsTorn(slots, TEXT_WXYZ + TEXT_AB, from, torn)
    ensures torn == [0x63] && Retained(slots) == [0x61, 0x62, 0x63]
    ensures from == 4 && Reconciled(from, |torn|) == 3 && |Retained(slots)| == |TEXT_WXYZ + TEXT_AB| - 3
    ensures !HoldsWindow(slots, TEXT_WXYZ + TEXT_AB, 3)
  {
    hide Retained;
    var w := Window([Some(TEXT_AB)], 4);
    assert TEXT_CD[0..] == TEXT_CD;
    assert PassLength(4, w, TEXT_CD) == 2 && StateAfter(4, w, TEXT_CD, 0) == w;
    assert torn == [0x63];
    assert (TEXT_WXYZ + TEXT_AB)[4..] == TEXT_AB;
    assert (TEXT_WXYZ + TEXT_AB)[3..][0] == 0x7A;
  }
}
