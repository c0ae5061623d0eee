/**
 The numbered files of one log stream: an active file and its archives, oldest last. File operations
 are atomic, and each of them may fail.
 */
module RollingFiles {
  import opened DiscoveryDomain
  import opened Utf8
  import opened MemoryTail

  type Bytes = seq<byte>

  /** Slot 0 is the active file, slot i the i-th archive; a slot may be empty. */
  type Slots = seq<Option<Bytes>>

  datatype Limits = Limits(fileBytes: nat, filesPerStream: nat, memoryBytes: nat)

  const MIN_UTF8_BOUNDARY_BYTES: nat := 4
  const MAX_LOG_FILE_BYTES: nat := 100 * 1024 * 1024
  const MAX_LOG_FILES_PER_STREAM: nat := 10
  const MAX_MEMORY_BYTES_PER_STREAM: nat := 4 * 1024 * 1024

  predicate ValidLimits(limits: Limits) {
    && MIN_UTF8_BOUNDARY_BYTES <= limits.fileBytes <= MAX_LOG_FILE_BYTES
    && 0 < limits.filesPerStream <= MAX_LOG_FILES_PER_STREAM
    && 0 < limits.memoryBytes <= MAX_MEMORY_BYTES_PER_STREAM
  }

  function Content(slot: Option<Bytes>): Bytes {
    if slot.Some? then slot.value else []
  }

  /** The files read oldest to newest. */
  function Retained(slots: Slots): Bytes {
    if slots == [] then [] else Retained(slots[1..]) + Content(slots[0])
  }

  predicate FilesFit(slots: Slots, fileBytes: nat) {
    forall i | 0 <= i < |slots| :: |Content(slots[i])| <= fileBytes
  }

  predicate FilesValid(slots: Slots) {
    forall i | 0 <= i < |slots| :: Utf8.Valid(Content(slots[i]))
  }

  lemma {:induction false} EmptySlotAddsNothing(newer: Slots, older: Slots)
    ensures Retained(newer + [None] + older) == Retained(newer + older)
  {
    if newer == [] {
      assert [] + [None] + older == [None] + older && ([None] + older)[1..] == older && [] + older == older;
    } else {
      EmptySlotAddsNothing(newer[1..], older);
      assert (newer + [None] + older)[1..] == newer[1..] + [None] + older;
      assert (newer + older)[1..] == newer[1..] + older;
    }
  }

  /** The oldest file comes first. */
  lemma {:induction false} OldestFirst(slots: Slots)
    requires slots != []
    ensures Retained(slots) == Content(slots[|slots| - 1]) + Retained(slots[..|slots| - 1])
  {
    hide Content;
    if |slots| == 1 {
      assert slots[1..] == [] && slots[..0] == [];
    } else {
      OldestFirst(slots[1..]);
      assert slots[1..][..|slots| - 2] == slots[..|slots| - 1][1..];
      Regroup(Content(slots[|slots| - 1]), Retained(slots[1..][..|slots| - 2]), Content(slots[0]));
    }
  }

  lemma {:induction false} RetainedIsValid(slots: Slots)
    requires FilesValid(slots)
    ensures Utf8.Valid(Retained(slots))
  {
    if slots != [] {
      RetainedIsValid(slots[1..]);
      ValidAppend(Retained(slots[1..]), Content(slots[0]));
    }
  }

  lemma DroppingFrontIsSuffix(front: Bytes, kept: Bytes)
    ensures IsSuffix(front + kept, kept) && IsSuffix(kept, kept)
  {
  }

  /** Files that are moved, removed or emptied stay small and valid. */
  predicate FilesGood(slots: Slots, fileBytes: nat, torn: bool) {
    FilesFit(slots, fileBytes) && (!torn ==> FilesValid(slots))
  }

  lemma MovedFilesGood(before: Slots, after: Slots, fileBytes: nat, torn: bool)
    requires FilesGood(before, fileBytes, torn)
    requires forall i | 0 <= i < |after| :: after[i].None? || after[i] == Some([]) || after[i] in before
    ensures FilesGood(after, fileBytes, torn)
  {
  }

  /** While archives move up: `index` and newer are in place, the slot above is free. */
  function MovedUpTo(slots: Slots, index: nat): Slots
    requires index + 1 < |slots|
  {
    slots[..index + 1] + [None] + slots[index + 1..|slots| - 1]
  }

  /** Wherever the moving stops, only the oldest file is missing. */
  lemma ShiftingKeepsSuffix(slots: Slots, index: nat)
    requires index + 1 < |slots|
    ensures Retained(MovedUpTo(slots, index)) == Retained(slots[..|slots| - 1])
    ensures IsSuffix(Retained(slots), Retained(MovedUpTo(slots, index)))
  {
    hide Retained, Content, IsSuffix;
    EmptySlotAddsNothing(slots[..index + 1], slots[index + 1..|slots| - 1]);
    DroppingFrontIsSuffix(Content(slots[|slots| - 1]), Retained(slots[..|slots| - 1]));
    assert slots[..index + 1] + slots[index + 1..|slots| - 1] == slots[..|slots| - 1];
    OldestFirst(slots);
  }

  /** A rename of one archive to the free slot above it. */
  function Renamed(slots: Slots, index: nat): Slots
    requires index + 1 < |slots|
  {
    if slots[index].Some? then slots[index := None][index + 1 := slots[index]] else slots
  }

  lemma RenameShifts(slots: Slots, index: nat)
    requires 0 < index && index + 1 < |slots|
    ensures Renamed(MovedUpTo(slots, index), index) == MovedUpTo(slots, index - 1)
  {
  }

  /** After a complete rotation: an empty active file, everything else one slot up. */
  function Rotated(slots: Slots): Slots
    requires slots != []
  {
    [Some([])] + slots[..|slots| - 1]
  }

  lemma RotationDropsOldest(slots: Slots)
    requires slots != []
    ensures Retained(Rotated(slots)) == Retained(slots[..|slots| - 1])
    ensures Retained(slots) == Content(slots[|slots| - 1]) + Retained(Rotated(slots))
  {
    OldestFirst(slots);
    assert Rotated(slots)[1..] == slots[..|slots| - 1];
  }

  datatype Rotation = Removed(bytes: nat) | RotationFailed

  datatype Write = Written | NotWritten | Torn

  class RollingFile {
    const limits: Limits
    /** Whether the file operations succeed, in the order in which they are tried. */
    const answers: nat -> bool
    var slots: Slots
    var isOpen: bool
    var fileBytes: nat
    var tried: nat
    /** A partial write could not be taken back. */
    ghost var torn: bool

    ghost predicate Valid()
      reads this`slots, this`isOpen, this`fileBytes, this`torn
    {
      && ValidLimits(limits) && |slots| == limits.filesPerStream
      && FilesGood(slots, limits.fileBytes, torn)
      && (isOpen ==> slots[0].Some? && fileBytes == |slots[0].value|)
    }

    /** Every operation since the `from`-th has succeeded. */
    ghost predicate AllWell(from: nat)
      reads this`tried
    {
      forall i | from <= i < tried :: answers(i)
    }

    /** Opens over what earlier generations left behind, creating the active file if there is none. */
    constructor (limits: Limits, found: Slots, answers: nat -> bool)
      requires ValidLimits(limits) && |found| == limits.filesPerStream
      requires FilesFit(found, limits.fileBytes) && FilesValid(found)
      ensures Valid() && isOpen && !torn && this.limits == limits && this.answers == answers && tried == 0
      ensures slots == found[0 := Some(Content(found[0]))] && Retained(slots) == Retained(found)
    {
      this.limits, this.answers, tried := limits, answers, 0;
      slots := found[0 := Some(Content(found[0]))];
      isOpen, fileBytes, torn := true, |Content(found[0])|, false;
      assert found[0 := Some(Content(found[0]))][1..] == found[1..];
    }

    /** One file operation. */
    method Try() returns (ok: bool)
      modifies this`tried
      ensures tried == old(tried) + 1 && ok == answers(old(tried))
    {
      ok := answers(tried);
      tried := tried + 1;
    }

    /** Archives move up one slot, newest last, into slots that are free. */
    method ShiftArchives() returns (ok: bool)
      requires |slots| >= 2 && slots[|slots| - 1].None?
      modifies this`slots, this`tried
      ensures old(tried) <= tried && (ok <==> AllWell(old(tried)))
      ensures exists i | 0 <= i && i + 1 < |old(slots)| :: slots == MovedUpTo(old(slots), i)
      ensures ok ==> slots == MovedUpTo(old(slots), 0)
    {
      var index := |slots| - 2;
      assert slots == MovedUpTo(old(slots), index);
      ok := true;
      while index > 0 && ok
        invariant 0 <= index && index + 1 < |old(slots)| && slots == MovedUpTo(old(slots), index)
        invariant old(tried) <= tried && (ok <==> AllWell(old(tried)))
        decreases index, ok
      {
        var moved := Try();
        if moved {
          RenameShifts(old(slots), index);
          slots := Renamed(slots, index);
          index := index - 1;
        } else {
          ok := false;
        }
      }
    }

    /** Remove the oldest archive, move the rest up, and start an empty active file. */
    method Rotate() returns (result: Rotation)
      requires Valid() && isOpen && !torn && fileBytes > 0
      modifies this`slots, this`isOpen, this`fileBytes, this`tried
      ensures Valid() && old(tried) <= tried && (result.Removed? <==> AllWell(old(tried)))
      ensures result.Removed? ==>
                && isOpen && slots == Rotated(old(slots)) && fileBytes == 0
                && result.bytes == |Content(old(slots)[|old(slots)| - 1])|
      ensures result.RotationFailed? ==> IsSuffix(Retained(old(slots)), Retained(slots))
    {
      hide Retained, IsSuffix, FilesGood, Content, Rotated;
      DroppingFrontIsSuffix([], Retained(slots));
      var flushed := Try();
      if !flushed {
        return RotationFailed;
      }
      isOpen := false;
      var inspected := Try();
      if !inspected {
        return RotationFailed;
      }
      ghost var before := slots;
      var oldest := |slots| - 1;
      var removed := |Content(slots[oldest])|;
      var ok := Try();
      if !ok {
        return RotationFailed;
      }
      slots := slots[oldest := None];
      OldestRemoved(before);
      MovedFilesGood(before, slots, limits.fileBytes, torn);
      ok := MoveUp(before);
      if ok {
        ok := Try();
      }
      if !ok {
        return RotationFailed;
      }
      StartActive(before);
      result := Removed(removed);
    }

    method StartActive(ghost before: Slots)
      requires Valid() && before != [] && slots == [None] + before[..|before| - 1]
      requires FilesGood(before, limits.fileBytes, torn)
      modifies this`slots, this`isOpen, this`fileBytes
      ensures Valid() && isOpen && slots == Rotated(before) && fileBytes == 0
    {
      hide FilesGood;
      slots := slots[0 := Some([])];
      assert slots == Rotated(before);
      MovedFilesGood(before, slots, limits.fileBytes, torn);
      isOpen, fileBytes := true, 0;
    }

    /** Everything that is left goes up by one; synchronizing the directory may fail afterwards. */
    method MoveUp(ghost before: Slots) returns (ok: bool)
      requires Valid() && !isOpen && |before| == |slots| && slots == before[|before| - 1 := None]
      requires FilesGood(before, limits.fileBytes, torn)
      modifies this`slots, this`tried
      ensures Valid() && !isOpen && IsSuffix(Retained(before), Retained(slots))
      ensures old(tried) <= tried && (ok <==> AllWell(old(tried)))
      ensures ok ==> slots == [None] + before[..|before| - 1]
    {
      hide Retained, IsSuffix, FilesGood, Renamed;
      if |slots| == 1 {
        OldestRemoved(before);
        assert slots == [None] + before[..0];
        ok := Try();
        return;
      }
      ghost var cleared := slots;
      ok := ShiftArchives();
      ghost var i :| 0 <= i && i + 1 < |cleared| && slots == MovedUpTo(cleared, i);
      ShiftedAfterRemoval(before, i);
      MovedFilesGood(before, slots, limits.fileBytes, torn);
      if ok {
        ok := Try();
      }
      if ok {
        LastRename(before);
        slots := Renamed(slots, 0);
        AllMovedUp(before);
        MovedFilesGood(before, slots, limits.fileBytes, torn);
        ok := Try();
      }
    }

    /** Append to the active file; a failed write is taken back, unless that fails too. */
    method WriteUtf8Chunk(bytes: Bytes) returns (result: Write, ghost left: Bytes)
      requires Valid() && isOpen && !torn && Utf8.Valid(bytes) && fileBytes + |bytes| <= limits.fileBytes
      modifies this`slots, this`fileBytes, this`torn, this`tried
      ensures Valid() && torn == result.Torn? && |slots| == |old(slots)|
      ensures old(tried) <= tried && (result.Written? <==> AllWell(old(tried)))
      ensures result.Written? ==>
                slots == old(slots)[0 := Some(old(slots)[0].value + bytes)] && fileBytes == old(fileBytes) + |bytes|
      ensures result.NotWritten? ==> slots == old(slots) && fileBytes == old(fileBytes)
      ensures result.Torn? ==>
                && 0 < |left| < |bytes| && left == bytes[..|left|]
                && slots == old(slots)[0 := Some(old(slots)[0].value + left)]
    {
      ghost var active := slots[0].value;
      left := [];
      var written := 0;
      assert active + bytes[..0] == active;
      while written < |bytes|
        invariant 0 <= written <= |bytes| && slots == old(slots)[0 := Some(active + bytes[..written])]
        invariant fileBytes == old(fileBytes) && !torn && isOpen
        invariant old(tried) <= tried && AllWell(old(tried))
      {
        var accepted := Try();
        if !accepted {
          left := bytes[..written];
          result := RollBack(old(slots), bytes, written);
          return;
        }
        var count: nat :| 1 <= count <= |bytes| - written;
        ghost var piece := bytes[written..written + count];
        assert active + bytes[..written + count] == active + bytes[..written] + piece;
        slots := slots[0 := Some(slots[0].value + bytes[written..written + count])];
        written := written + count;
      }
      assert bytes[..written] == bytes;
      ValidAppend(active, bytes);
      fileBytes := fileBytes + |bytes|;
      result, left := Written, [];
    }

    method RollBack(ghost before: Slots, bytes: Bytes, written: nat) returns (result: Write)
      requires ValidLimits(limits) && isOpen && !torn && |before| == limits.filesPerStream
      requires FilesFit(before, limits.fileBytes) && FilesValid(before)
      requires before[0].Some? && fileBytes == |before[0].value|
      requires written < |bytes| && fileBytes + |bytes| <= limits.fileBytes
      requires slots == before[0 := Some(before[0].value + bytes[..written])]
      modifies this`slots, this`fileBytes, this`torn, this`tried
      ensures Valid() && torn == result.Torn? && !result.Written? && old(tried) <= tried
      ensures result.NotWritten? ==> slots == before && fileBytes == old(fileBytes)
      ensures result.Torn? ==> written > 0 && slots == old(slots)
    {
      if written == 0 {
        assert before[0].value + bytes[..0] == before[0].value;
        return NotWritten;
      }
      var truncated := Try();
      if !truncated {
        fileBytes := fileBytes + written;
        torn := true;
        return Torn;
      }
      assert slots[0].value[..fileBytes] == before[0].value;
      slots := slots[0 := Some(slots[0].value[..fileBytes])];
      result := NotWritten;
    }
  }

  lemma OldestRemoved(slots: Slots)
    requires slots != []
    ensures Retained(slots[|slots| - 1 := None]) == Retained(slots[..|slots| - 1])
    ensures IsSuffix(Retained(slots), Retained(slots[|slots| - 1 := None]))
  {
    OldestFirst(slots);
    var cleared := slots[|slots| - 1 := None];
    OldestFirst(cleared);
    assert cleared[..|slots| - 1] == slots[..|slots| - 1];
  }

  lemma ShiftedAfterRemoval(before: Slots, index: nat)
    requires index + 1 < |before|
    ensures var now := MovedUpTo(before[|before| - 1 := None], index);
            && now == MovedUpTo(before, index)
            && IsSuffix(Retained(before), Retained(now))
            && (forall i | 0 <= i < |now| :: now[i].None? || now[i] in before)
  {
    ShiftingKeepsSuffix(before, index);
    assert before[|before| - 1 := None][..index + 1] == before[..index + 1];
  }

  lemma LastRename(before: Slots)
    requires |before| >= 2
    ensures var cleared := before[|before| - 1 := None];
            |MovedUpTo(cleared, 0)| >= 2 && Renamed(MovedUpTo(cleared, 0), 0) == [None] + before[..|before| - 1]
  {
  }

  lemma AllMovedUp(before: Slots)
    requires before != []
    ensures var now := [None] + before[..|before| - 1];
            IsSuffix(Retained(before), Retained(now))
  {
    OldestFirst(before);
    assert ([None] + before[..|before| - 1])[1..] == before[..|before| - 1];
  }
}
