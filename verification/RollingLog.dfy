/** One log stream: rolling files, an absolute-offset window over them, and the in-memory tail. */
module RollingLog {
  import opened DiscoveryDomain
  import opened Utf8
  import opened MemoryTail
  import opened RollingFiles
  import opened RollingWindow

  const JS_MAX_SAFE_INTEGER: nat := 9_007_199_254_740_991

  datatype AppendError = Unavailable | LimitExceeded | Disk

  datatype Append =
    | Appended(firstByteOffset: nat, nextByteOffset: nat)
    | Refused(error: AppendError, acceptedInputBytes: nat)

  class LogStreamCollector {
    const limits: Limits
    const file: RollingFile
    const memory: BoundedByteTail
    var nextByteOffset: nat
    var unavailable: bool
    var firstAvailable: nat
    var end: nat
    var diskError: bool
    /** Everything in this generation of offsets, and how often it has rotated. */
    ghost var stream: Bytes
    ghost var rotations: nat
    /** Where the window started before a torn write, and the bytes it left behind. */
    ghost var tornFrom: nat
    ghost var tornBytes: Bytes

    ghost predicate Objects()
      reads this, file`slots, file`isOpen, file`fileBytes, file`torn, memory
    {
      && file.Valid() && memory.Valid() && file.limits == limits && memory.capacity == limits.memoryBytes
      && memory.start + |memory.stream| == nextByteOffset
    }

    ghost predicate Valid()
      reads this, file`slots, file`isOpen, file`fileBytes, file`torn, memory
    {
      && Objects()
      && end == nextByteOffset == |stream| && firstAvailable <= end && Utf8.Valid(stream)
      && IsSuffix(stream, memory.stream)
      && (!file.torn ==> IsSuffix(stream, Retained(file.slots)))
      && (file.torn ==>
            && HoldsTorn(file.slots, stream, tornFrom, tornBytes)
            && (firstAvailable == tornFrom || firstAvailable == Reconciled(tornFrom, |tornBytes|)))
      && (!unavailable ==>
            && file.isOpen && !file.torn
            && HoldsWindow(file.slots, stream, firstAvailable)
            && ArchivesFull(file.slots, rotations, limits.fileBytes))
    }

    /** What earlier generations left is mapped to the offsets from 0. */
    constructor (limits: Limits, found: Slots, answers: nat -> bool)
      requires ValidLimits(limits) && |found| == limits.filesPerStream
      requires FilesFit(found, limits.fileBytes) && FilesValid(found)
      requires |Retained(found)| <= JS_MAX_SAFE_INTEGER
      ensures Valid() && !unavailable && this.limits == limits
      ensures Files() == Window(found[0 := Some(Content(found[0]))], 0)
      ensures stream == Retained(found) && firstAvailable == 0 && end == |stream| && memory.stream == []
      ensures fresh(file) && fresh(memory) && file.answers == answers && file.tried == 0
    {
      hide Utf8.Valid, Retained, FilesGood, FilesFit, FilesValid, Content;
      RetainedIsValid(found);
      this.limits := limits;
      file := new RollingFile(limits, found, answers);
      memory := new BoundedByteTail(limits.memoryBytes, |Retained(found)|);
      nextByteOffset, end, firstAvailable := |Retained(found)|, |Retained(found)|, 0;
      unavailable, diskError := false, false;
      stream, rotations := Retained(found), 0;
      tornFrom, tornBytes := 0, [];
    }

    ghost function Files(): Window
      reads this`firstAvailable, file`slots
    {
      Window(file.slots, firstAvailable)
    }

    /** After a failure the window starts where the files that are left start, if they can be listed. */
    method ReconcileRetainedWindow() returns (listed: bool)
      requires Valid() && unavailable && (file.torn ==> firstAvailable == tornFrom)
      modifies this`firstAvailable, file`tried
      ensures Valid() && old(file.tried) <= file.tried
      ensures !file.torn && listed ==> HoldsWindow(file.slots, stream, firstAvailable)
      ensures file.torn && listed ==> firstAvailable == Reconciled(tornFrom, |tornBytes|)
      ensures !listed ==> firstAvailable == old(firstAvailable)
    {
      hide Utf8.Valid, ArchivesFull, RollingFile.Valid, BoundedByteTail.Valid;
      listed := file.Try();
      if file.torn {
        TornWindowSlides(file.slots, stream, tornFrom, tornBytes);
      } else {
        SuffixIsWindow(file.slots, stream);
      }
      if listed && |Retained(file.slots)| <= end {
        firstAvailable := end - |Retained(file.slots)|;
      }
    }

    /** From now on the stream is unavailable, and the window starts where the files do, if they can be listed. */
    method Fail() returns (listed: bool)
      requires Objects() && end == nextByteOffset == |stream| && firstAvailable <= end && Utf8.Valid(stream)
      requires IsSuffix(stream, memory.stream) && (!file.torn ==> IsSuffix(stream, Retained(file.slots)))
      requires file.torn ==> firstAvailable == tornFrom && HoldsTorn(file.slots, stream, tornFrom, tornBytes)
      modifies this`firstAvailable, this`unavailable, this`diskError, file`tried
      ensures Valid() && unavailable && old(file.tried) <= file.tried
      ensures listed && !file.torn ==> HoldsWindow(file.slots, stream, firstAvailable)
      ensures file.torn && listed ==> firstAvailable == Reconciled(tornFrom, |tornBytes|)
      ensures !listed ==> firstAvailable == old(firstAvailable)
    {
      hide Utf8.Valid, Retained, HoldsWindow, HoldsTorn, IsSuffix, ArchivesFull, RollingFile.Valid,
        BoundedByteTail.Valid, Reconciled;
      unavailable, diskError := true, true;
      listed := ReconcileRetainedWindow();
    }

    /** Make room for at least one scalar. */
    method MakeRoom() returns (ok: bool)
      requires Valid() && !unavailable && file.fileBytes + 4 > limits.fileBytes
      modifies this`firstAvailable, this`unavailable, this`diskError, this`rotations, file
      ensures Valid() && ok == !unavailable && stream == old(stream) && !file.torn && file.slots != []
      ensures old(file.tried) <= file.tried && (ok <==> file.AllWell(old(file.tried)))
      ensures !ok ==> HoldsWindow(file.slots, stream, firstAvailable) || firstAvailable == old(firstAvailable)
      ensures ok ==> file.fileBytes == 0 && file.slots == Rotated(old(file.slots))
      ensures ok ==> firstAvailable == old(firstAvailable) + |Content(old(file.slots)[|old(file.slots)| - 1])|
    {
      hide Utf8.Valid, Retained, IsSuffix, HoldsWindow, ArchivesFull, FilesGood, BoundedByteTail.Valid;
      ghost var before := file.slots;
      WindowIsSuffix(file.slots, stream, firstAvailable);
      WindowAfterRotation(file.slots, stream, firstAvailable);
      ArchivesAfterRotation(file.slots, rotations, limits.fileBytes);
      var result := file.Rotate();
      if result.Removed? {
        firstAvailable := firstAvailable + result.bytes;
        rotations := rotations + 1;
        WindowIsSuffix(file.slots, stream, firstAvailable);
        return true;
      }
      SuffixOfSuffix(stream, Retained(before), Retained(file.slots));
      var listed := Fail();
      ok := false;
    }

    lemma ActiveFileIsOpen()
      requires Objects() && file.isOpen
      ensures file.slots != [] && file.slots[0].Some? && file.limits == limits
      ensures MIN_UTF8_BOUNDARY_BYTES <= limits.fileBytes && file.fileBytes <= limits.fileBytes
      ensures file.fileBytes == |Content(file.slots[0])|
      ensures Available(limits.fileBytes, file.slots) == limits.fileBytes - file.fileBytes
    {
      hide Utf8.Valid, FilesValid, BoundedByteTail.Valid;
      assert |Content(file.slots[0])| <= limits.fileBytes;
    }

    /** What reached the file reaches the tail and the offsets. */
    method Publish(chunk: Bytes)
      requires Objects() && !unavailable && Utf8.Valid(chunk) && Utf8.Valid(stream)
      requires end == nextByteOffset == |stream| && firstAvailable <= end && IsSuffix(stream, memory.stream)
      requires file.isOpen && !file.torn && IsSuffix(stream + chunk, Retained(file.slots))
      requires HoldsWindow(file.slots, stream + chunk, firstAvailable)
      requires ArchivesFull(file.slots, rotations, limits.fileBytes)
      modifies this`nextByteOffset, this`end, this`stream, memory
      ensures Valid() && stream == old(stream) + chunk
    {
      hide Utf8.Valid, Retained, HoldsWindow, IsSuffix, ArchivesFull, RollingFile.Valid, BoundedByteTail.Valid;
      ValidAppend(stream, chunk);
      TailGrows(stream, memory.stream, chunk);
      memory.AppendUtf8(chunk, nextByteOffset);
      stream := stream + chunk;
      nextByteOffset := nextByteOffset + |chunk|;
      end := nextByteOffset;
    }

    /**
     One chunk reaches the file before it reaches the tail. After a torn write the lengths agree, so that reads
     are answered, exactly if the files could be listed and at least as many bytes had been rotated away as were
     torn; what is read is then right exactly if the stream with the torn bytes repeats itself.
     */
    method WriteChunk(chunk: Bytes) returns (ok: bool, listed: bool)
      requires Valid() && !unavailable && Utf8.Valid(chunk) && file.fileBytes + |chunk| <= limits.fileBytes
      modifies this`nextByteOffset, this`end, this`firstAvailable, this`unavailable, this`diskError, this`stream,
        this`tornFrom, this`tornBytes, file, memory
      ensures Valid() && ok == !unavailable && file.slots != []
      ensures old(file.tried) <= file.tried && (ok <==> file.AllWell(old(file.tried)))
      ensures stream == if ok then old(stream) + chunk else old(stream)
      ensures ok ==> Files() == Window(Extended(old(file.slots), chunk), old(firstAvailable))
      ensures !ok && !file.torn && listed ==> HoldsWindow(file.slots, stream, firstAvailable)
      ensures !ok && !listed ==> firstAvailable == old(firstAvailable)
      ensures file.torn ==>
                && !ok && tornFrom == old(firstAvailable) && IsTornFrom(tornBytes, chunk)
                && file.slots == Extended(old(file.slots), tornBytes)
                && (listed ==> firstAvailable == Reconciled(old(firstAvailable), |tornBytes|))
                && (|Retained(file.slots)| == end - firstAvailable
                    <==> listed && |tornBytes| <= old(firstAvailable))
                && (listed && |tornBytes| <= old(firstAvailable) ==>
                      (HoldsWindow(file.slots, stream, firstAvailable)
                       <==> Repeats(stream + tornBytes, firstAvailable, |tornBytes|)))
    {
      hide Utf8.Valid, Retained, HoldsWindow, HoldsTorn, IsSuffix, ArchivesFull, RollingFile.Valid,
        BoundedByteTail.Valid, Repeats;
      ActiveFileIsOpen();
      WindowIsSuffix(file.slots, stream, firstAvailable);
      ChunkKeepsWindow(file.slots, stream, firstAvailable, chunk, rotations, limits.fileBytes);
      ghost var before := file.slots;
      var result;
      ghost var torn;
      result, torn := file.WriteUtf8Chunk(chunk);
      ok, listed := result.Written?, false;
      if ok {
        Publish(chunk);
        return;
      }
      if result.Torn? {
        tornFrom, tornBytes := firstAvailable, torn;
        TornWriteHolds(before, stream, tornFrom, torn);
        TornWindowSlides(file.slots, stream, tornFrom, torn);
      }
      listed := Fail();
    }

    /**
     One pass writes as many scalars as fit, at least one, rotating first if none fits; or the disk fails. If
     a write is torn, the window started where the pass had made room.
     */
    method AppendPass(remaining: Bytes) returns (accepted: nat)
      requires Valid() && !unavailable && Utf8.Valid(remaining) && remaining != []
      modifies this, file, memory
      ensures Valid() && accepted <= |remaining| && unavailable == (accepted == 0) && file.slots != []
      ensures old(file.tried) <= file.tried && (!unavailable <==> file.AllWell(old(file.tried)))
      ensures Utf8.Valid(remaining[accepted..]) && stream == old(stream) + remaining[..accepted]
      ensures !unavailable ==>
                && accepted == PassLength(limits.fileBytes, old(Files()), remaining)
                && Files() == AfterPass(limits.fileBytes, old(Files()), remaining)
      ensures file.torn ==>
                && tornFrom == RoomFor(limits.fileBytes, old(Files()), remaining).firstAvailable
                && IsTornFrom(tornBytes, remaining[..PassLength(limits.fileBytes, old(Files()), remaining)])
      ensures old(firstAvailable) <= firstAvailable || unavailable
    {
      hide Utf8.Valid, RollingFile.Valid, BoundedByteTail.Valid, IsSuffix, HoldsWindow, HoldsTorn, ArchivesFull,
        Retained, Rotated, Content, Reconciled, Repeats, Available, IsTornFrom;
      ValidHead(remaining);
      assert remaining[0..] == remaining && stream + remaining[..0] == stream;
      var scalar := ScalarLength(remaining);
      ActiveFileIsOpen();
      if limits.fileBytes - file.fileBytes < scalar {
        var ok := MakeRoom();
        if !ok {
          return 0;
        }
        ActiveFileIsOpen();
      }
      var chunk := NextChunk(remaining, limits.fileBytes - file.fileBytes);
      var written, listed := WriteChunk(chunk);
      accepted := if written then |chunk| else 0;
    }

    lemma AcceptMore(before: Bytes, text: Bytes, accepted: nat, more: nat)
      requires accepted + more <= |text|
      ensures before + text[..accepted] + text[accepted..][..more] == before + text[..accepted + more]
      ensures text[accepted..][more..] == text[accepted + more..]
    {
    }

    /** Pass by pass until everything is accepted or the disk fails. */
    method AppendUnderGate(text: Bytes) returns (accepted: nat)
      requires Valid() && !unavailable && Utf8.Valid(text)
      modifies this, file, memory
      ensures Valid() && accepted <= |text| && stream == old(stream) + text[..accepted] && file.slots != []
      ensures unavailable <==> accepted < |text|
      ensures old(file.tried) <= file.tried && (!unavailable <==> file.AllWell(old(file.tried)))
      ensures !unavailable ==> Files() == StateAfter(limits.fileBytes, old(Files()), text, |text|)
      ensures file.torn ==>
                TornAt(limits.fileBytes, old(Files()), text, accepted, tornFrom, tornBytes)
      ensures old(firstAvailable) <= firstAvailable || unavailable
    {
      hide Utf8.Valid, Valid, AfterPass, RoomFor, PassLength, IsTornFrom, StateAfter;
      accepted := 0;
      assert old(stream) + text[..0] == old(stream) && text[0..] == text;
      StillWhole();
      NothingAppended(limits.fileBytes, Files(), text);
      ghost var before := Files();
      while accepted < |text| && !unavailable
        invariant accepted <= |text| && Valid() && Utf8.Valid(text[accepted..]) && file.slots != []
        invariant unavailable ==> accepted < |text|
        invariant old(file.tried) <= file.tried && (!unavailable <==> file.AllWell(old(file.tried)))
        invariant stream == old(stream) + text[..accepted]
        invariant !unavailable ==> !file.torn && Reaches(limits.fileBytes, before, text, accepted, Files())
        invariant file.torn ==> TornAt(limits.fileBytes, before, text, accepted, tornFrom, tornBytes)
        invariant old(firstAvailable) <= firstAvailable || unavailable
        decreases |text| - accepted, !unavailable
      {
        ghost var between := Files();
        var more := AppendPass(text[accepted..]);
        AcceptMore(old(stream), text, accepted, more);
        if more > 0 {
          OnePassFurther(limits.fileBytes, before, text, accepted, between);
          StillWhole();
        } else {
          ReachedState(limits.fileBytes, before, text, accepted, between);
        }
        accepted := accepted + more;
      }
      if !unavailable {
        ReachedState(limits.fileBytes, before, text, accepted, Files());
      }
    }

    lemma StillWhole()
      requires Valid()
      ensures file.slots != [] && (!unavailable ==> !file.torn)
    {
    }

    /** The longest run of whole scalars that fits, never empty. */
    static method NextChunk(remaining: Bytes, available: nat) returns (chunk: Bytes)
      requires Utf8.Valid(remaining) && remaining != [] && 0 < ScalarLength(remaining) <= available
      ensures 0 < |chunk| <= available && |chunk| <= |remaining| && chunk == remaining[..|chunk|]
      ensures Utf8.Valid(chunk) && Utf8.Valid(remaining[|chunk|..])
      ensures |chunk| == FloorBoundary(remaining, if |remaining| < available then |remaining| else available)
    {
      hide Utf8.Valid;
      var limit := if |remaining| < available then |remaining| else available;
      FloorPasses(remaining, limit);
      ghost var goal := FloorBoundary(remaining, limit);
      var length := limit;
      while length > 0 && !IsBoundary(remaining, length)
        invariant 0 <= length <= limit && FloorBoundary(remaining, length) == goal
      {
        length := length - 1;
      }
      BoundaryCuts(remaining, length);
      chunk := remaining[..length];
    }

    /**
     Append filtered text. Afterwards the window ends where the stream ends, whatever had to be rotated
     away; a stream that failed once stays unavailable.
     */
    method AppendUtf8(text: Bytes) returns (result: Append)
      requires Valid() && Utf8.Valid(text)
      modifies this, file, memory
      ensures Valid()
      ensures result.Appended? <==>
                && !old(unavailable) && old(nextByteOffset) + |text| <= JS_MAX_SAFE_INTEGER
                && file.AllWell(old(file.tried))
      ensures old(unavailable) ==> result == Refused(Unavailable, 0) && unavailable
      ensures !old(unavailable) && old(nextByteOffset) + |text| > JS_MAX_SAFE_INTEGER ==>
                result == Refused(LimitExceeded, 0)
      ensures result.Appended? ==>
                && stream == old(stream) + text && !unavailable
                && result.firstByteOffset == |old(stream)| && result.nextByteOffset == |stream|
                && HoldsWindow(file.slots, stream, firstAvailable) && old(firstAvailable) <= firstAvailable
                && Files() == StateAfter(limits.fileBytes, old(Files()), text, |text|)
      ensures result.Refused? ==>
                && result.acceptedInputBytes <= |text|
                && stream == old(stream) + text[..result.acceptedInputBytes]
                && (result.error == Disk <==> unavailable && !old(unavailable))
                && (result.error == Disk ==> result.acceptedInputBytes < |text|)
      ensures !old(unavailable) && file.torn ==>
                TornAt(limits.fileBytes, old(Files()), text, |stream| - |old(stream)|, tornFrom, tornBytes)
    {
      hide Utf8.Valid, HoldsWindow;
      assert stream + text[..0] == stream;
      StillWhole();
      if unavailable {
        return Refused(Unavailable, 0);
      }
      if nextByteOffset + |text| > JS_MAX_SAFE_INTEGER {
        return Refused(LimitExceeded, 0);
      }
      var firstByteOffset := nextByteOffset;
      var accepted := AppendUnderGate(text);
      if unavailable {
        return Refused(Disk, accepted);
      }
      assert text[..accepted] == text;
      result := Appended(firstByteOffset, nextByteOffset);
    }

    method Flush() returns (ok: bool)
      requires Valid()
      modifies this`unavailable, this`diskError, this`firstAvailable, file`tried
      ensures Valid() && ok == !unavailable && (old(unavailable) ==> unavailable)
      ensures ok <==> !old(unavailable) && file.AllWell(old(file.tried))
      ensures ok ==> firstAvailable == old(firstAvailable)
    {
      if unavailable {
        return false;
      }
      ok := file.Try();
      if !ok {
        WindowIsSuffix(file.slots, stream, firstAvailable);
        var listed := Fail();
      }
    }
  }

  /**
   Three appends to one file of four bytes. If the last write is torn and the files can be listed, the stream is
   unavailable, but the lengths agree, so that "abc" is shown where "zab" was written.
   */
  method TornAppend(answers: nat -> bool) returns (c: LogStreamCollector)
    ensures fresh(c) && c.Valid()
    ensures c.file.torn && c.stream == TEXT_WXYZ + TEXT_AB && c.firstAvailable != c.tornFrom ==>
              && c.firstAvailable == 3 && |Retained(c.file.slots)| == c.end - c.firstAvailable
              && Retained(c.file.slots) == [0x61, 0x62, 0x63]
              && !HoldsWindow(c.file.slots, c.stream, c.firstAvailable)
  {
    hide Utf8.Valid, StateAfter, TornAt, HoldsTorn, HoldsWindow, IsSuffix, ArchivesFull, RollingFile.Valid,
      BoundedByteTail.Valid, Reconciled;
    AppendedExample();
    ExampleTexts();
    c := new LogStreamCollector(Limits(4, 1, 4), [None], answers);
    assert c.Files() == Window([Some([])], 0);
    var first := c.AppendUtf8(TEXT_WXYZ);
    if first.Refused? {
      assert |c.stream| <= 4;
      return;
    }
    assert c.Files() == Window([Some(TEXT_WXYZ)], 0);
    var second := c.AppendUtf8(TEXT_AB);
    if second.Refused? {
      c.StillWhole();
      assert c.file.torn ==> |c.stream| < 6;
      return;
    }
    assert c.Files() == Window([Some(TEXT_AB)], 4);
    var third := c.AppendUtf8(TEXT_CD);
    if c.file.torn && c.stream == TEXT_WXYZ + TEXT_AB {
      TornExample(c.file.slots, c.tornFrom, c.tornBytes);
    }
  }

  lemma ExampleTexts()
    ensures Utf8.Valid(TEXT_WXYZ) && Utf8.Valid(TEXT_AB) && Utf8.Valid(TEXT_CD)
    ensures FilesFit([None], 4) && FilesValid([None]) && Retained([None]) == []
  {
    assert Utf8.Valid(TEXT_WXYZ[1..]) && Utf8.Valid(TEXT_AB[1..]) && Utf8.Valid(TEXT_CD[1..]);
  }
}
