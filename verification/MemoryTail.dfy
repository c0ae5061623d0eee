/** The bounded in-memory tail of one log stream. */
module MemoryTail {
  import opened Utf8

  predicate IsSuffix(whole: seq<byte>, part: seq<byte>) {
    |part| <= |whole| && part == whole[|whole| - |part|..]
  }

  lemma SuffixOfText(stream: seq<byte>, text: seq<byte>, at: nat)
    requires at <= |text|
    ensures IsSuffix(stream + text, text[at..])
  {
  }

  lemma Kept(bytes: seq<byte>, evicted: nat, text: seq<byte>)
    requires evicted <= |bytes| && Utf8.Valid(bytes[evicted..]) && Utf8.Valid(text)
    ensures |bytes[evicted..] + text| == |bytes| - evicted + |text|
    ensures Utf8.Valid(bytes[evicted..] + text)
  {
    ValidAppend(bytes[evicted..], text);
  }

  lemma DropNothing(bytes: seq<byte>)
    ensures bytes[0..] == bytes && [] + bytes == bytes
  {
  }

  /** Dropping bytes from the front of a suffix and appending keeps it a suffix. */
  lemma SuffixGrows(stream: seq<byte>, bytes: seq<byte>, evicted: nat, text: seq<byte>)
    requires IsSuffix(stream, bytes) && evicted <= |bytes|
    ensures IsSuffix(stream + text, bytes[evicted..] + text)
  {
  }

  /** The first place from there on where a scalar starts. */
  predicate FirstBoundary(s: seq<byte>, from: nat, at: nat) {
    from <= at <= |s| && IsBoundary(s, at) && forall k | from <= k < at :: !IsBoundary(s, k)
  }

  /** As much of the end is kept as fits, without cutting a scalar. */
  predicate KeepsMost(whole: seq<byte>, kept: seq<byte>, capacity: nat) {
    && |kept| <= |whole| && kept == whole[|whole| - |kept|..]
    && (if |whole| <= capacity then kept == whole else FirstBoundary(whole, |whole| - capacity, |whole| - |kept|))
  }

  lemma BoundaryInFront(front: seq<byte>, text: seq<byte>, at: nat)
    requires at <= |front| && Utf8.Valid(text)
    ensures IsBoundary(front + text, at) <==> IsBoundary(front, at)
  {
  }

  lemma BoundaryInBack(front: seq<byte>, text: seq<byte>, at: nat)
    requires at <= |text| && Utf8.Valid(text)
    ensures IsBoundary(front + text, |front| + at) <==> IsBoundary(text, at)
  {
  }

  lemma EndKeepsMost(bytes: seq<byte>, text: seq<byte>, at: nat, capacity: nat)
    requires Utf8.Valid(text) && 0 < capacity <= |text| && FirstBoundary(text, |text| - capacity, at)
    ensures KeepsMost(bytes + text, text[at..], capacity)
  {
    hide IsBoundary, Utf8.Valid;
    var whole := bytes + text;
    assert text[at..] == whole[|bytes| + at..];
    if |whole| > capacity {
      BoundaryInBack(bytes, text, at);
      forall k | |whole| - capacity <= k < |bytes| + at ensures !IsBoundary(whole, k) {
        BoundaryInBack(bytes, text, k - |bytes|);
      }
    } else {
      NothingCut(text);
      assert bytes == [] && at == 0;
    }
  }

  lemma NothingCut(text: seq<byte>)
    ensures IsBoundary(text, 0)
  {
  }

  lemma EvictionKeepsMost(bytes: seq<byte>, text: seq<byte>, evicted: nat, capacity: nat)
    requires Utf8.Valid(text) && |text| < capacity && evicted <= |bytes|
    requires if |bytes| + |text| <= capacity then evicted == 0
             else FirstBoundary(bytes, |bytes| + |text| - capacity, evicted)
    ensures KeepsMost(bytes + text, bytes[evicted..] + text, capacity)
  {
    hide IsBoundary, Utf8.Valid;
    var whole := bytes + text;
    assert bytes[evicted..] + text == whole[evicted..];
    if |whole| > capacity {
      BoundaryInFront(bytes, text, evicted);
      forall k | |whole| - capacity <= k < evicted ensures !IsBoundary(whole, k) {
        BoundaryInFront(bytes, text, k);
      }
    }
  }

  /** What is left after an eviction, with the text behind it. */
  lemma AppendedIsSound(stream: seq<byte>, bytes: seq<byte>, evicted: nat, text: seq<byte>, capacity: nat)
    requires Utf8.Valid(stream) && Utf8.Valid(text) && IsSuffix(stream, bytes) && |text| < capacity
    requires evicted <= |bytes| && Utf8.Valid(bytes[evicted..])
    requires if |bytes| + |text| <= capacity then evicted == 0
             else FirstBoundary(bytes, |bytes| + |text| - capacity, evicted)
    ensures var kept := bytes[evicted..] + text;
            && |kept| == |bytes| - evicted + |text| && Utf8.Valid(kept) && Utf8.Valid(stream + text)
            && IsSuffix(stream + text, kept) && KeepsMost(bytes + text, kept, capacity)
  {
    hide Utf8.Valid, IsSuffix, IsBoundary, FirstBoundary, KeepsMost;
    ValidAppend(stream, text);
    SuffixGrows(stream, bytes, evicted, text);
    Kept(bytes, evicted, text);
    EvictionKeepsMost(bytes, text, evicted, capacity);
  }

  class BoundedByteTail {
    const capacity: nat
    var bytes: seq<byte>
    var firstByteOffset: nat
    /** Everything ever appended, and the offset of its first byte. */
    ghost var stream: seq<byte>
    ghost const start: nat

    ghost predicate Valid()
      reads this
    {
      && capacity > 0 && |bytes| <= capacity
      && Utf8.Valid(stream) && Utf8.Valid(bytes)
      && IsSuffix(stream, bytes)
      && firstByteOffset + |bytes| == start + |stream|
      && (firstByteOffset > start ==> |bytes| + 3 >= capacity)
    }

    constructor (capacity: nat, firstByteOffset: nat)
      requires capacity > 0
      ensures Valid() && stream == [] && bytes == [] && start == firstByteOffset && this.capacity == capacity
      ensures this.firstByteOffset == firstByteOffset
    {
      this.capacity, this.firstByteOffset := capacity, firstByteOffset;
      bytes, stream, start := [], [], firstByteOffset;
    }

    /** Whole scalars are evicted from the front until the new text fits. */
    method AppendUtf8(text: seq<byte>, firstInputOffset: nat)
      requires Valid() && Utf8.Valid(text) && firstInputOffset == start + |stream|
      modifies this
      ensures Valid() && stream == old(stream) + text
      ensures KeepsMost(old(bytes) + text, bytes, capacity)
    {
      hide Valid, KeepsMost;
      if |text| >= capacity {
        KeepEndOf(text, firstInputOffset);
      } else {
        EvictAndAppend(text, firstInputOffset);
      }
    }

    /** Text as long as the buffer replaces everything. */
    method KeepEndOf(text: seq<byte>, firstInputOffset: nat)
      requires Valid() && Utf8.Valid(text) && firstInputOffset == start + |stream| && |text| >= capacity
      modifies this
      ensures Valid() && stream == old(stream) + text
      ensures KeepsMost(old(bytes) + text, bytes, capacity)
    {
      hide Utf8.Valid, IsSuffix, IsBoundary, FirstBoundary, KeepsMost;
      var retainedStart := SkipContinuation(text, |text| - capacity);
      EndKeepsMost(bytes, text, retainedStart, capacity);
      ValidAppend(stream, text);
      SuffixOfText(stream, text, retainedStart);
      DropNothing(text);
      bytes := text[retainedStart..];
      firstByteOffset := firstInputOffset + retainedStart;
      stream := stream + text;
    }

    method EvictAndAppend(text: seq<byte>, firstInputOffset: nat)
      requires Valid() && Utf8.Valid(text) && firstInputOffset == start + |stream| && |text| < capacity
      modifies this
      ensures Valid() && stream == old(stream) + text
      ensures KeepsMost(old(bytes) + text, bytes, capacity)
    {
      hide Utf8.Valid, IsSuffix, IsBoundary, FirstBoundary, KeepsMost;
      var evicted := Evict(text, firstInputOffset);
      AppendedIsSound(stream, bytes, evicted, text, capacity);
      bytes := bytes[evicted..] + text;
      stream := stream + text;
    }

    /** How much has to go, and where the rest starts. */
    method Evict(text: seq<byte>, firstInputOffset: nat) returns (evicted: nat)
      requires Valid() && firstInputOffset == start + |stream| && |text| < capacity
      modifies this`firstByteOffset
      ensures evicted <= |bytes| && Utf8.Valid(bytes[evicted..]) && |bytes| - evicted + |text| <= capacity
      ensures firstByteOffset + (|bytes| - evicted) == start + |stream|
      ensures firstByteOffset > start ==> |bytes| - evicted + |text| + 3 >= capacity
      ensures if |bytes| + |text| <= capacity then evicted == 0
              else FirstBoundary(bytes, |bytes| + |text| - capacity, evicted)
    {
      hide Utf8.Valid, IsSuffix;
      DropNothing(bytes);
      evicted := 0;
      if |bytes| + |text| > capacity {
        evicted := SkipContinuation(bytes, |bytes| + |text| - capacity);
        firstByteOffset := firstByteOffset + evicted;
      } else if bytes == [] {
        firstByteOffset := firstInputOffset;
      }
    }

    static method SkipContinuation(text: seq<byte>, at: nat) returns (r: nat)
      requires Utf8.Valid(text) && at <= |text|
      ensures at <= r <= |text| && r <= at + 3 && Utf8.Valid(text[r..])
      ensures FirstBoundary(text, at, r)
    {
      hide Utf8.Valid;
      CeilIsNear(text, at);
      ghost var goal := CeilBoundary(text, at);
      r := at;
      while r < |text| && Continuation(text[r])
        invariant at <= r <= |text|
        invariant r == at || CeilBoundary(text, r) == goal
        invariant r < |text| ==> CeilBoundary(text, r) == goal
        invariant forall k | at <= k < r :: !IsBoundary(text, k)
      {
        NotAtFront(text, r);
        r := r + 1;
      }
      BoundaryCuts(text, r);
    }
  }

  lemma NotAtFront(text: seq<byte>, r: nat)
    requires Utf8.Valid(text) && r < |text| && Continuation(text[r])
    ensures r > 0 && !IsBoundary(text, r)
  {
  }
}
