/** What redaction means: a greedy, leftmost-longest scan of the whole text. */
module Greedy {
  import opened Utf8

  type Bytes = seq<byte>

  /** "[REDACTED]" */
  const MARKER: seq<byte> := [0x5B, 0x52, 0x45, 0x44, 0x41, 0x43, 0x54, 0x45, 0x44, 0x5D]

  /** Patterns are non-empty text. */
  ghost predicate ValidPatterns(patterns: set<Bytes>) {
    forall p | p in patterns :: p != [] && Valid(p)
  }

  ghost predicate BoundedBy(patterns: set<Bytes>, maximum: nat) {
    forall p | p in patterns :: |p| <= maximum
  }

  predicate MatchesHere(patterns: set<Bytes>, text: Bytes, length: nat) {
    length <= |text| && text[..length] in patterns
  }

  /** The length of the longest pattern that `text` starts with, or 0. */
  function LongestUpTo(patterns: set<Bytes>, text: Bytes, length: nat): (r: nat)
    requires length <= |text|
    ensures r <= length
    ensures r > 0 ==> MatchesHere(patterns, text, r)
    ensures forall n | r < n <= length :: !MatchesHere(patterns, text, n)
  {
    if length == 0 then 0
    else if MatchesHere(patterns, text, length) then length
    else LongestUpTo(patterns, text, length - 1)
  }

  function Longest(patterns: set<Bytes>, text: Bytes): nat {
    LongestUpTo(patterns, text, |text|)
  }

  ghost predicate IsLongest(patterns: set<Bytes>, text: Bytes, length: nat) {
    && length <= |text|
    && (length > 0 ==> MatchesHere(patterns, text, length))
    && (forall n | length < n <= |text| :: !MatchesHere(patterns, text, n))
  }

  lemma LongestIsUnique(patterns: set<Bytes>, text: Bytes, length: nat)
    requires IsLongest(patterns, text, length)
    ensures length == Longest(patterns, text)
  {
  }

  /** The bytes one step of the scan consumes. */
  function StepLength(patterns: set<Bytes>, text: Bytes): (n: nat)
    ensures n <= |text|
  {
    if Longest(patterns, text) > 0 then Longest(patterns, text) else ScalarLength(text)
  }

  function StepOutput(patterns: set<Bytes>, text: Bytes): Bytes {
    if Longest(patterns, text) > 0 then MARKER else text[..ScalarLength(text)]
  }

  /** The whole text, redacted. */
  function Redacted(patterns: set<Bytes>, text: Bytes): Bytes
    decreases |text|
  {
    if StepLength(patterns, text) == 0 then []
    else StepOutput(patterns, text) + Redacted(patterns, text[StepLength(patterns, text)..])
  }

  /** Does the scan of the whole text replace anything? */
  predicate Hits(patterns: set<Bytes>, text: Bytes)
    decreases |text|
  {
    StepLength(patterns, text) > 0
    && (Longest(patterns, text) > 0 || Hits(patterns, text[StepLength(patterns, text)..]))
  }

  /** Every step stays on scalar boundaries and makes progress. */
  lemma StepKeepsValid(patterns: set<Bytes>, text: Bytes)
    requires ValidPatterns(patterns) && Valid(text) && text != []
    ensures 0 < StepLength(patterns, text) <= |text|
    ensures Valid(text[..StepLength(patterns, text)]) && Valid(text[StepLength(patterns, text)..])
  {
    hide Valid, ScalarLength, Longest;
    if Longest(patterns, text) > 0 {
      MatchKeepsValid(patterns, text);
    } else {
      FirstScalar(text);
    }
  }

  lemma MatchKeepsValid(patterns: set<Bytes>, text: Bytes)
    requires ValidPatterns(patterns) && Valid(text) && Longest(patterns, text) > 0
    ensures Valid(text[..Longest(patterns, text)]) && Valid(text[Longest(patterns, text)..])
  {
    hide Valid;
    var n := Longest(patterns, text);
    assert MatchesHere(patterns, text, n);
    assert text == text[..n] + text[n..];
    ValidRemainder(text[..n], text[n..]);
  }

  lemma LongestIsLocal(patterns: set<Bytes>, maximum: nat, text: Bytes, rest: Bytes)
    requires BoundedBy(patterns, maximum) && maximum <= |text|
    ensures Longest(patterns, text + rest) == Longest(patterns, text)
    ensures (text + rest)[..Longest(patterns, text)] == text[..Longest(patterns, text)]
  {
    var n, whole := Longest(patterns, text), text + rest;
    assert whole[..n] == text[..n];
    forall k | n < k <= |whole| ensures !MatchesHere(patterns, whole, k) {
      if k <= |text| {
        assert whole[..k] == text[..k];
        assert MatchesHere(patterns, whole, k) == MatchesHere(patterns, text, k);
      } else {
        assert |whole[..k]| == k > maximum;
      }
    }
    LongestIsUnique(patterns, whole, n);
  }

  /** With a whole pattern's length in view, what follows does not change a step. */
  lemma StepIsLocal(patterns: set<Bytes>, maximum: nat, text: Bytes, rest: Bytes)
    requires BoundedBy(patterns, maximum) && maximum <= |text| && Valid(text) && text != []
    ensures StepLength(patterns, text + rest) == StepLength(patterns, text)
    ensures StepOutput(patterns, text + rest) == StepOutput(patterns, text)
    ensures Longest(patterns, text + rest) == Longest(patterns, text)
  {
    hide Valid, ScalarLength, Longest;
    LongestIsLocal(patterns, maximum, text, rest);
    FirstScalar(text);
    ScalarIsLocal(text, rest);
    assert (text + rest)[..ScalarLength(text)] == text[..ScalarLength(text)];
  }

  lemma RedactedStep(patterns: set<Bytes>, text: Bytes)
    requires StepLength(patterns, text) > 0
    ensures Redacted(patterns, text)
            == StepOutput(patterns, text) + Redacted(patterns, text[StepLength(patterns, text)..])
    ensures Hits(patterns, text)
            == (Longest(patterns, text) > 0 || Hits(patterns, text[StepLength(patterns, text)..]))
  {
  }

  /** One step of the scan, with more text to come. */
  lemma StepWithRest(patterns: set<Bytes>, maximum: nat, text: Bytes, rest: Bytes)
    requires ValidPatterns(patterns) && BoundedBy(patterns, maximum)
    requires maximum <= |text| && Valid(text) && text != []
    ensures var n := StepLength(patterns, text);
            && Redacted(patterns, text + rest) == StepOutput(patterns, text) + Redacted(patterns, text[n..] + rest)
            && Hits(patterns, text + rest) == (Longest(patterns, text) > 0 || Hits(patterns, text[n..] + rest))
  {
    hide StepLength, StepOutput, Redacted, Hits, Valid, Longest;
    StepKeepsValid(patterns, text);
    StepIsLocal(patterns, maximum, text, rest);
    RedactedStep(patterns, text + rest);
    DropPrefix(text, rest, StepLength(patterns, text));
  }

  // ----- Chunks -----

  /** What was emitted and what is still held back amount to the redaction of everything received. */
  ghost predicate Faithful(patterns: set<Bytes>, total: Bytes, output: Bytes, pending: Bytes) {
    forall rest | Valid(rest) :: output + Redacted(patterns, pending + rest) == Redacted(patterns, total + rest)
  }

  ghost predicate FaithfulHits(patterns: set<Bytes>, total: Bytes, applied: bool, pending: Bytes) {
    forall rest | Valid(rest) :: (applied || Hits(patterns, pending + rest)) == Hits(patterns, total + rest)
  }

  lemma FaithfulAppend(patterns: set<Bytes>, total: Bytes, output: Bytes, applied: bool, pending: Bytes, input: Bytes)
    requires Faithful(patterns, total, output, pending) && FaithfulHits(patterns, total, applied, pending)
    requires Valid(input)
    ensures Faithful(patterns, total + input, output, pending + input)
    ensures FaithfulHits(patterns, total + input, applied, pending + input)
  {
    hide Redacted, Hits, Valid;
    forall rest | Valid(rest)
      ensures output + Redacted(patterns, pending + input + rest) == Redacted(patterns, total + input + rest)
      ensures (applied || Hits(patterns, pending + input + rest)) == Hits(patterns, total + input + rest)
    {
      ValidAppend(input, rest);
      Regroup(pending, input, rest);
      Regroup(total, input, rest);
    }
  }

  /** Emitting one step while a whole pattern's length is in view keeps the account. */
  lemma FaithfulStep(patterns: set<Bytes>, maximum: nat, total: Bytes, output: Bytes, applied: bool, pending: Bytes)
    requires BoundedBy(patterns, maximum) && ValidPatterns(patterns) && Valid(pending) && pending != []
    requires maximum <= |pending|
    requires Faithful(patterns, total, output, pending) && FaithfulHits(patterns, total, applied, pending)
    ensures var n := StepLength(patterns, pending);
            && Faithful(patterns, total, output + StepOutput(patterns, pending), pending[n..])
            && FaithfulHits(patterns, total, applied || Longest(patterns, pending) > 0, pending[n..])
  {
    hide Redacted, Hits, Valid, StepLength, StepOutput, Longest;
    var n, emitted := StepLength(patterns, pending), StepOutput(patterns, pending);
    forall rest | Valid(rest)
      ensures output + emitted + Redacted(patterns, pending[n..] + rest) == Redacted(patterns, total + rest)
      ensures (applied || Longest(patterns, pending) > 0 || Hits(patterns, pending[n..] + rest))
              == Hits(patterns, total + rest)
    {
      StepWithRest(patterns, maximum, pending, rest);
      Regroup(output, emitted, Redacted(patterns, pending[n..] + rest));
    }
  }

  /** At the end of the stream nothing is to come. */
  ghost predicate FinallyFaithful(patterns: set<Bytes>, total: Bytes, output: Bytes, applied: bool, pending: Bytes) {
    && output + Redacted(patterns, pending) == Redacted(patterns, total)
    && (applied || Hits(patterns, pending)) == Hits(patterns, total)
  }

  lemma EndIsFaithful(patterns: set<Bytes>, total: Bytes, output: Bytes, applied: bool, pending: Bytes)
    requires Faithful(patterns, total, output, pending) && FaithfulHits(patterns, total, applied, pending)
    ensures FinallyFaithful(patterns, total, output, applied, pending)
  {
    hide Redacted, Hits;
    assert pending + [] == pending && total + [] == total;
    assert Valid([]);
  }

  lemma FinalStep(patterns: set<Bytes>, total: Bytes, output: Bytes, applied: bool, pending: Bytes)
    requires ValidPatterns(patterns) && Valid(pending) && pending != []
    requires FinallyFaithful(patterns, total, output, applied, pending)
    ensures FinallyFaithful(
              patterns, total, output + StepOutput(patterns, pending), applied || Longest(patterns, pending) > 0,
              pending[StepLength(patterns, pending)..])
  {
    hide Redacted, Hits, Valid, StepLength, StepOutput, Longest;
    StepKeepsValid(patterns, pending);
    RedactedStep(patterns, pending);
    Regroup(output, StepOutput(patterns, pending), Redacted(patterns, pending[StepLength(patterns, pending)..]));
  }

  lemma {:induction false} NothingToRedact(patterns: set<Bytes>, text: Bytes)
    requires patterns == {} && Valid(text)
    ensures Redacted(patterns, text) == text && !Hits(patterns, text)
    decreases |text|
  {
    if text != [] {
      var n := ScalarLength(text);
      ValidHead(text);
      NothingToRedact(patterns, text[n..]);
      assert Longest(patterns, text) == 0 && text == text[..n] + text[n..];
    }
  }

  // ----- What the scan replaces -----

  /** Is the byte at `at` replaced? */
  predicate ReplacedAt(patterns: set<Bytes>, text: Bytes, at: nat)
    decreases |text|
  {
    var n := StepLength(patterns, text);
    n > 0 && if at < n then Longest(patterns, text) > 0 else ReplacedAt(patterns, text[n..], at - n)
  }

  lemma ReplacedInStep(patterns: set<Bytes>, text: Bytes, at: nat)
    requires at < StepLength(patterns, text)
    ensures ReplacedAt(patterns, text, at) <==> Longest(patterns, text) > 0
  {
  }

  lemma ReplacedAfterStep(patterns: set<Bytes>, text: Bytes, at: nat)
    requires 0 < StepLength(patterns, text)
    ensures ReplacedAt(patterns, text, at + StepLength(patterns, text))
            <==> ReplacedAt(patterns, text[StepLength(patterns, text)..], at)
  {
  }

  /** A pattern does not start inside the first scalar, and not at the front unless something matches there. */
  lemma StartsAfterStep(patterns: set<Bytes>, text: Bytes, pattern: Bytes, from: nat)
    requires ValidPatterns(patterns) && Valid(text) && text != [] && pattern in patterns
    requires from + |pattern| <= |text| && text[from..from + |pattern|] == pattern
    requires Longest(patterns, text) == 0
    ensures from >= StepLength(patterns, text)
  {
    hide Valid, Longest, ScalarLength;
    assert pattern != [] && pattern[0] == text[from];
    ValidHead(pattern);
    if from == 0 {
      assert text[..|pattern|] == pattern;
      assert MatchesHere(patterns, text, |pattern|);
      NothingMatches(patterns, text, |pattern|);
    } else if from < ScalarLength(text) {
      ValidHead(text);
      ScalarShape(text);
    }
  }

  lemma NothingMatches(patterns: set<Bytes>, text: Bytes, length: nat)
    requires Longest(patterns, text) == 0 && 0 < length <= |text|
    ensures !MatchesHere(patterns, text, length)
  {
  }

  /** No secret gets through whole: wherever one occurs, at least one of its bytes is replaced. */
  lemma {:induction false} EveryOccurrenceIsHit(patterns: set<Bytes>, text: Bytes, pattern: Bytes, from: nat)
    returns (at: nat)
    requires ValidPatterns(patterns) && Valid(text) && pattern in patterns
    requires from + |pattern| <= |text| && text[from..from + |pattern|] == pattern
    ensures from <= at < from + |pattern| && ReplacedAt(patterns, text, at)
    decreases |text|
  {
    hide Valid, Longest, StepLength, ReplacedAt;
    assert pattern != [];
    StepKeepsValid(patterns, text);
    var n := StepLength(patterns, text);
    if from < n {
      if Longest(patterns, text) == 0 {
        StartsAfterStep(patterns, text, pattern, from);
      }
      ReplacedInStep(patterns, text, from);
      at := from;
    } else {
      assert text[n..][from - n..from - n + |pattern|] == text[from..from + |pattern|];
      var later := EveryOccurrenceIsHit(patterns, text[n..], pattern, from - n);
      ReplacedAfterStep(patterns, text, later);
      at := later + n;
    }
  }

  /** The flag says whether any byte was replaced. */
  lemma {:induction false} HitsMeansReplaced(patterns: set<Bytes>, text: Bytes)
    requires ValidPatterns(patterns) && Valid(text)
    ensures Hits(patterns, text) <==> exists at :: 0 <= at < |text| && ReplacedAt(patterns, text, at)
    decreases |text|
  {
    hide Valid, Longest, StepLength, StepOutput, Redacted, Hits, ReplacedAt;
    if text == [] {
      NothingInNothing(patterns);
    } else {
      StepKeepsValid(patterns, text);
      RedactedStep(patterns, text);
      if Longest(patterns, text) > 0 {
        ReplacedInStep(patterns, text, 0);
      } else {
        HitsMeansReplaced(patterns, text[StepLength(patterns, text)..]);
        ReplacedMoves(patterns, text);
      }
    }
  }

  lemma NothingInNothing(patterns: set<Bytes>)
    ensures !Hits(patterns, []) && Redacted(patterns, []) == []
  {
  }

  /** If nothing was replaced, the text comes out as it is. */
  lemma {:induction false} NoHitNoChange(patterns: set<Bytes>, text: Bytes)
    requires ValidPatterns(patterns) && Valid(text) && !Hits(patterns, text)
    ensures Redacted(patterns, text) == text
    decreases |text|
  {
    hide Valid, Longest, StepLength, StepOutput, Redacted, Hits;
    if text == [] {
      NothingInNothing(patterns);
    } else {
      StepKeepsValid(patterns, text);
      RedactedStep(patterns, text);
      NoMatchOutput(patterns, text);
      var n := StepLength(patterns, text);
      NoHitNoChange(patterns, text[n..]);
      assert text == text[..n] + text[n..];
    }
  }

  lemma NoMatchOutput(patterns: set<Bytes>, text: Bytes)
    requires Longest(patterns, text) == 0
    ensures StepOutput(patterns, text) == text[..StepLength(patterns, text)]
  {
  }

  lemma ReplacedMoves(patterns: set<Bytes>, text: Bytes)
    requires 0 < StepLength(patterns, text) && Longest(patterns, text) == 0
    ensures var rest := text[StepLength(patterns, text)..];
            (exists at :: 0 <= at < |text| && ReplacedAt(patterns, text, at))
            <==> (exists at :: 0 <= at < |rest| && ReplacedAt(patterns, rest, at))
  {
    hide ReplacedAt, StepLength, Longest;
    var n := StepLength(patterns, text);
    if at :| 0 <= at < |text[n..]| && ReplacedAt(patterns, text[n..], at) {
      ReplacedAfterStep(patterns, text, at);
    }
    if at :| 0 <= at < |text| && ReplacedAt(patterns, text, at) {
      if at < n {
        ReplacedInStep(patterns, text, at);
      } else {
        ReplacedAfterStep(patterns, text, at - n);
      }
    }
  }

  // ----- Leftmost-longest matches, independently of the scan -----

  /** Some bytes that stay, and the match after them. */
  datatype Piece = Piece(kept: nat, replaced: nat)

  predicate Within(text: Bytes, pieces: seq<Piece>) {
    pieces == []
    || (var n := pieces[0].kept + pieces[0].replaced; n <= |text| && Within(text[n..], pieces[1..]))
  }

  /**
   Each match is the longest one at its start, none starts in the bytes that stay before it, and none after the
   last. Every byte position counts, whether or not a scalar starts there.
   */
  predicate LeftmostLongest(patterns: set<Bytes>, text: Bytes, pieces: seq<Piece>) {
    if pieces == [] then forall from | 0 <= from <= |text| :: Longest(patterns, text[from..]) == 0
    else
      var kept, replaced := pieces[0].kept, pieces[0].replaced;
      && kept + replaced <= |text| && 0 < replaced == Longest(patterns, text[kept..])
      && (forall from | 0 <= from < kept :: Longest(patterns, text[from..]) == 0)
      && LeftmostLongest(patterns, text[kept + replaced..], pieces[1..])
  }

  /** What stays, in order, with one marker in the place of each match. */
  function Rendered(text: Bytes, pieces: seq<Piece>): Bytes
    requires Within(text, pieces)
  {
    if pieces == [] then text
    else Marked(text, pieces[0], Rendered(text[pieces[0].kept + pieces[0].replaced..], pieces[1..]))
  }

  function Marked(text: Bytes, piece: Piece, after: Bytes): Bytes
    requires piece.kept <= |text|
  {
    text[..piece.kept] + MARKER + after
  }

  /** Does a match cover the byte? */
  predicate Covered(pieces: seq<Piece>, at: nat) {
    && pieces != [] && pieces[0].kept <= at
    && (at < pieces[0].kept + pieces[0].replaced
        || Covered(pieces[1..], at - pieces[0].kept - pieces[0].replaced))
  }

  /** The matches the scan finds. */
  function Pieces(patterns: set<Bytes>, text: Bytes): seq<Piece>
    decreases |text|
  {
    var n := StepLength(patterns, text);
    if n == 0 then []
    else if Longest(patterns, text) > 0 then [Piece(0, n)] + Pieces(patterns, text[n..])
    else Shifted(n, Pieces(patterns, text[n..]))
  }

  /** The same matches with more kept before the first. */
  function Shifted(n: nat, pieces: seq<Piece>): seq<Piece> {
    if pieces == [] then [] else [Piece(n + pieces[0].kept, pieces[0].replaced)] + pieces[1..]
  }

  lemma {:induction false} LeftmostLongestIsWithin(patterns: set<Bytes>, text: Bytes, pieces: seq<Piece>)
    requires LeftmostLongest(patterns, text, pieces)
    ensures Within(text, pieces)
    decreases |pieces|
  {
    hide Longest;
    if pieces != [] {
      LeftmostLongestIsWithin(patterns, text[pieces[0].kept + pieces[0].replaced..], pieces[1..]);
    }
  }

  lemma RenderedFront(text: Bytes, piece: Piece, tail: seq<Piece>)
    requires piece.kept + piece.replaced <= |text| && Within(text[piece.kept + piece.replaced..], tail)
    ensures Within(text, [piece] + tail)
    ensures Rendered(text, [piece] + tail)
            == Marked(text, piece, Rendered(text[piece.kept + piece.replaced..], tail))
  {
    hide Marked;
    var all := [piece] + tail;
    assert all[0] == piece && all[1..] == tail;
  }

  lemma ShiftedRenders(text: Bytes, n: nat, pieces: seq<Piece>)
    requires n <= |text| && Within(text[n..], pieces)
    ensures Within(text, Shifted(n, pieces))
    ensures Rendered(text, Shifted(n, pieces)) == text[..n] + Rendered(text[n..], pieces)
  {
    hide Rendered, Marked;
    if pieces == [] {
      RenderedAlone(text, n);
    } else {
      var piece, tail := pieces[0], pieces[1..];
      assert pieces == [piece] + tail;
      DropTwice(text, n, piece.kept + piece.replaced);
      RenderedFront(text[n..], piece, tail);
      RenderedFront(text, piece.(kept := n + piece.kept), tail);
      MarkedSplits(text, n, piece, Rendered(text[n..][piece.kept + piece.replaced..], tail));
    }
  }

  lemma DropTwice(text: Bytes, n: nat, end: nat)
    requires n + end <= |text|
    ensures text[n + end..] == text[n..][end..]
  {
  }

  lemma MarkedSplits(text: Bytes, n: nat, piece: Piece, after: Bytes)
    requires n + piece.kept <= |text|
    ensures Marked(text, piece.(kept := n + piece.kept), after) == text[..n] + Marked(text[n..], piece, after)
  {
    var kept := text[n..][..piece.kept];
    assert text[..n + piece.kept] == text[..n] + kept;
    Regroup(text[..n], kept, MARKER);
    Regroup(text[..n], kept + MARKER, after);
  }

  lemma RenderedAlone(text: Bytes, n: nat)
    requires n <= |text|
    ensures Rendered(text, []) == text[..n] + Rendered(text[n..], [])
  {
    assert text == text[..n] + text[n..];
  }

  lemma ShiftedCovers(n: nat, pieces: seq<Piece>, at: nat)
    ensures Covered(Shifted(n, pieces), at) <==> at >= n && Covered(pieces, at - n)
  {
  }

  /** No match starts in a scalar that the scan passes over. */
  lemma NoMatchInStep(patterns: set<Bytes>, text: Bytes, from: nat)
    requires ValidPatterns(patterns) && Valid(text) && text != [] && Longest(patterns, text) == 0
    requires from < StepLength(patterns, text)
    ensures Longest(patterns, text[from..]) == 0
  {
    hide Valid, StepLength;
    var length := Longest(patterns, text[from..]);
    if length > 0 {
      var pattern := text[from..][..length];
      assert MatchesHere(patterns, text[from..], length);
      assert text[from..from + |pattern|] == pattern;
      StartsAfterStep(patterns, text, pattern, from);
    }
  }

  lemma ShiftedIsLeftmostLongest(patterns: set<Bytes>, text: Bytes, n: nat, pieces: seq<Piece>)
    requires n <= |text| && LeftmostLongest(patterns, text[n..], pieces)
    requires forall from | 0 <= from < n :: Longest(patterns, text[from..]) == 0
    ensures LeftmostLongest(patterns, text, Shifted(n, pieces))
  {
    hide Longest;
    forall from | n <= from <= |text| ensures text[from..] == text[n..][from - n..] {
    }
    if pieces != [] {
      var kept, end := pieces[0].kept, pieces[0].kept + pieces[0].replaced;
      assert text[n + end..] == text[n..][end..];
      assert text[n + kept..] == text[n..][kept..];
    }
  }

  /** The scan finds leftmost-longest matches and puts a marker in the place of each. */
  lemma {:induction false} ScanIsLeftmostLongest(patterns: set<Bytes>, text: Bytes)
    requires ValidPatterns(patterns) && Valid(text)
    ensures LeftmostLongest(patterns, text, Pieces(patterns, text))
    ensures Within(text, Pieces(patterns, text)) && Redacted(patterns, text) == Rendered(text, Pieces(patterns, text))
    decreases |text|
  {
    hide Valid, Longest, StepLength, StepOutput, Redacted, LeftmostLongest, Rendered, Shifted, Within;
    if text == [] {
      NothingFound(patterns);
    } else {
      StepKeepsValid(patterns, text);
      RedactedStep(patterns, text);
      var n := StepLength(patterns, text);
      ScanIsLeftmostLongest(patterns, text[n..]);
      if Longest(patterns, text) > 0 {
        FoundInFront(patterns, text);
      } else {
        forall from | 0 <= from < n ensures Longest(patterns, text[from..]) == 0 {
          NoMatchInStep(patterns, text, from);
        }
        NoMatchOutput(patterns, text);
        ShiftedRenders(text, n, Pieces(patterns, text[n..]));
        ShiftedIsLeftmostLongest(patterns, text, n, Pieces(patterns, text[n..]));
      }
    }
  }

  lemma NothingFound(patterns: set<Bytes>)
    ensures Pieces(patterns, []) == [] && LeftmostLongest(patterns, [], []) && Redacted(patterns, []) == []
    ensures Within([], []) && Rendered([], []) == []
  {
  }

  lemma FoundInFront(patterns: set<Bytes>, text: Bytes)
    requires Longest(patterns, text) > 0
    requires var later := Pieces(patterns, text[StepLength(patterns, text)..]);
             && LeftmostLongest(patterns, text[StepLength(patterns, text)..], later)
             && Within(text[StepLength(patterns, text)..], later)
    ensures var later := Pieces(patterns, text[StepLength(patterns, text)..]);
            && LeftmostLongest(patterns, text, [Piece(0, StepLength(patterns, text))] + later)
            && Within(text, [Piece(0, StepLength(patterns, text))] + later)
            && Rendered(text, [Piece(0, StepLength(patterns, text))] + later)
               == StepOutput(patterns, text) + Rendered(text[StepLength(patterns, text)..], later)
  {
    hide Longest;
    var n := StepLength(patterns, text);
    var later := Pieces(patterns, text[n..]);
    assert text[0..] == text && ([Piece(0, n)] + later)[1..] == later && text[..0] == [];
    assert [] + MARKER == MARKER;
  }

  lemma {:induction false} MatchesAreUnique(patterns: set<Bytes>, text: Bytes, a: seq<Piece>, b: seq<Piece>)
    requires LeftmostLongest(patterns, text, a) && LeftmostLongest(patterns, text, b)
    ensures a == b
    decreases |a|
  {
    hide Longest;
    if a != [] && b != [] {
      assert a[0].kept == b[0].kept;
      MatchesAreUnique(patterns, text[a[0].kept + a[0].replaced..], a[1..], b[1..]);
      assert a == [a[0]] + a[1..] && b == [b[0]] + b[1..];
    }
  }

  /**
   Redaction replaces the leftmost-longest matches of the secrets and nothing else: what is outside them stays in
   order, each of them becomes one marker, and the bytes they cover are the ones that are replaced.
   */
  lemma RedactedIsRendered(patterns: set<Bytes>, text: Bytes, pieces: seq<Piece>)
    requires ValidPatterns(patterns) && Valid(text) && LeftmostLongest(patterns, text, pieces)
    ensures Within(text, pieces) && Redacted(patterns, text) == Rendered(text, pieces)
    ensures forall at | 0 <= at < |text| :: ReplacedAt(patterns, text, at) <==> Covered(pieces, at)
  {
    hide Valid, Longest, Redacted, Rendered, LeftmostLongest, Within, ReplacedAt, Covered, Pieces;
    ScanIsLeftmostLongest(patterns, text);
    MatchesAreUnique(patterns, text, pieces, Pieces(patterns, text));
    forall at | 0 <= at < |text| ensures ReplacedAt(patterns, text, at) <==> Covered(pieces, at) {
      ReplacedIsCovered(patterns, text, at);
    }
  }

  lemma {:induction false} ReplacedIsCovered(patterns: set<Bytes>, text: Bytes, at: nat)
    requires ValidPatterns(patterns) && Valid(text) && at < |text|
    ensures ReplacedAt(patterns, text, at) <==> Covered(Pieces(patterns, text), at)
    decreases |text|
  {
    hide Valid, Longest, StepLength, ReplacedAt, Shifted;
    StepKeepsValid(patterns, text);
    var n := StepLength(patterns, text);
    var later := Pieces(patterns, text[n..]);
    if at < n {
      ReplacedInStep(patterns, text, at);
    } else {
      ReplacedAfterStep(patterns, text, at - n);
      ReplacedIsCovered(patterns, text[n..], at - n);
    }
    if Longest(patterns, text) > 0 {
      assert ([Piece(0, n)] + later)[1..] == later;
    } else {
      ShiftedCovers(n, later, at);
    }
  }
}
