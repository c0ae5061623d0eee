/** Streaming secret redaction: chunks in, redacted text out, with a carry in between. */
module Redaction {
  import opened DiscoveryDomain
  import opened Utf8
  import opened Greedy
  import Trie

  const MAX_REDACTION_PATTERNS: nat := 256
  const MAX_REDACTION_PATTERN_BYTES: nat := 2560
  const MAX_REDACTION_TOTAL_BYTES: nat := 256 * 1024

  datatype RuleError = PatternTooLong | TooManyPatterns | TotalPatternBytesExceeded

  datatype Collected = Patterns(patterns: seq<Bytes>) | Refused(error: RuleError)

  function TotalBytes(patterns: seq<Bytes>): nat {
    if patterns == [] then 0 else TotalBytes(patterns[..|patterns| - 1]) + |patterns[|patterns| - 1]|
  }

  /** What one more secret does: empty and repeated projections are ignored. */
  function Collect(normalize: Bytes -> Bytes, found: seq<Bytes>, secret: Bytes): Collected {
    if secret == [] then Patterns(found)
    else if |secret| > MAX_REDACTION_PATTERN_BYTES then Refused(PatternTooLong)
    else
      var projected := normalize(secret);
      if projected == [] || projected in found then Patterns(found)
      else if |found| >= MAX_REDACTION_PATTERNS then Refused(TooManyPatterns)
      else if TotalBytes(found) + |projected| > MAX_REDACTION_TOTAL_BYTES then Refused(TotalPatternBytesExceeded)
      else Patterns(found + [projected])
  }

  function CollectAll(normalize: Bytes -> Bytes, secrets: seq<Bytes>): Collected {
    if secrets == [] then Patterns([])
    else
      var front := CollectAll(normalize, secrets[..|secrets| - 1]);
      if front.Refused? then front else Collect(normalize, front.patterns, secrets[|secrets| - 1])
  }

  ghost predicate AreProjections(normalize: Bytes -> Bytes, secrets: seq<Bytes>, patterns: seq<Bytes>) {
    && (forall p :: p in patterns <==> p != [] && exists s :: s in secrets && s != [] && normalize(s) == p)
    && (forall i, j | 0 <= i < j < |patterns| :: patterns[i] != patterns[j])
    && |patterns| <= MAX_REDACTION_PATTERNS && TotalBytes(patterns) <= MAX_REDACTION_TOTAL_BYTES
    && (forall s | s in secrets :: |s| <= MAX_REDACTION_PATTERN_BYTES)
  }

  lemma NoProjections(normalize: Bytes -> Bytes)
    ensures AreProjections(normalize, [], [])
  {
  }

  lemma OneMoreProjection(normalize: Bytes -> Bytes, secrets: seq<Bytes>, found: seq<Bytes>, secret: Bytes)
    requires AreProjections(normalize, secrets, found) && Collect(normalize, found, secret).Patterns?
    ensures AreProjections(normalize, secrets + [secret], Collect(normalize, found, secret).patterns)
  {
  }

  /** Accepted secrets become exactly the set of their non-empty projections, within all limits. */
  lemma {:induction false} CollectedAreProjections(normalize: Bytes -> Bytes, secrets: seq<Bytes>)
    requires CollectAll(normalize, secrets).Patterns?
    ensures AreProjections(normalize, secrets, CollectAll(normalize, secrets).patterns)
  {
    hide AreProjections, Collect;
    NoProjections(normalize);
    if secrets != [] {
      var front, last := secrets[..|secrets| - 1], secrets[|secrets| - 1];
      CollectedAreProjections(normalize, front);
      OneMoreProjection(normalize, front, CollectAll(normalize, front).patterns, last);
      assert secrets == front + [last];
    }
  }

  /** Why a secret is refused, after the ones before it were accepted. */
  ghost predicate RefusalReason(normalize: Bytes -> Bytes, found: seq<Bytes>, secret: Bytes, error: RuleError) {
    && secret != []
    && match error
       case PatternTooLong => |secret| > MAX_REDACTION_PATTERN_BYTES
       case TooManyPatterns =>
         && |secret| <= MAX_REDACTION_PATTERN_BYTES && normalize(secret) != [] && normalize(secret) !in found
         && |found| == MAX_REDACTION_PATTERNS
       case TotalPatternBytesExceeded =>
         && |secret| <= MAX_REDACTION_PATTERN_BYTES && normalize(secret) != [] && normalize(secret) !in found
         && |found| < MAX_REDACTION_PATTERNS
         && TotalBytes(found) + |normalize(secret)| > MAX_REDACTION_TOTAL_BYTES
  }

  /** Secrets are refused exactly for the first one that breaks a limit. */
  lemma {:induction false} RefusalHasReason(normalize: Bytes -> Bytes, secrets: seq<Bytes>)
    requires CollectAll(normalize, secrets).Refused?
    ensures exists n, found ::
              && 0 <= n < |secrets| && AreProjections(normalize, secrets[..n], found)
              && RefusalReason(normalize, found, secrets[n], CollectAll(normalize, secrets).error)
  {
    hide AreProjections;
    var front := secrets[..|secrets| - 1];
    if CollectAll(normalize, front).Refused? {
      RefusalHasReason(normalize, front);
      var n, found :| && 0 <= n < |front| && AreProjections(normalize, front[..n], found)
                      && RefusalReason(normalize, found, front[n], CollectAll(normalize, front).error);
      assert front[..n] == secrets[..n];
    } else {
      CollectedAreProjections(normalize, front);
      BoundedCount(normalize, front);
      assert AreProjections(normalize, secrets[..|secrets| - 1], CollectAll(normalize, front).patterns);
    }
  }

  lemma BoundedCount(normalize: Bytes -> Bytes, secrets: seq<Bytes>)
    requires CollectAll(normalize, secrets).Patterns?
    ensures |CollectAll(normalize, secrets).patterns| <= MAX_REDACTION_PATTERNS
  {
    CollectedAreProjections(normalize, secrets);
  }

  ghost predicate ValidRules(rules: Trie.Trie)
    reads rules
  {
    rules.Valid() && ValidPatterns(rules.patterns)
  }

  lemma NoPatternsWithoutBytes(patterns: set<Bytes>)
    requires ValidPatterns(patterns) && BoundedBy(patterns, 0)
    ensures patterns == {}
  {
  }

  lemma NothingReceived(patterns: set<Bytes>)
    ensures Faithful(patterns, [], [], []) && FaithfulHits(patterns, [], false, [])
  {
    hide Redacted, Hits;
    assert forall rest: Bytes :: [] + rest == rest;
  }

  class LogRedactor {
    const rules: Trie.Trie
    var pending: Bytes
    var finished: bool
    var redactionsApplied: bool
    /** Everything received, and everything emitted. */
    ghost var total: Bytes
    ghost var emitted: Bytes

    ghost predicate Valid()
      reads this, rules
    {
      && ValidRules(rules) && Utf8.Valid(pending)
      && |pending| <= rules.maxPatternBytes + 2
      && (rules.maxPatternBytes == 0 ==> pending == [])
      && if finished then
           pending == [] && emitted == Redacted(rules.patterns, total)
             && redactionsApplied == Hits(rules.patterns, total)
         else
           && Faithful(rules.patterns, total, emitted, pending)
           && FaithfulHits(rules.patterns, total, redactionsApplied, pending)
    }

    constructor (rules: Trie.Trie)
      requires ValidRules(rules)
      ensures Valid() && this.rules == rules && total == [] && emitted == [] && !finished
    {
      hide Trie.Trie.Indexed, Faithful, FaithfulHits, Redacted, Hits;
      NothingReceived(rules.patterns);
      this.rules := rules;
      pending, finished, redactionsApplied := [], false, false;
      total, emitted := [], [];
    }

    /** The largest scalar boundary after which a pattern could still be incomplete. */
    method SafeEnd(bytes: Bytes, endOfStream: bool) returns (safeEnd: nat)
      requires Utf8.Valid(bytes) && rules.maxPatternBytes > 0
      ensures safeEnd <= |bytes| && (endOfStream ==> safeEnd == |bytes|)
      ensures !endOfStream ==>
                && (safeEnd > 0 ==> safeEnd + rules.maxPatternBytes - 1 <= |bytes|)
                && |bytes| - safeEnd <= rules.maxPatternBytes + 2
    {
      safeEnd := if endOfStream then |bytes|
                 else if |bytes| < rules.maxPatternBytes - 1 then 0 else |bytes| - (rules.maxPatternBytes - 1);
      FloorIsNear(bytes, safeEnd);
      ghost var goal := FloorBoundary(bytes, safeEnd);
      while safeEnd > 0 && !IsBoundary(bytes, safeEnd)
        invariant safeEnd <= |bytes| && FloorBoundary(bytes, safeEnd) == goal
        invariant endOfStream ==> safeEnd == |bytes|
        invariant !endOfStream && safeEnd > 0 ==> safeEnd + rules.maxPatternBytes - 1 <= |bytes|
      {
        safeEnd := safeEnd - 1;
      }
    }

    /** One step of the scan at the cursor. */
    method Step(cursor: nat) returns (length: nat, piece: Bytes)
      requires ValidRules(rules) && cursor < |pending| && Utf8.Valid(pending[cursor..])
      modifies this`redactionsApplied
      ensures length == StepLength(rules.patterns, pending[cursor..])
      ensures piece == StepOutput(rules.patterns, pending[cursor..])
      ensures redactionsApplied == (old(redactionsApplied) || Longest(rules.patterns, pending[cursor..]) > 0)
      ensures 0 < length <= |pending| - cursor && Utf8.Valid(pending[cursor + length..])
    {
      hide Trie.Trie.Valid, Longest, Utf8.Valid;
      StepKeepsValid(rules.patterns, pending[cursor..]);
      var longest := rules.LongestMatchAt(pending, cursor);
      if longest > 0 {
        redactionsApplied := true;
        length, piece := longest, MARKER;
      } else {
        length := ScalarLength(pending[cursor..]);
        piece := pending[cursor..][..length];
      }
      assert pending[cursor..][length..] == pending[cursor + length..];
    }

    /** Scan while a whole pattern's length is in view. */
    method Process() returns (output: Bytes)
      requires ValidRules(rules) && Utf8.Valid(pending) && rules.maxPatternBytes > 0 && !finished
      requires Faithful(rules.patterns, total, emitted, pending)
      requires FaithfulHits(rules.patterns, total, redactionsApplied, pending)
      modifies this`pending, this`redactionsApplied, this`emitted
      ensures Valid() && emitted == old(emitted) + output
    {
      hide Trie.Trie.Indexed, Utf8.Valid, Faithful, FaithfulHits, StepLength, StepOutput, Longest;
      var safeEnd := SafeEnd(pending, false);
      var cursor := 0;
      output := [];
      assert pending[0..] == pending && emitted + [] == emitted;
      while cursor < safeEnd
        invariant cursor <= |pending| && pending == old(pending) && Utf8.Valid(pending[cursor..])
        invariant emitted == old(emitted) && !finished
        invariant Faithful(rules.patterns, total, emitted + output, pending[cursor..])
        invariant FaithfulHits(rules.patterns, total, redactionsApplied, pending[cursor..])
        decreases |pending| - cursor
      {
        FaithfulStep(
          rules.patterns, rules.maxPatternBytes, total, emitted + output, redactionsApplied, pending[cursor..]);
        var length, piece := Step(cursor);
        assert pending[cursor..][length..] == pending[cursor + length..];
        assert emitted + output + piece == emitted + (output + piece);
        output := output + piece;
        cursor := cursor + length;
      }
      pending := pending[cursor..];
      emitted := emitted + output;
    }

    /** Flush the final carry. */
    method ProcessEnd() returns (output: Bytes)
      requires ValidRules(rules) && Utf8.Valid(pending) && rules.maxPatternBytes > 0
      requires FinallyFaithful(rules.patterns, total, emitted, redactionsApplied, pending)
      modifies this`pending, this`redactionsApplied, this`emitted
      ensures pending == [] && emitted == old(emitted) + output
      ensures FinallyFaithful(rules.patterns, total, emitted, redactionsApplied, [])
    {
      hide Trie.Trie.Valid, Utf8.Valid, FinallyFaithful, StepLength, StepOutput, Longest;
      var safeEnd := SafeEnd(pending, true);
      var cursor := 0;
      output := [];
      assert pending[0..] == pending && emitted + [] == emitted;
      while cursor < safeEnd
        invariant cursor <= |pending| == safeEnd && pending == old(pending) && Utf8.Valid(pending[cursor..])
        invariant emitted == old(emitted)
        invariant FinallyFaithful(rules.patterns, total, emitted + output, redactionsApplied, pending[cursor..])
        decreases |pending| - cursor
      {
        FinalStep(rules.patterns, total, emitted + output, redactionsApplied, pending[cursor..]);
        var length, piece := Step(cursor);
        assert pending[cursor..][length..] == pending[cursor + length..];
        assert emitted + output + piece == emitted + (output + piece);
        output := output + piece;
        cursor := cursor + length;
      }
      pending := pending[cursor..];
      emitted := emitted + output;
    }

    /** Only text that can no longer become part of a pattern is emitted; calls after the end are ignored. */
    method Push(input: Bytes) returns (output: Bytes)
      requires Valid() && Utf8.Valid(input)
      modifies this`pending, this`redactionsApplied, this`emitted, this`total
      ensures Valid()
      ensures old(finished) ==> output == [] && total == old(total) && emitted == old(emitted)
      ensures !old(finished) ==> total == old(total) + input && emitted == old(emitted) + output
    {
      hide Trie.Trie.Indexed, Utf8.Valid, Faithful, FaithfulHits;
      output := [];
      assert total + [] == total && emitted + [] == emitted;
      if finished || input == [] {
        return;
      }
      FaithfulAppend(rules.patterns, total, emitted, redactionsApplied, pending, input);
      if rules.maxPatternBytes == 0 {
        NoPatternsWithoutBytes(rules.patterns);
        FaithfulCopy(total, emitted, redactionsApplied, input);
        total, emitted := total + input, emitted + input;
        return input;
      }
      ValidAppend(pending, input);
      total, pending := total + input, pending + input;
      output := Process();
    }

    method Finish() returns (output: Bytes)
      requires Valid()
      modifies this`pending, this`redactionsApplied, this`emitted, this`finished
      ensures Valid() && finished && total == old(total)
      ensures old(finished) ==> output == [] && emitted == old(emitted)
      ensures emitted == old(emitted) + output && emitted == Redacted(rules.patterns, total)
      ensures redactionsApplied == Hits(rules.patterns, total)
    {
      hide Trie.Trie.Indexed, Faithful, FaithfulHits;
      output := [];
      assert emitted + [] == emitted;
      if finished {
        return;
      }
      EndIsFaithful(rules.patterns, total, emitted, redactionsApplied, pending);
      if rules.maxPatternBytes > 0 {
        output := ProcessEnd();
      }
      NothingLeft(rules.patterns, total, emitted, redactionsApplied);
      finished := true;
    }
  }

  /** Without patterns text passes through. */
  lemma FaithfulCopy(total: Bytes, emitted: Bytes, applied: bool, input: Bytes)
    requires Utf8.Valid(input) && Faithful({}, total + input, emitted, [] + input)
    requires FaithfulHits({}, total + input, applied, [] + input)
    ensures Faithful({}, total + input, emitted + input, []) && FaithfulHits({}, total + input, applied, [])
  {
    hide Redacted, Hits, Utf8.Valid;
    forall rest | Utf8.Valid(rest)
      ensures emitted + input + Redacted({}, [] + rest) == Redacted({}, total + input + rest)
      ensures (applied || Hits({}, [] + rest)) == Hits({}, total + input + rest)
    {
      ValidAppend(input, rest);
      NothingToRedact({}, input + rest);
      NothingToRedact({}, rest);
      RegroupCopy(emitted, input, rest);
      RegroupCopy(total, input, rest);
    }
  }

  lemma RegroupCopy(a: Bytes, input: Bytes, rest: Bytes)
    ensures a + (input + rest) == a + input + rest
    ensures [] + input + rest == input + rest && [] + rest == rest
  {
  }

  lemma NothingLeft(patterns: set<Bytes>, total: Bytes, emitted: Bytes, applied: bool)
    requires FinallyFaithful(patterns, total, emitted, applied, [])
    ensures emitted == Redacted(patterns, total) && applied == Hits(patterns, total)
  {
  }

  function Concat(chunks: seq<Bytes>): Bytes {
    if chunks == [] then [] else Concat(chunks[..|chunks| - 1]) + chunks[|chunks| - 1]
  }

  /** However the text is cut into chunks, what comes out is the redaction of the whole. */
  method RedactChunks(rules: Trie.Trie, chunks: seq<Bytes>) returns (output: Bytes, applied: bool)
    requires ValidRules(rules) && forall c | c in chunks :: Utf8.Valid(c)
    ensures output == Redacted(rules.patterns, Concat(chunks)) && applied == Hits(rules.patterns, Concat(chunks))
  {
    hide Trie.Trie.Indexed, Utf8.Valid, Faithful, FaithfulHits, Redacted, Hits;
    var redactor := new LogRedactor(rules);
    output := [];
    for i := 0 to |chunks|
      invariant redactor.Valid() && !redactor.finished && fresh(redactor)
      invariant redactor.rules == rules && redactor.total == Concat(chunks[..i]) && redactor.emitted == output
    {
      assert chunks[i] in chunks;
      assert chunks[..i + 1][..i] == chunks[..i];
      var piece := redactor.Push(chunks[i]);
      output := output + piece;
    }
    assert chunks[..|chunks|] == chunks;
    var piece := redactor.Finish();
    output, applied := output + piece, redactor.redactionsApplied;
  }

  /** The index of the accepted secrets. */
  method FromSecrets(normalize: Bytes -> Bytes, secrets: seq<Bytes>)
    returns (rules: Trie.Trie?, error: Option<RuleError>)
    requires forall s | Utf8.Valid(s) :: Utf8.Valid(normalize(s))
    requires forall s | s in secrets :: Utf8.Valid(s)
    ensures var collected := CollectAll(normalize, secrets);
            if collected.Refused? then error == Some(collected.error) && rules == null
            else
              && error == None && rules != null && fresh(rules) && ValidRules(rules)
              && (forall p :: p in rules.patterns <==> p in collected.patterns)
  {
    var collected := Patterns([]);
    for i := 0 to |secrets|
      invariant collected == CollectAll(normalize, secrets[..i])
      invariant collected.Patterns?
    {
      assert secrets[..i + 1][..i] == secrets[..i];
      collected := Collect(normalize, collected.patterns, secrets[i]);
      if collected.Refused? {
        RefusalStays(normalize, secrets, i + 1);
        return null, Some(collected.error);
      }
    }
    assert secrets[..|secrets|] == secrets;
    CollectedAreProjections(normalize, secrets);
    forall p | p in collected.patterns ensures p != [] && Utf8.Valid(p) {
      var s :| s in secrets && s != [] && normalize(s) == p;
    }
    var index := BuildIndex(collected.patterns);
    return index, None;
  }

  lemma {:induction false} RefusalStays(normalize: Bytes -> Bytes, secrets: seq<Bytes>, n: nat)
    requires n <= |secrets| && CollectAll(normalize, secrets[..n]).Refused?
    ensures CollectAll(normalize, secrets) == CollectAll(normalize, secrets[..n])
    decreases |secrets|
  {
    if n == |secrets| {
      assert secrets[..n] == secrets;
    } else {
      var front := secrets[..|secrets| - 1];
      assert front[..n] == secrets[..n];
      RefusalStays(normalize, front, n);
    }
  }

  method BuildIndex(patterns: seq<Bytes>) returns (rules: Trie.Trie)
    requires forall p | p in patterns :: p != [] && Utf8.Valid(p)
    ensures fresh(rules) && ValidRules(rules)
    ensures forall p :: p in rules.patterns <==> p in patterns
  {
    hide Trie.Trie.Indexed, Utf8.Valid;
    rules := new Trie.Trie();
    for i := 0 to |patterns|
      invariant fresh(rules) && ValidRules(rules)
      invariant forall p :: p in rules.patterns <==> p in patterns[..i]
    {
      assert patterns[i] in patterns;
      assert patterns[..i + 1] == patterns[..i] + [patterns[i]];
      rules.Insert(patterns[i]);
    }
    assert patterns[..|patterns|] == patterns;
  }
}
