/** UTF-8 as byte sequences: sections 3 and 4 of RFC 3629. */
module Utf8 {

  type byte = x: int | 0 <= x < 256

  predicate Continuation(b: byte) {
    0x80 <= b < 0xC0
  }

  /** The second byte of a three or four byte scalar: overlong forms and surrogates are excluded. */
  predicate SecondAllowed(lead: byte, second: byte) {
    && Continuation(second)
    && (lead == 0xE0 ==> 0xA0 <= second)
    && (lead == 0xED ==> second <= 0x9F)
    && (lead == 0xF0 ==> 0x90 <= second)
    && (lead == 0xF4 ==> second <= 0x8F)
  }

  /** The number of bytes a scalar with this lead byte has; 0 when no scalar starts so. */
  function LeadLength(lead: byte): nat {
    if lead < 0x80 then 1
    else if 0xC2 <= lead <= 0xDF then 2
    else if 0xE0 <= lead <= 0xEF then 3
    else if 0xF0 <= lead <= 0xF4 then 4
    else 0
  }

  /** The length of the scalar at the front, or 0 when there is no complete scalar. */
  function ScalarLength(s: seq<byte>): (n: nat)
    ensures n <= 4 && n <= |s|
  {
    if s == [] || LeadLength(s[0]) == 0 || |s| < LeadLength(s[0]) then 0
    else if LeadLength(s[0]) == 1 then 1
    else if LeadLength(s[0]) == 2 then (if Continuation(s[1]) then 2 else 0)
    else if LeadLength(s[0]) == 3 then (if SecondAllowed(s[0], s[1]) && Continuation(s[2]) then 3 else 0)
    else if SecondAllowed(s[0], s[1]) && Continuation(s[2]) && Continuation(s[3]) then 4
    else 0
  }

  predicate Valid(s: seq<byte>)
    decreases |s|
  {
    s == [] || (ScalarLength(s) > 0 && Valid(s[ScalarLength(s)..]))
  }

  predicate IsBoundary(s: seq<byte>, at: nat) {
    at == 0 || at == |s| || (at < |s| && !Continuation(s[at]))
  }

  /** A scalar is read from its own bytes alone. */
  lemma ScalarIsLocal(s: seq<byte>, t: seq<byte>)
    requires ScalarLength(s) > 0
    ensures ScalarLength(s + t) == ScalarLength(s)
    ensures ScalarLength(s[..ScalarLength(s)]) == ScalarLength(s)
  {
  }

  lemma ScalarShape(s: seq<byte>)
    requires ScalarLength(s) > 0
    ensures !Continuation(s[0])
    ensures forall i | 0 < i < ScalarLength(s) :: Continuation(s[i])
  {
  }

  /** What a cut leaves of the first scalar. */
  lemma CutAfterScalar(s: seq<byte>, at: nat)
    requires 0 < ScalarLength(s) <= at <= |s|
    ensures ScalarLength(s[..at]) == ScalarLength(s)
    ensures s[..at][ScalarLength(s)..] == s[ScalarLength(s)..][..at - ScalarLength(s)]
    ensures s[at..] == s[ScalarLength(s)..][at - ScalarLength(s)..]
  {
  }

  lemma CutInsideScalar(s: seq<byte>, at: nat)
    requires 0 < at < ScalarLength(s)
    ensures ScalarLength(s[..at]) == 0 && IsScalarPrefix(s[..at])
    ensures Continuation(s[at]) && s[at..][0] == s[at]
  {
  }

  lemma DropPrefix(a: seq<byte>, b: seq<byte>, n: nat)
    requires n <= |a|
    ensures (a + b)[n..] == a[n..] + b
  {
  }

  lemma Regroup<T>(a: seq<T>, b: seq<T>, c: seq<T>)
    ensures a + b + c == a + (b + c)
  {
  }

  lemma {:induction false} ValidAppend(a: seq<byte>, b: seq<byte>)
    requires Valid(a) && Valid(b)
    ensures Valid(a + b)
    decreases |a|
  {
    hide ScalarLength;
    if a == [] {
      assert a + b == b;
    } else {
      var n := ScalarLength(a);
      ScalarIsLocal(a, b);
      ValidAppend(a[n..], b);
      DropPrefix(a, b, n);
    }
  }

  lemma {:induction false} ValidRemainder(a: seq<byte>, b: seq<byte>)
    requires Valid(a) && Valid(a + b)
    ensures Valid(b)
    decreases |a|
  {
    hide ScalarLength;
    if a == [] {
      assert a + b == b;
    } else {
      var n := ScalarLength(a);
      ScalarIsLocal(a, b);
      DropPrefix(a, b, n);
      ValidRemainder(a[n..], b);
    }
  }

  /** In valid text a cut is valid on both sides exactly at the bytes that start a scalar. */
  lemma {:induction false} BoundaryCuts(s: seq<byte>, at: nat)
    requires Valid(s) && at <= |s|
    ensures IsBoundary(s, at) <==> Valid(s[..at])
    ensures IsBoundary(s, at) <==> Valid(s[at..])
    decreases |s|
  {
    hide ScalarLength, Continuation;
    if at == 0 {
      assert s[0..] == s;
    } else if at == |s| {
      assert s[..at] == s;
    } else {
      var n := ScalarLength(s);
      if at < n {
        CutInsideScalar(s, at);
        ContinuationIsNoStart(s[at..]);
      } else {
        CutAfterScalar(s, at);
        BoundaryCuts(s[n..], at - n);
        BoundaryShifts(s, n, at);
      }
    }
  }

  lemma BoundaryShifts(s: seq<byte>, n: nat, at: nat)
    requires n <= at <= |s| && Valid(s[n..])
    ensures IsBoundary(s[n..], at - n) <==> at == n || IsBoundary(s, at)
    ensures IsBoundary(s, n)
  {
  }

  /** Valid text that is not empty starts with a scalar, never with a continuation byte. */
  lemma ValidHead(s: seq<byte>)
    requires Valid(s) && s != []
    ensures !Continuation(s[0]) && ScalarLength(s) > 0
  {
  }

  /** The first scalar and what follows are both text. */
  lemma FirstScalar(s: seq<byte>)
    requires Valid(s) && s != []
    ensures 0 < ScalarLength(s) && Valid(s[..ScalarLength(s)]) && Valid(s[ScalarLength(s)..])
  {
    hide ScalarLength;
    ScalarIsLocal(s, []);
    assert s[..ScalarLength(s)][ScalarLength(s)..] == [];
  }

  lemma ContinuationIsNoStart(s: seq<byte>)
    requires s != [] && Continuation(s[0])
    ensures ScalarLength(s) == 0 && !Valid(s)
  {
  }

  /** The largest boundary at or below `at`: what the scalar-safe truncations compute. */
  function FloorBoundary(s: seq<byte>, at: nat): (r: nat)
    requires at <= |s|
    ensures r <= at && IsBoundary(s, r)
    ensures forall i | r < i <= at :: !IsBoundary(s, i)
  {
    if IsBoundary(s, at) then at else FloorBoundary(s, at - 1)
  }

  /** No four consecutive bytes of valid text are all continuation bytes. */
  lemma {:induction false} ShortRuns(s: seq<byte>, at: nat)
    requires Valid(s) && at + 4 <= |s|
    ensures exists i :: at <= i < at + 4 && !Continuation(s[i])
    decreases |s|
  {
    var n := ScalarLength(s);
    ScalarShape(s);
    if at < n {
      if at == 0 {
        assert !Continuation(s[0]);
      } else {
        ValidHead(s[n..]);
        assert !Continuation(s[n]);
      }
    } else {
      ShortRuns(s[n..], at - n);
      var i :| at - n <= i < at - n + 4 && !Continuation(s[n..][i]);
      assert s[n..][i] == s[n + i];
    }
  }

  lemma FloorIsNear(s: seq<byte>, at: nat)
    requires Valid(s) && at <= |s|
    ensures at - FloorBoundary(s, at) <= 3
  {
    var r := FloorBoundary(s, at);
    if at - r > 3 {
      if at < |s| {
        ShortRuns(s, at - 3);
        var i :| at - 3 <= i < at + 1 && !Continuation(s[i]);
        assert IsBoundary(s, i);
      }
    }
  }

  /** The smallest boundary at or above `at`. */
  function CeilBoundary(s: seq<byte>, at: nat): (r: nat)
    requires at <= |s|
    ensures at <= r <= |s| && IsBoundary(s, r)
    ensures forall i | at <= i < r :: !IsBoundary(s, i)
    decreases |s| - at
  {
    if IsBoundary(s, at) then at else CeilBoundary(s, at + 1)
  }

  lemma CeilIsNear(s: seq<byte>, at: nat)
    requires Valid(s) && at <= |s|
    ensures CeilBoundary(s, at) - at <= 3
  {
    var r := CeilBoundary(s, at);
    if r - at > 3 {
      ShortRuns(s, at);
      var i :| at <= i < at + 4 && !Continuation(s[i]);
      assert IsBoundary(s, i);
    }
  }

  /** If a scalar fits below `at`, the floor is past it. */
  lemma FloorPasses(s: seq<byte>, at: nat)
    requires Valid(s) && s != [] && ScalarLength(s) <= at <= |s|
    ensures FloorBoundary(s, at) >= ScalarLength(s)
  {
  }

  // ----- Decoding -----

  datatype Decoded = Whole | Truncated(validUpTo: nat) | Malformed

  /** A non-empty proper prefix of some scalar. */
  predicate IsScalarPrefix(s: seq<byte>) {
    && s != [] && |s| < LeadLength(s[0])
    && (|s| >= 2 ==> SecondAllowed(s[0], s[1]))
    && (|s| >= 3 ==> Continuation(s[2]))
  }

  function Shifted(d: Decoded, n: nat): Decoded {
    if d.Truncated? then Truncated(d.validUpTo + n) else d
  }

  /** Strict decoding, telling an unexpected end of input from malformed bytes. */
  function Decode(s: seq<byte>): Decoded
    decreases |s|
  {
    if s == [] then Whole
    else if ScalarLength(s) > 0 then Shifted(Decode(s[ScalarLength(s)..]), ScalarLength(s))
    else if IsScalarPrefix(s) then Truncated(0)
    else Malformed
  }

  lemma {:induction false} DecodeWhole(s: seq<byte>)
    ensures Decode(s) == Whole <==> Valid(s)
    decreases |s|
  {
    if s != [] && ScalarLength(s) > 0 {
      DecodeWhole(s[ScalarLength(s)..]);
    }
  }

  /** Cutting valid text anywhere decodes up to the floor of the cut. */
  lemma {:induction false} DecodeCut(s: seq<byte>, at: nat)
    requires Valid(s) && at <= |s|
    ensures Decode(s[..at]) == if IsBoundary(s, at) then Whole else Truncated(FloorBoundary(s, at))
    decreases |s|
  {
    hide ScalarLength, Continuation, IsScalarPrefix, Decode, FloorBoundary;
    if at == 0 {
      DecodeNothing();
      FloorAtBoundary(s, 0);
    } else {
      var n := ScalarLength(s);
      if at < n {
        CutInsideScalar(s, at);
        DecodePrefix(s[..at]);
        FloorInFirstScalar(s, at);
      } else {
        CutAfterScalar(s, at);
        DecodeStep(s[..at]);
        DecodeCut(s[n..], at - n);
        BoundaryShifts(s, n, at);
        FloorShifts(s, n, at);
      }
    }
  }

  lemma DecodeNothing()
    ensures Decode([]) == Whole
  {
  }

  lemma DecodePrefix(s: seq<byte>)
    requires ScalarLength(s) == 0 && IsScalarPrefix(s)
    ensures Decode(s) == Truncated(0)
  {
    hide ScalarLength;
  }

  lemma DecodeStep(s: seq<byte>)
    requires ScalarLength(s) > 0
    ensures Decode(s) == Shifted(Decode(s[ScalarLength(s)..]), ScalarLength(s))
  {
    hide ScalarLength;
  }

  lemma FloorAtBoundary(s: seq<byte>, at: nat)
    requires at <= |s| && IsBoundary(s, at)
    ensures FloorBoundary(s, at) == at
  {
  }

  lemma {:induction false} FloorInFirstScalar(s: seq<byte>, at: nat)
    requires Valid(s) && s != [] && at < ScalarLength(s)
    ensures FloorBoundary(s, at) == 0
  {
  }

  lemma {:induction false} FloorShifts(s: seq<byte>, n: nat, at: nat)
    requires n <= at <= |s| && Valid(s[n..])
    ensures FloorBoundary(s, at) == n + FloorBoundary(s[n..], at - n)
  {
    hide Valid;
    BoundaryShifts(s, n, at);
    if at > n && !IsBoundary(s, at) {
      FloorShifts(s, n, at - 1);
    }
  }

  // ----- Encoding -----

  /** Unicode scalar values: code points other than surrogates. */
  predicate IsScalarValue(c: nat) {
    c < 0xD800 || 0xE000 <= c < 0x11_0000
  }

  /** The table of section 3 of RFC 3629. */
  function Encode(c: nat): seq<byte>
    requires IsScalarValue(c)
  {
    if c < 0x80 then [c]
    else if c < 0x800 then [0xC0 + c / 0x40, 0x80 + c % 0x40]
    else if c < 0x1_0000 then [0xE0 + c / 0x40 / 0x40, 0x80 + c / 0x40 % 0x40, 0x80 + c % 0x40]
    else [0xF0 + c / 0x40 / 0x40 / 0x40, 0x80 + c / 0x40 / 0x40 % 0x40, 0x80 + c / 0x40 % 0x40, 0x80 + c % 0x40]
  }

  lemma EncodedIsScalar(c: nat)
    requires IsScalarValue(c)
    ensures ScalarLength(Encode(c)) == |Encode(c)| > 0
  {
  }

  /** Six more bits. */
  function WithTail(high: nat, tail: byte): nat
    requires Continuation(tail)
  {
    0x40 * high + (tail - 0x80)
  }

  lemma WithTailSplits(high: nat, tail: byte)
    requires Continuation(tail)
    ensures WithTail(high, tail) / 0x40 == high && 0x80 + WithTail(high, tail) % 0x40 == tail
  {
  }

  /** The value of the scalar at the front. */
  function FirstValue(s: seq<byte>): nat
    requires ScalarLength(s) > 0
  {
    if ScalarLength(s) == 1 then s[0]
    else if ScalarLength(s) == 2 then WithTail(s[0] - 0xC0, s[1])
    else if ScalarLength(s) == 3 then WithTail(WithTail(s[0] - 0xE0, s[1]), s[2])
    else WithTail(WithTail(WithTail(s[0] - 0xF0, s[1]), s[2]), s[3])
  }

  lemma ScalarIsEncoded(s: seq<byte>)
    requires ScalarLength(s) > 0
    ensures IsScalarValue(FirstValue(s)) && Encode(FirstValue(s)) == s[..ScalarLength(s)]
  {
    if ScalarLength(s) == 2 {
      WithTailSplits(s[0] - 0xC0, s[1]);
    } else if ScalarLength(s) == 3 {
      ThreeAreEncoded(s);
    } else if ScalarLength(s) == 4 {
      FourAreEncoded(s);
    }
  }

  lemma ThreeAreEncoded(s: seq<byte>)
    requires ScalarLength(s) == 3
    ensures IsScalarValue(FirstValue(s)) && Encode(FirstValue(s)) == s[..3]
  {
    hide WithTail;
    var a := WithTail(s[0] - 0xE0, s[1]);
    WithTailSplits(s[0] - 0xE0, s[1]);
    WithTailSplits(a, s[2]);
  }

  lemma FourAreEncoded(s: seq<byte>)
    requires ScalarLength(s) == 4
    ensures IsScalarValue(FirstValue(s)) && Encode(FirstValue(s)) == s[..4]
  {
    hide WithTail;
    var a := WithTail(s[0] - 0xF0, s[1]);
    var b := WithTail(a, s[2]);
    WithTailSplits(s[0] - 0xF0, s[1]);
    WithTailSplits(a, s[2]);
    WithTailSplits(b, s[3]);
  }

  function EncodeAll(cs: seq<nat>): seq<byte>
    requires forall c | c in cs :: IsScalarValue(c)
  {
    if cs == [] then [] else Encode(cs[0]) + EncodeAll(cs[1..])
  }

  lemma {:induction false} EncodedIsValid(cs: seq<nat>)
    requires forall c | c in cs :: IsScalarValue(c)
    ensures Valid(EncodeAll(cs))
  {
    hide Encode, ScalarLength;
    if cs != [] {
      var first := Encode(cs[0]);
      EncodedIsScalar(cs[0]);
      EncodedIsValid(cs[1..]);
      ScalarIsLocal(first, EncodeAll(cs[1..]));
      assert (first + EncodeAll(cs[1..]))[|first|..] == EncodeAll(cs[1..]);
    }
  }

  /** Text is exactly what encodes some sequence of Unicode scalar values. */
  lemma {:induction false} ValidIffEncoded(s: seq<byte>)
    ensures Valid(s) <==> exists cs: seq<nat> :: (forall c | c in cs :: IsScalarValue(c)) && EncodeAll(cs) == s
    decreases |s|
  {
    hide Encode, ScalarLength, IsScalarValue, FirstValue;
    if Valid(s) {
      if s == [] {
        assert EncodeAll([]) == s;
      } else {
        var n := ScalarLength(s);
        ScalarIsEncoded(s);
        ValidIffEncoded(s[n..]);
        var rest: seq<nat> :| (forall c | c in rest :: IsScalarValue(c)) && EncodeAll(rest) == s[n..];
        var cs := [FirstValue(s)] + rest;
        assert cs[1..] == rest && s == s[..n] + s[n..];
        assert EncodeAll(cs) == s;
      }
    }
    forall cs: seq<nat> | (forall c | c in cs :: IsScalarValue(c)) && EncodeAll(cs) == s ensures Valid(s) {
      EncodedIsValid(cs);
    }
  }
}
