/** The versioned storage form of a normalized path: printing, parsing, and their round trip. */
module PathKey {
  import opened Utf8

  const MAX_PROJECT_PATH_BYTES: nat := 32 * 1024
  const MAX_PROJECT_ANCESTOR_DEPTH: nat := 64

  const BAR: byte := 0x7C
  const SLASH: byte := 0x2F
  const BACKSLASH: byte := 0x5C
  const COLON: byte := 0x3A
  const DOT: byte := 0x2E
  const NUL: byte := 0x00

  /** The bytes of `mtpk1`. */
  const VERSION: seq<byte> := [0x6D, 0x74, 0x70, 0x6B, 0x31]
  const KIND_POSIX: seq<byte> := [0x70]
  const KIND_DRIVE: seq<byte> := [0x64]
  const KIND_UNC: seq<byte> := [0x75]

  type Bytes = seq<byte>

  /** A drive is one character, held as the bytes of its scalar. */
  datatype Root = Posix | WindowsDrive(drive: Bytes) | WindowsUnc(server: Bytes, share: Bytes)

  datatype Key = Key(root: Root, components: seq<Bytes>)

  datatype Parsed = Parsed(key: Key) | Rejected

  // ----- Validity -----

  predicate IsRelative(component: Bytes) {
    component == [] || component == [DOT] || component == [DOT, DOT] || NUL in component
  }

  predicate ValidComponent(root: Root, component: Bytes) {
    && !IsRelative(component) && SLASH !in component
    && (root.Posix? || BACKSLASH !in component)
  }

  predicate ValidWindowsName(name: Bytes) {
    !IsRelative(name) && SLASH !in name && BACKSLASH !in name
  }

  predicate IsUpper(b: byte) { 0x41 <= b <= 0x5A }

  predicate IsLower(b: byte) { 0x61 <= b <= 0x7A }

  predicate ValidRoot(root: Root) {
    match root
    case Posix => true
    case WindowsDrive(drive) => |drive| == 1 && (IsUpper(drive[0]) || IsLower(drive[0]))
    case WindowsUnc(server, share) => ValidWindowsName(server) && ValidWindowsName(share)
  }

  function Uppercased(root: Root): Root {
    if root.WindowsDrive? && |root.drive| == 1 && IsLower(root.drive[0])
    then WindowsDrive([root.drive[0] - 0x20]) else root
  }

  function TotalLength(components: seq<Bytes>): nat {
    if components == [] then 0
    else TotalLength(components[..|components| - 1]) + 1 + |components[|components| - 1]|
  }

  function EncodedLength(key: Key): nat {
    (match key.root
     case Posix => 1
     case WindowsDrive(_) => 3
     case WindowsUnc(server, share) => 2 + |server| + 1 + |share|)
    + TotalLength(key.components)
  }

  /** Strings of the original are UTF-8 by type. */
  predicate IsText(key: Key) {
    && (forall c | c in key.components :: Valid(c))
    && (key.root.WindowsUnc? ==> Valid(key.root.server) && Valid(key.root.share))
    && (key.root.WindowsDrive? ==> key.root.drive != [] && ScalarLength(key.root.drive) == |key.root.drive|)
  }

  /** What the constructor establishes. */
  predicate ValidKey(key: Key) {
    && IsText(key)
    && |key.components| <= MAX_PROJECT_ANCESTOR_DEPTH
    && ValidRoot(key.root) && Uppercased(key.root) == key.root
    && (forall c | c in key.components :: ValidComponent(key.root, c))
    && EncodedLength(key) <= MAX_PROJECT_PATH_BYTES
  }

  function FromCanonicalComponents(root: Root, components: seq<Bytes>): (r: Parsed)
    requires IsText(Key(root, components))
    ensures r.Parsed? ==> ValidKey(r.key) && r.key == Key(Uppercased(root), components)
    ensures r.Rejected? ==> !ValidKey(Key(Uppercased(root), components))
    ensures ValidKey(Key(root, components)) ==> r == Parsed(Key(root, components))
  {
    var upper := Uppercased(root);
    if |components| <= MAX_PROJECT_ANCESTOR_DEPTH && ValidRoot(upper)
       && (forall c | c in components :: ValidComponent(upper, c))
       && EncodedLength(Key(upper, components)) <= MAX_PROJECT_PATH_BYTES
    then Parsed(Key(upper, components)) else Rejected
  }

  // ----- Hexadecimal -----

  function HexDigit(n: nat): byte
    requires n < 16
  {
    if n < 10 then 0x30 + n else 0x61 + n - 10
  }

  function HexNibble(b: byte): int {
    if 0x30 <= b <= 0x39 then b - 0x30 else if 0x61 <= b <= 0x66 then b - 0x61 + 10 else -1
  }

  function HexEncode(s: Bytes): (r: Bytes)
    ensures |r| == 2 * |s|
    ensures BAR !in r && SLASH !in r && COLON !in r
  {
    if s == [] then []
    else HexEncode(s[..|s| - 1]) + [HexDigit(s[|s| - 1] / 16), HexDigit(s[|s| - 1] % 16)]
  }

  datatype MaybeBytes = SomeBytes(bytes: Bytes) | NoBytes

  function HexBytes(s: Bytes): MaybeBytes {
    if s == [] then SomeBytes([])
    else if |s| == 1 then NoBytes
    else
      var high, low := HexNibble(s[|s| - 2]), HexNibble(s[|s| - 1]);
      var front := HexBytes(s[..|s| - 2]);
      if front.NoBytes? || high < 0 || low < 0 then NoBytes
      else SomeBytes(front.bytes + [high * 16 + low])
  }

  function HexDecode(s: Bytes): MaybeBytes {
    if s == [] then NoBytes
    else
      var decoded := HexBytes(s);
      if decoded.SomeBytes? && Valid(decoded.bytes) then decoded else NoBytes
  }

  lemma {:induction false} HexRoundTrip(s: Bytes)
    ensures HexBytes(HexEncode(s)) == SomeBytes(s)
  {
    hide HexBytes, HexDigit, HexNibble;
    if s == [] {
      NoHexBytes();
    } else {
      var front, last := s[..|s| - 1], s[|s| - 1];
      HexRoundTrip(front);
      ByteOfDigits(last);
      HexStep(HexEncode(front), HexDigit(last / 16), HexDigit(last % 16));
      assert s == front + [last];
    }
  }

  function Ascii(text: string): Bytes
    requires forall i | 0 <= i < |text| :: text[i] as int < 0x80
  {
    seq(|text|, i requires 0 <= i < |text| => text[i] as int)
  }

  const HEX_DIGITS := "0123456789abcdef"

  /** Two lower-case digits for each byte, the high one first. */
  lemma {:induction false} HexEncodeAt(s: Bytes, i: nat)
    requires i < |s|
    ensures HexEncode(s)[2 * i] == HEX_DIGITS[s[i] / 16] as int
    ensures HexEncode(s)[2 * i + 1] == HEX_DIGITS[s[i] % 16] as int
  {
    if i < |s| - 1 {
      HexEncodeAt(s[..|s| - 1], i);
    }
  }

  lemma NoHexBytes()
    ensures HexBytes([]) == SomeBytes([])
  {
  }

  lemma HexStep(front: Bytes, high: byte, low: byte)
    requires HexBytes(front).SomeBytes? && HexNibble(high) >= 0 && HexNibble(low) >= 0
    ensures HexBytes(front + [high, low])
            == SomeBytes(HexBytes(front).bytes + [HexNibble(high) * 16 + HexNibble(low)])
  {
    hide HexNibble, HexBytes;
    var s := front + [high, low];
    assert s[..|s| - 2] == front && s[|s| - 2] == high && s[|s| - 1] == low;
    LastPair(s, HexBytes(front).bytes);
  }

  lemma LastPair(s: Bytes, bytes: Bytes)
    requires |s| >= 2 && HexBytes(s[..|s| - 2]) == SomeBytes(bytes)
    requires HexNibble(s[|s| - 2]) >= 0 && HexNibble(s[|s| - 1]) >= 0
    ensures HexBytes(s) == SomeBytes(bytes + [HexNibble(s[|s| - 2]) * 16 + HexNibble(s[|s| - 1])])
  {
    hide HexNibble;
  }

  lemma ByteOfDigits(b: byte)
    ensures HexNibble(HexDigit(b / 16)) == b / 16 && HexNibble(HexDigit(b % 16)) == b % 16
  {
  }

  /** The pairwise loop of the decoder computes the same bytes. */
  method DecodePairs(s: Bytes) returns (decoded: MaybeBytes)
    ensures decoded == HexDecode(s)
  {
    if s == [] || |s| % 2 != 0 {
      if s != [] {
        OddHasNoBytes(s);
      }
      return NoBytes;
    }
    var bytes: Bytes := [];
    var i := 0;
    while i < |s|
      invariant 0 <= i <= |s| && i % 2 == 0
      invariant HexBytes(s[..i]) == SomeBytes(bytes)
    {
      var high, low := HexNibble(s[i]), HexNibble(s[i + 1]);
      assert s[..i + 2][..i] == s[..i];
      if high < 0 || low < 0 {
        assert HexBytes(s[..i + 2]) == NoBytes;
        BadPairSpoils(s, i + 2);
        return NoBytes;
      }
      bytes := bytes + [high * 16 + low];
      i := i + 2;
    }
    assert s[..i] == s;
    decoded := if Valid(bytes) then SomeBytes(bytes) else NoBytes;
  }

  lemma {:induction false} OddHasNoBytes(s: Bytes)
    requires |s| % 2 == 1
    ensures HexBytes(s) == NoBytes
  {
    if |s| > 1 {
      OddHasNoBytes(s[..|s| - 2]);
    }
  }

  lemma {:induction false} BadPairSpoils(s: Bytes, i: nat)
    requires i <= |s| && i % 2 == 0 && |s| % 2 == 0 && HexBytes(s[..i]) == NoBytes
    ensures HexBytes(s) == NoBytes
    decreases |s|
  {
    if i == |s| {
      assert s[..i] == s;
    } else {
      var front := s[..|s| - 2];
      assert front[..i] == s[..i];
      BadPairSpoils(front, i);
    }
  }

  // ----- Splitting and joining -----

  function Split(s: Bytes, separator: byte): (parts: seq<Bytes>)
    ensures parts != []
  {
    if s == [] then [[]]
    else
      var rest := Split(s[1..], separator);
      if s[0] == separator then [[]] + rest else [[s[0]] + rest[0]] + rest[1..]
  }

  function Join(parts: seq<Bytes>, separator: byte): Bytes
    requires parts != []
  {
    if |parts| == 1 then parts[0] else parts[0] + [separator] + Join(parts[1..], separator)
  }

  lemma {:induction false} SplitPrefix(head: Bytes, tail: Bytes, separator: byte)
    requires separator !in head
    ensures Split(head + [separator] + tail, separator) == [head] + Split(tail, separator)
    ensures Split(head, separator) == [head]
  {
    if head == [] {
      assert head + [separator] + tail == [separator] + tail;
    } else {
      SplitPrefix(head[1..], tail, separator);
      assert (head + [separator] + tail)[1..] == head[1..] + [separator] + tail;
      assert head == [head[0]] + head[1..];
    }
  }

  lemma {:induction false} SplitJoin(parts: seq<Bytes>, separator: byte)
    requires parts != [] && forall p | p in parts :: separator !in p
    ensures Split(Join(parts, separator), separator) == parts
  {
    if |parts| == 1 {
      SplitPrefix(parts[0], [], separator);
    } else {
      SplitJoin(parts[1..], separator);
      SplitPrefix(parts[0], Join(parts[1..], separator), separator);
      assert parts == [parts[0]] + parts[1..];
    }
  }

  // ----- Printing and parsing -----

  function HexAll(components: seq<Bytes>): seq<Bytes> {
    seq(|components|, i requires 0 <= i < |components| => HexEncode(components[i]))
  }

  function PrintComponents(components: seq<Bytes>): Bytes {
    if components == [] then [] else Join(HexAll(components), SLASH)
  }

  function PrintKind(root: Root): Bytes {
    if root.Posix? then KIND_POSIX else if root.WindowsDrive? then KIND_DRIVE else KIND_UNC
  }

  function PrintRoot(root: Root): Bytes {
    match root
    case Posix => []
    case WindowsDrive(drive) => drive
    case WindowsUnc(server, share) => HexEncode(server) + [COLON] + HexEncode(share)
  }

  function Print(key: Key): Bytes {
    Join([VERSION, PrintKind(key.root), PrintRoot(key.root), PrintComponents(key.components)], BAR)
  }

  datatype ParsedRoot = ParsedRoot(root: Root) | BadRoot

  function ParseRoot(kind: Bytes, field: Bytes): (r: ParsedRoot)
    requires Valid(field)
    ensures r.ParsedRoot? ==> IsText(Key(r.root, []))
  {
    if kind == KIND_POSIX && field == [] then ParsedRoot(Posix)
    else if kind == KIND_DRIVE then
      if field != [] && ScalarLength(field) == |field| then ParsedRoot(WindowsDrive(field)) else BadRoot
    else if kind == KIND_UNC then
      var halves := Split(field, COLON);
      if |halves| < 2 then BadRoot
      else
        var server, share := HexDecode(halves[0]), HexDecode(Join(halves[1..], COLON));
        if server.SomeBytes? && share.SomeBytes? then ParsedRoot(WindowsUnc(server.bytes, share.bytes)) else BadRoot
    else BadRoot
  }

  datatype MaybeComponents = Components(components: seq<Bytes>) | BadComponents

  function DecodeAll(parts: seq<Bytes>): (r: MaybeComponents)
    ensures r.Components? ==> forall c | c in r.components :: Valid(c)
  {
    if parts == [] then Components([])
    else
      var first, rest := HexDecode(parts[0]), DecodeAll(parts[1..]);
      if first.SomeBytes? && rest.Components? then Components([first.bytes] + rest.components) else BadComponents
  }

  function ParseComponents(field: Bytes): (r: MaybeComponents)
    ensures r.Components? ==> forall c | c in r.components :: Valid(c)
  {
    if field == [] then Components([]) else DecodeAll(Split(field, SLASH))
  }

  /** Splitting valid text at an ASCII separator leaves valid text. */
  lemma {:induction false} SplitKeepsValid(s: Bytes, separator: byte)
    requires Valid(s) && separator < 0x80
    ensures forall p | p in Split(s, separator) :: Valid(p)
    decreases |s|
  {
    hide Valid, ScalarLength, Split;
    if s == [] {
      SplitNothing(separator);
    } else {
      var n := ScalarLength(s);
      FirstScalar(s);
      ScalarHolds(s, separator);
      SplitKeepsValid(s[n..], separator);
      var rest := Split(s[n..], separator);
      if s[0] == separator {
        SplitAtSeparator(s, separator);
      } else {
        SplitPastScalar(s, n, separator);
        assert rest[0] in rest;
        ValidAppend(s[..n], rest[0]);
        FirstExtended(s[..n], rest, Split(s, separator));
      }
    }
  }

  lemma SplitNothing(separator: byte)
    ensures forall p | p in Split([], separator) :: Valid(p)
  {
  }

  lemma SplitAtSeparator(s: Bytes, separator: byte)
    requires s != [] && s[0] == separator
    ensures Split(s, separator) == [[]] + Split(s[1..], separator) && Valid([])
  {
  }

  /** An ASCII byte is a scalar of its own, and occurs in no other. */
  lemma ScalarHolds(s: Bytes, separator: byte)
    requires ScalarLength(s) > 0 && separator < 0x80
    ensures s[0] == separator ==> ScalarLength(s) == 1
    ensures s[0] != separator ==> forall i | 0 <= i < ScalarLength(s) :: s[i] != separator
  {
    ScalarShape(s);
  }

  lemma FirstExtended(first: Bytes, rest: seq<Bytes>, parts: seq<Bytes>)
    requires rest != [] && parts == [first + rest[0]] + rest[1..]
    requires Valid(first + rest[0]) && forall p | p in rest :: Valid(p)
    ensures forall p | p in parts :: Valid(p)
  {
    forall p | p in parts ensures Valid(p) {
      var i :| 0 <= i < |parts| && parts[i] == p;
      if i > 0 {
        assert p == rest[i] && rest[i] in rest;
      }
    }
  }

  lemma {:induction false} SplitPastScalar(s: Bytes, n: nat, separator: byte)
    requires n <= |s| && forall i | 0 <= i < n :: s[i] != separator
    ensures Split(s, separator) == [s[..n] + Split(s[n..], separator)[0]] + Split(s[n..], separator)[1..]
  {
    if n == 0 {
      assert s[0..] == s && s[..0] + Split(s, separator)[0] == Split(s, separator)[0];
      assert Split(s, separator) == [Split(s, separator)[0]] + Split(s, separator)[1..];
    } else {
      SplitPastScalar(s[1..], n - 1, separator);
      var rest := Split(s[n..], separator);
      assert s[1..][n - 1..] == s[n..];
      assert [s[0]] + (s[1..][..n - 1] + rest[0]) == s[..n] + rest[0];
    }
  }

  /** Parsing: four fields, a known version and root, decodable components, canonical form. */
  function Parse(value: Bytes): (r: Parsed)
    requires Valid(value)
  {
    SplitKeepsValid(value, BAR);
    var fields := Split(value, BAR);
    if |value| > MAX_PROJECT_PATH_BYTES * 2 + 128 || |fields| != 4 || fields[0] != VERSION then Rejected
    else
      assert fields[2] in fields;
      var root := ParseRoot(fields[1], fields[2]);
      if root.BadRoot? then Rejected
      else
        var components := ParseComponents(fields[3]);
        if components.BadComponents? then Rejected
        else
          var key := FromCanonicalComponents(root.root, components.components);
          if key.Parsed? && Print(key.key) == value then key else Rejected
  }

  lemma DecodeFirst(part: Bytes, rest: seq<Bytes>, first: Bytes, components: seq<Bytes>)
    requires HexDecode(part) == SomeBytes(first) && DecodeAll(rest) == Components(components)
    ensures DecodeAll([part] + rest) == Components([first] + components)
  {
  }

  lemma DecodeHex(component: Bytes)
    requires Valid(component) && component != []
    ensures HexDecode(HexEncode(component)) == SomeBytes(component)
  {
    HexRoundTrip(component);
  }

  lemma {:induction false} DecodeAllHex(components: seq<Bytes>)
    requires forall i | 0 <= i < |components| :: Valid(components[i]) && components[i] != []
    ensures DecodeAll(HexAll(components)) == Components(components)
  {
    hide HexEncode, HexDecode, Valid;
    if components != [] {
      var first, rest := components[0], components[1..];
      DecodeHex(first);
      DecodeAllHex(rest);
      assert HexAll(components) == [HexEncode(first)] + HexAll(rest);
      DecodeFirst(HexEncode(first), HexAll(rest), first, rest);
      assert components == [first] + rest;
    }
  }

  lemma {:induction false} JoinAvoids(parts: seq<Bytes>, separator: byte, other: byte)
    requires parts != [] && separator != other && forall p | p in parts :: other !in p
    ensures other !in Join(parts, separator)
    ensures parts[0] != [] ==> Join(parts, separator) != []
  {
    if |parts| > 1 {
      JoinAvoids(parts[1..], separator, other);
    }
  }

  lemma {:induction false} PrintedComponentsLength(components: seq<Bytes>)
    requires components != []
    ensures |Join(HexAll(components), SLASH)| + 1 <= 2 * TotalLength(components)
    decreases |components|
  {
    var front, last := components[..|components| - 1], components[|components| - 1];
    if front == [] {
      assert HexAll(components) == [HexEncode(last)];
    } else {
      PrintedComponentsLength(front);
      assert HexAll(components) == HexAll(front) + [HexEncode(last)];
      JoinAppend(HexAll(front), HexEncode(last), SLASH);
    }
  }

  lemma {:induction false} JoinAppend(parts: seq<Bytes>, last: Bytes, separator: byte)
    requires parts != []
    ensures Join(parts + [last], separator) == Join(parts, separator) + [separator] + last
  {
    if |parts| > 1 {
      JoinAppend(parts[1..], last, separator);
      assert (parts + [last])[1..] == parts[1..] + [last];
    } else {
      assert (parts + [last])[1..] == [last];
    }
  }

  /** The length guard of the parser is generous enough for every valid key. */
  lemma PrintedLengthFits(key: Key)
    requires ValidKey(key)
    ensures |Print(key)| <= MAX_PROJECT_PATH_BYTES * 2 + 128
  {
    FourFields(key);
    if key.components != [] {
      PrintedComponentsLength(key.components);
    }
  }

  lemma FourFields(key: Key)
    ensures Print(key)
            == VERSION + [BAR]
               + (PrintKind(key.root) + [BAR] + (PrintRoot(key.root) + [BAR] + PrintComponents(key.components)))
  {
    var a, b, c, d := VERSION, PrintKind(key.root), PrintRoot(key.root), PrintComponents(key.components);
    assert [a, b, c, d][1..] == [b, c, d] && [b, c, d][1..] == [c, d] && [c, d][1..] == [d];
    assert Join([c, d], BAR) == c + [BAR] + d;
    assert Join([b, c, d], BAR) == b + [BAR] + Join([c, d], BAR);
    assert Print(key) == a + [BAR] + Join([b, c, d], BAR);
  }

  /** The printed form of a network path, a drive path and a root. */
  lemma PrintedExamples()
    ensures Print(Key(WindowsUnc([0x73], [0x7A]), [[0x61], [0x62, 0x6F]])) == Ascii("mtpk1|u|73:7a|61/626f")
    ensures Print(Key(WindowsDrive([0x43]), [[0x61]])) == Ascii("mtpk1|d|C|61")
    ensures Print(Key(Posix, [])) == Ascii("mtpk1|p||")
  {
    hide HexEncode, PrintComponents, Print;
    PrintedNetworkPath();
    PrintedDrivePath();
    PrintedRoot();
  }

  lemma PrintedNetworkPath()
    ensures Print(Key(WindowsUnc([0x73], [0x7A]), [[0x61], [0x62, 0x6F]])) == Ascii("mtpk1|u|73:7a|61/626f")
  {
    hide HexEncode, PrintComponents, Print;
    HexOfExamples();
    FourFields(Key(WindowsUnc([0x73], [0x7A]), [[0x61], [0x62, 0x6F]]));
  }

  lemma PrintedDrivePath()
    ensures Print(Key(WindowsDrive([0x43]), [[0x61]])) == Ascii("mtpk1|d|C|61")
  {
    hide HexEncode, PrintComponents, Print;
    HexOfExamples();
    FourFields(Key(WindowsDrive([0x43]), [[0x61]]));
  }

  lemma PrintedRoot()
    ensures Print(Key(Posix, [])) == Ascii("mtpk1|p||")
  {
    hide Print;
    FourFields(Key(Posix, []));
  }

  lemma HexOfExamples()
    ensures HexEncode([0x61]) == Ascii("61") && HexEncode([0x73]) == Ascii("73") && HexEncode([0x7A]) == Ascii("7a")
    ensures HexEncode([0x62, 0x6F]) == Ascii("626f")
    ensures PrintComponents([[0x61]]) == Ascii("61") && PrintComponents([[0x61], [0x62, 0x6F]]) == Ascii("61/626f")
  {
    assert [0x62, 0x6F][..1] == [0x62] && [0x62][..0] == [];
    assert HexEncode([0x62, 0x6F]) == HexEncode([0x62]) + [0x36, 0x66];
    assert HexAll([[0x61]]) == [HexEncode([0x61])];
    assert HexAll([[0x61], [0x62, 0x6F]]) == [HexEncode([0x61]), HexEncode([0x62, 0x6F])];
    assert [HexEncode([0x61]), HexEncode([0x62, 0x6F])][1..] == [HexEncode([0x62, 0x6F])];
  }

  lemma PrintedFieldsHaveNoBar(key: Key)
    requires ValidKey(key)
    ensures forall p | p in [VERSION, PrintKind(key.root), PrintRoot(key.root), PrintComponents(key.components)] ::
              BAR !in p
  {
    if key.components != [] {
      var parts := HexAll(key.components);
      JoinAvoids(parts, SLASH, BAR);
    }
  }

  lemma PrintedReadsBack(key: Key)
    requires ValidKey(key) && Valid(Print(key))
    ensures Parse(Print(key)) == Parsed(key)
  {
    var value := Print(key);
    var fields := [VERSION, PrintKind(key.root), PrintRoot(key.root), PrintComponents(key.components)];
    PrintedLengthFits(key);
    PrintedFieldsHaveNoBar(key);
    SplitJoin(fields, BAR);
    SplitKeepsValid(value, BAR);
    assert fields[2] in Split(value, BAR);
    RootRoundTrip(key.root);
    ComponentsRoundTrip(key);
  }

  lemma SplitPair(a: Bytes, b: Bytes, separator: byte)
    requires separator !in a && separator !in b
    ensures Split(a + [separator] + b, separator) == [a, b]
  {
    SplitPrefix(a, b, separator);
    SplitPrefix(b, [], separator);
  }

  lemma UncRoundTrip(server: Bytes, share: Bytes)
    requires server != [] && share != [] && Valid(server) && Valid(share)
    requires Valid(PrintRoot(WindowsUnc(server, share)))
    ensures ParseRoot(PrintKind(WindowsUnc(server, share)), PrintRoot(WindowsUnc(server, share)))
            == ParsedRoot(WindowsUnc(server, share))
  {
    hide HexEncode, HexDecode, HexBytes, Valid;
    var a, b := HexEncode(server), HexEncode(share);
    SplitPair(a, b, COLON);
    var halves := Split(PrintRoot(WindowsUnc(server, share)), COLON);
    assert halves == [a, b];
    assert halves[1..] == [b] && Join([b], COLON) == b;
    DecodeHex(server);
    DecodeHex(share);
  }

  lemma RootRoundTrip(root: Root)
    requires ValidRoot(root) && IsText(Key(root, [])) && Valid(PrintRoot(root))
    ensures ParseRoot(PrintKind(root), PrintRoot(root)) == ParsedRoot(root)
  {
    if root.WindowsUnc? {
      UncRoundTrip(root.server, root.share);
    }
  }

  lemma ComponentsRoundTrip(key: Key)
    requires ValidKey(key)
    ensures ParseComponents(PrintComponents(key.components)) == Components(key.components)
  {
    if key.components != [] {
      var parts := HexAll(key.components);
      assert key.components[0] in key.components;
      JoinAvoids(parts, SLASH, BAR);
      SplitJoin(parts, SLASH);
      forall i | 0 <= i < |key.components| ensures Valid(key.components[i]) && key.components[i] != [] {
        assert key.components[i] in key.components;
      }
      DecodeAllHex(key.components);
    }
  }

  /** What is printed is ASCII, hence text. */
  predicate IsAscii(s: Bytes) {
    forall i | 0 <= i < |s| :: s[i] < 0x80
  }

  lemma {:induction false} AsciiIsValid(s: Bytes)
    requires IsAscii(s)
    ensures Valid(s)
  {
    if s != [] {
      AsciiIsValid(s[1..]);
    }
  }

  lemma {:induction false} HexIsAscii(s: Bytes)
    ensures IsAscii(HexEncode(s))
  {
    if s != [] {
      HexIsAscii(s[..|s| - 1]);
    }
  }

  lemma {:induction false} JoinIsAscii(parts: seq<Bytes>, separator: byte)
    requires parts != [] && separator < 0x80 && forall p | p in parts :: IsAscii(p)
    ensures IsAscii(Join(parts, separator))
  {
    assert IsAscii(parts[0]) by { assert parts[0] in parts; }
    if |parts| > 1 {
      JoinIsAscii(parts[1..], separator);
    }
  }

  lemma PrintedIsText(key: Key)
    requires ValidKey(key)
    ensures Valid(Print(key))
  {
    if key.root.WindowsUnc? {
      HexIsAscii(key.root.server);
      HexIsAscii(key.root.share);
    }
    if key.components != [] {
      var parts := HexAll(key.components);
      forall p | p in parts ensures IsAscii(p) {
        var i :| 0 <= i < |parts| && parts[i] == p;
        HexIsAscii(key.components[i]);
      }
      JoinIsAscii(parts, SLASH);
    }
    JoinIsAscii([VERSION, PrintKind(key.root), PrintRoot(key.root), PrintComponents(key.components)], BAR);
    AsciiIsValid(Print(key));
  }

  /** Parsing the printed form of a valid key returns that key; its length is never an obstacle. */
  lemma RoundTrip(key: Key)
    requires ValidKey(key)
    ensures Valid(Print(key))
    ensures Parse(Print(key)) == Parsed(key) && |Print(key)| <= MAX_PROJECT_PATH_BYTES * 2 + 128
  {
    hide Parse, Print, ValidKey;
    PrintedIsText(key);
    PrintedReadsBack(key);
    PrintedLengthFits(key);
  }

  /**
   Parsing and printing are inverse: the accepted strings are exactly the printed forms of the valid
   keys, each accepted string denotes one key, and no two valid keys print alike.
   */
  lemma AcceptedIffPrinted(value: Bytes, key: Key)
    requires Valid(value)
    ensures Parse(value) == Parsed(key) <==> ValidKey(key) && Print(key) == value
  {
    if ValidKey(key) && Print(key) == value {
      RoundTrip(key);
    }
  }

  lemma PrintIsInjective(a: Key, b: Key)
    requires ValidKey(a) && ValidKey(b) && Print(a) == Print(b)
    ensures a == b
  {
    RoundTrip(a);
    RoundTrip(b);
  }
}
