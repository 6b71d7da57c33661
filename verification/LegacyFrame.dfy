/**
 The binary frame of the original implementation: a little-endian command type, a
 mixed-endian GUID, and a UTF-8 text behind a 7-bit length prefix.
 */
module LegacyFrame {
  import opened Protocol

  type Int32 = i: int | -0x8000_0000 <= i < 0x8000_0000
  type UInt32 = n: int | 0 <= n < 0x1_0000_0000
  type UInt16 = n: int | 0 <= n < 0x1_0000
  type Eight = d: Bytes | |d| == 8 witness [0, 0, 0, 0, 0, 0, 0, 0]

  const MAX_INT32 := 0x7FFF_FFFF

  datatype Guid = Guid(a: UInt32, b: UInt16, c: UInt16, d: Eight)

  // The command type is a cast integer: Echo 1, HttpRequest 2, HttpResponse 3, NtunlInfo 4.
  datatype Command = Command(commandType: Int32, conversationId: Guid, data: string)

  datatype FrameError = EndOfStream | BadGuid | BadLength | NegativeLength

  // Garbled: well framed, but the text bytes are not UTF-8.
  datatype Outcome =
    | Parsed(command: Command)
    | Garbled(commandType: Int32, conversationId: Guid)
    | Failed(error: FrameError)

  // Little-endian integers.

  function LittleEndian(n: nat, width: nat): Bytes {
    if width == 0 then [] else [n % 256] + LittleEndian(n / 256, width - 1)
  }

  function FromLittleEndian(bytes: Bytes): nat {
    if bytes == [] then 0 else bytes[0] + 256 * FromLittleEndian(bytes[1..])
  }

  function Power256(width: nat): nat { if width == 0 then 1 else 256 * Power256(width - 1) }

  lemma {:induction false} LittleEndianInverse(n: nat, width: nat)
    requires n < Power256(width)
    ensures |LittleEndian(n, width)| == width && FromLittleEndian(LittleEndian(n, width)) == n
  {
    if width > 0 {
      LittleEndianInverse(n / 256, width - 1);
      assert LittleEndian(n, width)[1..] == LittleEndian(n / 256, width - 1);
    }
  }

  lemma {:induction false} LittleEndianRestores(bytes: Bytes)
    ensures LittleEndian(FromLittleEndian(bytes), |bytes|) == bytes
  {
    if bytes != [] {
      LittleEndianRestores(bytes[1..]);
      assert FromLittleEndian(bytes) % 256 == bytes[0];
    }
  }

  lemma {:induction false} FromLittleEndianBound(bytes: Bytes)
    ensures FromLittleEndian(bytes) < Power256(|bytes|)
  {
    if bytes != [] { FromLittleEndianBound(bytes[1..]); }
  }

  lemma SmallPowers()
    ensures Power256(2) == 0x1_0000 && Power256(4) == 0x1_0000_0000
  {
    assert Power256(1) == 256 && Power256(3) == 256 * Power256(2);
  }

  function ToUnsigned(i: Int32): UInt32 { if i < 0 then i + 0x1_0000_0000 else i }

  function ToSigned(n: UInt32): Int32 { if n >= 0x8000_0000 then n - 0x1_0000_0000 else n }

  // GUIDs: the first three fields little-endian, the last eight bytes as they are.

  function GuidBytes(g: Guid): Bytes {
    LittleEndian(g.a, 4) + LittleEndian(g.b, 2) + LittleEndian(g.c, 2) + g.d
  }

  function GuidFrom(bytes: Bytes): Guid
    requires |bytes| == 16
  {
    FromLittleEndianBound(bytes[..4]);
    FromLittleEndianBound(bytes[4..6]);
    FromLittleEndianBound(bytes[6..8]);
    SmallPowers();
    Guid(FromLittleEndian(bytes[..4]), FromLittleEndian(bytes[4..6]), FromLittleEndian(bytes[6..8]), bytes[8..])
  }

  lemma GuidInverse(g: Guid)
    ensures |GuidBytes(g)| == 16 && GuidFrom(GuidBytes(g)) == g
  {
    SmallPowers();
    LittleEndianInverse(g.a, 4);
    LittleEndianInverse(g.b, 2);
    LittleEndianInverse(g.c, 2);
    var bytes := GuidBytes(g);
    assert bytes[..4] == LittleEndian(g.a, 4);
    assert bytes[4..6] == LittleEndian(g.b, 2);
    assert bytes[6..8] == LittleEndian(g.c, 2);
    assert bytes[8..] == g.d;
  }

  lemma GuidRestores(bytes: Bytes)
    requires |bytes| == 16
    ensures GuidBytes(GuidFrom(bytes)) == bytes
  {
    LittleEndianRestores(bytes[..4]);
    LittleEndianRestores(bytes[4..6]);
    LittleEndianRestores(bytes[6..8]);
    assert bytes == bytes[..4] + bytes[4..6] + bytes[6..8] + bytes[8..];
  }

  // UTF-8, section 3 of RFC 3629.  A Dafny char is a Unicode scalar value.

  function EncodeChar(c: char): (r: Bytes)
    ensures 1 <= |r| <= 4
  {
    var n := c as int;
    var p := n / 64;
    var q := p / 64;
    if n < 0x80 then [n]
    else if n < 0x800 then [0xC0 + p, 0x80 + n % 64]
    else if n < 0x1_0000 then [0xE0 + q, 0x80 + p % 64, 0x80 + n % 64]
    else [0xF0 + q / 64, 0x80 + q % 64, 0x80 + p % 64, 0x80 + n % 64]
  }

  predicate IsTail(b: int) { 0x80 <= b < 0xC0 }

  predicate IsScalar(n: int) { 0 <= n < 0xD800 || 0xE000 <= n < 0x11_0000 }

  // The first character of some bytes and its length, if they start with a shortest-form
  // encoding of a scalar value.
  function DecodeChar(b: Bytes): Option<(char, nat)> {
    var b0: int := if |b| > 0 then b[0] else 0x80;
    var b1: int := if |b| > 1 then b[1] else 0;
    var b2: int := if |b| > 2 then b[2] else 0;
    var b3: int := if |b| > 3 then b[3] else 0;
    if b0 < 0x80 then Some((b0 as char, 1))
    else if 0xC0 <= b0 < 0xE0 && IsTail(b1) then
      var n := (b0 - 0xC0) * 64 + (b1 - 0x80);
      if n >= 0x80 then Some((n as char, 2)) else None
    else if 0xE0 <= b0 < 0xF0 && IsTail(b1) && IsTail(b2) then
      var n := ((b0 - 0xE0) * 64 + (b1 - 0x80)) * 64 + (b2 - 0x80);
      if n >= 0x800 && IsScalar(n) then Some((n as char, 3)) else None
    else if 0xF0 <= b0 < 0xF8 && IsTail(b1) && IsTail(b2) && IsTail(b3) then
      var n := (((b0 - 0xF0) * 64 + (b1 - 0x80)) * 64 + (b2 - 0x80)) * 64 + (b3 - 0x80);
      if n >= 0x1_0000 && IsScalar(n) then Some((n as char, 4)) else None
    else None
  }

  function Utf8(s: string): Bytes {
    if s == "" then [] else EncodeChar(s[0]) + Utf8(s[1..])
  }

  function FromUtf8(b: Bytes): Option<string>
    decreases |b|
  {
    if b == [] then Some("")
    else
      match DecodeChar(b)
      case None => None
      case Some((c, n)) =>
        match FromUtf8(b[n..])
        case None => None
        case Some(rest) => Some([c] + rest)
  }

  // The table in section 3 of RFC 3629.

  ghost predicate IsOf2(n: int, b0: int, b1: int) {
    0xC0 <= b0 < 0xE0 && 0x80 <= b1 < 0xC0 && n == 0x40 * (b0 - 0xC0) + (b1 - 0x80)
  }

  ghost predicate IsOf3(n: int, b0: int, b1: int, b2: int) {
    && 0xE0 <= b0 < 0xF0 && 0x80 <= b1 < 0xC0 && 0x80 <= b2 < 0xC0
    && n == 0x1000 * (b0 - 0xE0) + 0x40 * (b1 - 0x80) + (b2 - 0x80)
  }

  ghost predicate IsOf4(n: int, b0: int, b1: int, b2: int, b3: int) {
    && 0xF0 <= b0 < 0xF8 && 0x80 <= b1 < 0xC0 && 0x80 <= b2 < 0xC0 && 0x80 <= b3 < 0xC0
    && n == 0x4_0000 * (b0 - 0xF0) + 0x1000 * (b1 - 0x80) + 0x40 * (b2 - 0x80) + (b3 - 0x80)
  }

  lemma EncodeCharLayout(c: char)
    ensures var n, b := c as int, EncodeChar(c);
            if n < 0x80 then b == [n]
            else if n < 0x800 then |b| == 2 && IsOf2(n, b[0], b[1])
            else if n < 0x1_0000 then |b| == 3 && IsOf3(n, b[0], b[1], b[2])
            else |b| == 4 && IsOf4(n, b[0], b[1], b[2], b[3])
  {}

  lemma {:induction false} Utf8Concat(s: string, t: string)
    ensures Utf8(s + t) == Utf8(s) + Utf8(t)
  {
    if s == "" {
      assert s + t == t;
    } else {
      assert (s + t)[1..] == s[1..] + t;
      Utf8Concat(s[1..], t);
    }
  }

  // A text of ASCII characters is its own bytes.
  lemma {:induction false} AsciiIsItself(text: string)
    requires forall i | 0 <= i < |text| :: text[i] as int < 0x80
    ensures |Utf8(text)| == |text| && forall i | 0 <= i < |text| :: Utf8(text)[i] == text[i] as int
  {
    if text != "" {
      EncodeCharLayout(text[0]);
      AsciiIsItself(text[1..]);
    }
  }

  lemma DecodeEncodedChar(c: char, rest: Bytes)
    ensures DecodeChar(EncodeChar(c) + rest) == Some((c, |EncodeChar(c)|))
  {}

  // Numbers from their digits in base 64.

  lemma Digits64(high: nat, low: nat)
    requires low < 64
    ensures (high * 64 + low) / 64 == high && (high * 64 + low) % 64 == low
  {}

  predicate Restores(b: Bytes, c: char, n: nat) { n <= |b| && EncodeChar(c) == b[..n] }

  lemma EncodeTwo(b0: int, b1: int)
    requires 0xC0 <= b0 < 0xE0 && IsTail(b1) && (b0 - 0xC0) * 64 + (b1 - 0x80) >= 0x80
    ensures EncodeChar(((b0 - 0xC0) * 64 + (b1 - 0x80)) as char) == [b0, b1]
  {
    Digits64(b0 - 0xC0, b1 - 0x80);
  }

  lemma EncodeThree(b0: int, b1: int, b2: int)
    requires 0xE0 <= b0 < 0xF0 && IsTail(b1) && IsTail(b2)
    requires var n := ((b0 - 0xE0) * 64 + (b1 - 0x80)) * 64 + (b2 - 0x80); n >= 0x800 && IsScalar(n)
    ensures EncodeChar((((b0 - 0xE0) * 64 + (b1 - 0x80)) * 64 + (b2 - 0x80)) as char) == [b0, b1, b2]
  {
    Digits64(b0 - 0xE0, b1 - 0x80);
    Digits64((b0 - 0xE0) * 64 + (b1 - 0x80), b2 - 0x80);
  }

  lemma EncodeFour(b0: int, b1: int, b2: int, b3: int)
    requires 0xF0 <= b0 < 0xF8 && IsTail(b1) && IsTail(b2) && IsTail(b3)
    requires var n := (((b0 - 0xF0) * 64 + (b1 - 0x80)) * 64 + (b2 - 0x80)) * 64 + (b3 - 0x80);
             n >= 0x1_0000 && IsScalar(n)
    ensures EncodeChar(((((b0 - 0xF0) * 64 + (b1 - 0x80)) * 64 + (b2 - 0x80)) * 64 + (b3 - 0x80)) as char)
         == [b0, b1, b2, b3]
  {
    var high := (b0 - 0xF0) * 64 + (b1 - 0x80);
    Digits64(b0 - 0xF0, b1 - 0x80);
    Digits64(high, b2 - 0x80);
    Digits64(high * 64 + (b2 - 0x80), b3 - 0x80);
  }

  lemma EncodeDecodedChar(b: Bytes)
    requires DecodeChar(b).Some?
    ensures Restores(b, DecodeChar(b).value.0, DecodeChar(b).value.1)
  {
    var n := DecodeChar(b).value.1;
    if n == 2 {
      EncodeTwo(b[0], b[1]);
    } else if n == 3 {
      EncodeThree(b[0], b[1], b[2]);
    } else if n == 4 {
      EncodeFour(b[0], b[1], b[2], b[3]);
    }
  }

  lemma DecodedParts(b: Bytes)
    requires b != [] && FromUtf8(b).Some?
    ensures DecodeChar(b).Some?
    ensures var (c, n) := DecodeChar(b).value;
            Restores(b, c, n) && FromUtf8(b[n..]).Some? && FromUtf8(b).value == [c] + FromUtf8(b[n..]).value
  {
    EncodeDecodedChar(b);
  }

  lemma Utf8Cons(c: char, rest: string)
    ensures Utf8([c] + rest) == EncodeChar(c) + Utf8(rest)
  {
    assert ([c] + rest)[1..] == rest;
  }

  lemma {:induction false} Utf8Decodes(s: string)
    ensures FromUtf8(Utf8(s)) == Some(s)
  {
    if s != "" {
      var rest := Utf8(s[1..]);
      DecodeEncodedChar(s[0], rest);
      assert Utf8(s)[|EncodeChar(s[0])|..] == rest;
      Utf8Decodes(s[1..]);
      assert [s[0]] + s[1..] == s;
    }
  }

  lemma {:induction false} DecodedIsUtf8(b: Bytes)
    requires FromUtf8(b).Some?
    ensures Utf8(FromUtf8(b).value) == b
    decreases |b|
  {
    if b != [] {
      DecodedParts(b);
      var (c, n) := DecodeChar(b).value;
      DecodedIsUtf8(b[n..]);
      Utf8Cons(c, FromUtf8(b[n..]).value);
      JoinSlices(b, n, |b| - n);
    }
  }

  lemma JoinSlices(b: Bytes, n: nat, m: nat)
    requires n + m <= |b|
    ensures b[..n] + b[n..n + m] == b[..n + m]
    ensures n + m == |b| ==> b[..n] + b[n..] == b
  {}

  // Bytes decode to a text exactly when they are its encoding.
  lemma Utf8Inverse(b: Bytes, s: string)
    ensures FromUtf8(b) == Some(s) <==> b == Utf8(s)
  {
    Utf8Decodes(s);
    if FromUtf8(b) == Some(s) { DecodedIsUtf8(b); }
  }

  // The 7-bit length prefix.

  function Prefix(n: nat): Bytes {
    if n < 128 then [n] else [n % 128 + 128] + Prefix(n / 128)
  }

  // The prefix's value and length; i bytes of it have been read already.  A fifth byte may
  // carry four bits only.
  function ReadPrefix(b: Bytes, i: nat): Result<(nat, nat), FrameError>
    decreases |b|
  {
    if b == [] then Err(EndOfStream)
    else if i >= 4 then
      if b[0] > 15 then Err(BadLength) else Ok((b[0], 1))
    else if b[0] < 128 then Ok((b[0], 1))
    else
      match ReadPrefix(b[1..], i + 1)
      case Err(e) => Err(e)
      case Ok((v, n)) => Ok((b[0] - 128 + 128 * v, n + 1))
  }

  // What fits in the bytes still allowed after i of them.
  function Room(i: nat): nat
    requires i <= 4
  {
    if i == 0 then 0x1_0000_0000
    else if i == 1 then 0x200_0000
    else if i == 2 then 0x4_0000
    else if i == 3 then 0x800
    else 16
  }

  lemma {:induction false} PrefixInverse(n: nat, i: nat, rest: Bytes)
    requires i <= 4 && n < Room(i)
    ensures ReadPrefix(Prefix(n) + rest, i) == Ok((n, |Prefix(n)|))
    ensures 1 <= |Prefix(n)| <= 5 - i
  {
    if n >= 128 {
      PrefixInverse(n / 128, i + 1, rest);
      assert (Prefix(n) + rest)[1..] == Prefix(n / 128) + rest;
    }
  }

  // The number that groups of seven bits make, the lowest group first.
  function Sevens(b: Bytes): nat {
    if b == [] then 0 else b[0] % 128 + 128 * Sevens(b[1..])
  }

  // The prefix itself: its groups make the number, and every byte but the last has its high
  // bit set.
  lemma {:induction false} PrefixLayout(n: nat)
    ensures var p := Prefix(n);
            && |p| > 0 && Sevens(p) == n && p[|p| - 1] < 128
            && forall i | 0 <= i < |p| - 1 :: p[i] >= 128
  {
    var p := Prefix(n);
    if n < 128 {
      assert p[1..] == [];
    } else {
      PrefixLayout(n / 128);
      assert p[1..] == Prefix(n / 128);
    }
  }

  // A prefix of n bytes that no shorter one could replace.
  predicate IsShortest(b: Bytes, n: nat) { 0 < n <= |b| && (n == 1 || b[n - 1] != 0) }

  lemma {:induction false} PrefixIsShortest(n: nat)
    ensures IsShortest(Prefix(n), |Prefix(n)|)
    ensures n > 0 ==> Prefix(n)[|Prefix(n)| - 1] != 0
  {
    if n >= 128 { PrefixIsShortest(n / 128); }
  }

  lemma {:induction false} ShortestIsPrefix(b: Bytes, i: nat)
    requires ReadPrefix(b, i).Ok? && IsShortest(b, ReadPrefix(b, i).value.1)
    ensures Prefix(ReadPrefix(b, i).value.0) == b[..ReadPrefix(b, i).value.1]
    decreases |b|
  {
    if i < 4 && b[0] >= 128 {
      ShortestIsPrefix(b[1..], i + 1);
      var (v, n) := ReadPrefix(b[1..], i + 1).value;
      assert b[1..][n - 1] == b[n];
      assert v > 0;
      assert b[..n + 1] == [b[0]] + b[1..][..n];
    }
  }

  // ToBytes and FromBytes as functions.

  function Frame(c: Command): Bytes {
    LittleEndian(ToUnsigned(c.commandType), 4) + GuidBytes(c.conversationId) + Prefix(|Utf8(c.data)|) + Utf8(c.data)
  }

  // The bytes behind a length prefix.
  function Counted(b: Bytes): Result<Bytes, FrameError> {
    match ReadPrefix(b, 0)
    case Err(e) => Err(e)
    case Ok((length, n)) =>
      if length > MAX_INT32 then Err(NegativeLength)
      else if n + length > |b| then Err(EndOfStream)
      else Ok(b[n..n + length])
  }

  function ParseText(b: Bytes): Result<Option<string>, FrameError> {
    match Counted(b)
    case Err(e) => Err(e)
    case Ok(bytes) => Ok(FromUtf8(bytes))
  }

  function Parse(b: Bytes): Outcome {
    if |b| < 4 then Failed(EndOfStream)
    else if |b| < 20 then Failed(BadGuid)
    else
      FromLittleEndianBound(b[..4]);
      SmallPowers();
      var commandType := ToSigned(FromLittleEndian(b[..4]));
      var id := GuidFrom(b[4..20]);
      match ParseText(b[20..])
      case Err(e) => Failed(e)
      case Ok(None) => Garbled(commandType, id)
      case Ok(Some(text)) => Parsed(Command(commandType, id, text))
  }

  lemma ParseTextInverse(text: string, rest: Bytes)
    requires |Utf8(text)| <= MAX_INT32
    ensures ParseText(Prefix(|Utf8(text)|) + Utf8(text) + rest) == Ok(Some(text))
  {
    var bytes := Utf8(text);
    var p := Prefix(|bytes|);
    var all := p + bytes + rest;
    assert all == p + (bytes + rest);
    PrefixInverse(|bytes|, 0, bytes + rest);
    assert all[|p|..|p| + |bytes|] == bytes;
    Utf8Inverse(bytes, text);
  }

  // The frame round trip: whatever follows a frame, reading it back gives the command.
  lemma FrameRoundTrip(c: Command, suffix: Bytes)
    requires |Utf8(c.data)| <= 0x7FFF_FFFF
    ensures Parse(Frame(c) + suffix) == Parsed(c)
  {
    var head, id := LittleEndian(ToUnsigned(c.commandType), 4), GuidBytes(c.conversationId);
    var text := Prefix(|Utf8(c.data)|) + Utf8(c.data) + suffix;
    HeadInverse(c);
    ParseTextInverse(c.data, suffix);
    assert Frame(c) + suffix == head + id + text;
    PartsAreSlices(head, id, text);
  }

  lemma HeadInverse(c: Command)
    ensures var head := LittleEndian(ToUnsigned(c.commandType), 4);
            |head| == 4 && FromLittleEndian(head) < 0x1_0000_0000 && ToSigned(FromLittleEndian(head)) == c.commandType
    ensures FromLittleEndian(LittleEndian(ToUnsigned(c.commandType), 4)) == ToUnsigned(c.commandType)
    ensures |GuidBytes(c.conversationId)| == 16 && GuidFrom(GuidBytes(c.conversationId)) == c.conversationId
  {
    SmallPowers();
    LittleEndianInverse(ToUnsigned(c.commandType), 4);
    GuidInverse(c.conversationId);
  }

  lemma PartsAreSlices(head: Bytes, id: Bytes, text: Bytes)
    requires |head| == 4 && |id| == 16
    ensures var b := head + id + text; |b| >= 20 && b[..4] == head && b[4..20] == id && b[20..] == text
  {}

  function Two(low: int, high: int): int { low + 0x100 * high }

  function Four(b0: int, b1: int, b2: int, b3: int): int { b0 + 0x100 * b1 + 0x1_0000 * b2 + 0x100_0000 * b3 }

  // The layout itself: the type's low byte first, the GUID's first three fields with their
  // low bytes first and its last eight bytes in order, then the counted text.
  lemma FrameLayout(c: Command)
    ensures var b, g := Frame(c), c.conversationId;
            && |b| >= 20
            && ToUnsigned(c.commandType) == Four(b[0], b[1], b[2], b[3])
            && g.a == Four(b[4], b[5], b[6], b[7]) && g.b == Two(b[8], b[9])
            && g.c == Two(b[10], b[11]) && g.d == b[12..20]
            && b[20..] == Prefix(|Utf8(c.data)|) + Utf8(c.data)
  {
    var head, id := LittleEndian(ToUnsigned(c.commandType), 4), GuidBytes(c.conversationId);
    var text := Prefix(|Utf8(c.data)|) + Utf8(c.data);
    HeadInverse(c);
    assert Frame(c) == head + id + text;
    PartsAreSlices(head, id, text);
    FourBytes(head);
    FourBytes(id[..4]);
    TwoBytes(id[4..6]);
    TwoBytes(id[6..8]);
  }

  lemma TwoBytes(b: Bytes)
    requires |b| == 2
    ensures FromLittleEndian(b) == Two(b[0], b[1])
  {
    assert b[1..][1..] == [];
    assert FromLittleEndian(b[1..]) == b[1];
  }

  lemma FourBytes(b: Bytes)
    requires |b| == 4
    ensures FromLittleEndian(b) == Four(b[0], b[1], b[2], b[3])
  {
    TwoBytes(b[2..]);
    assert b[1..][1..] == b[2..];
  }

  lemma {:induction false} CutPrefixFails(n: nat, i: nat, b: Bytes)
    requires i <= 4 && n < Room(i) && b < Prefix(n)
    ensures ReadPrefix(b, i) == Err(EndOfStream)
  {
    if b != [] {
      assert n >= 128 && b[0] == Prefix(n)[0];
      assert b[1..] < Prefix(n / 128);
      CutPrefixFails(n / 128, i + 1, b[1..]);
    }
  }

  // A frame cut short anywhere is refused: in the GUID as a bad one, elsewhere as the end of
  // the stream.
  lemma CutFrameFails(c: Command, b: Bytes)
    requires |Utf8(c.data)| <= 0x7FFF_FFFF && b < Frame(c)
    ensures Parse(b) == Failed(if 4 <= |b| < 20 then BadGuid else EndOfStream)
  {
    HeadInverse(c);
    if |b| >= 20 {
      var bytes, text := Utf8(c.data), b[20..];
      var p := Prefix(|bytes|);
      assert Frame(c)[20..] == p + bytes;
      assert text == (p + bytes)[..|text|];
      if |text| < |p| {
        assert text == p[..|text|];
        CutPrefixFails(|bytes|, 0, text);
      } else {
        assert text == p + bytes[..|text| - |p|];
        PrefixInverse(|bytes|, 0, bytes[..|text| - |p|]);
      }
    }
  }

  // A length that is negative as an int32 is refused, whatever follows it.
  lemma NegativeLengthFails(head: Bytes, n: nat, rest: Bytes)
    requires |head| == 20 && 0x8000_0000 <= n < 0x1_0000_0000
    ensures Parse(head + (Prefix(n) + rest)) == Failed(NegativeLength)
  {
    PrefixInverse(n, 0, rest);
    assert (head + (Prefix(n) + rest))[20..] == Prefix(n) + rest;
  }

  // Frames are injective and prefix-free.
  lemma FramesArePrefixFree(c: Command, d: Command, s: Bytes, t: Bytes)
    requires |Utf8(c.data)| <= MAX_INT32 && |Utf8(d.data)| <= MAX_INT32
    requires Frame(c) + s == Frame(d) + t
    ensures c == d && s == t
  {
    FrameRoundTrip(c, s);
    FrameRoundTrip(d, t);
    assert s == (Frame(c) + s)[|Frame(c)|..] && t == (Frame(d) + t)[|Frame(d)|..];
  }

  function TextBytes(text: string): Bytes { Prefix(|Utf8(text)|) + Utf8(text) }

  lemma ShortestIsFramed(b: Bytes, n: nat, bytes: Bytes)
    requires ReadPrefix(b, 0) == Ok((|bytes|, n)) && n + |bytes| <= |b| && b[n..n + |bytes|] == bytes
    requires IsShortest(b, n)
    ensures Prefix(|bytes|) + bytes <= b
  {
    ShortestIsPrefix(b, 0);
    JoinSlices(b, n, |bytes|);
  }

  lemma FramedIsShortest(b: Bytes, n: nat, length: nat)
    requires ReadPrefix(b, 0) == Ok((length, n)) && length <= MAX_INT32
    requires Prefix(length) <= b
    ensures IsShortest(b, n)
  {
    var p := Prefix(length);
    PrefixIsShortest(length);
    assert b == p + b[|p|..];
    PrefixInverse(length, 0, b[|p|..]);
    assert |p| == n && b[n - 1] == p[n - 1];
  }

  lemma PrefixOfConcat(p: Bytes, q: Bytes, b: Bytes)
    requires p + q <= b
    ensures p <= b
  {
    assert b[..|p|] == (p + q)[..|p|];
  }

  // Counted bytes stand behind their own prefix exactly when it is not padded.
  lemma CountedBytes(b: Bytes, n: nat, bytes: Bytes)
    requires ReadPrefix(b, 0) == Ok((|bytes|, n)) && n + |bytes| <= |b| && b[n..n + |bytes|] == bytes
    requires |bytes| <= MAX_INT32
    ensures Prefix(|bytes|) + bytes <= b <==> IsShortest(b, n)
  {
    if IsShortest(b, n) { ShortestIsFramed(b, n, bytes); }
    if Prefix(|bytes|) + bytes <= b {
      PrefixOfConcat(Prefix(|bytes|), bytes, b);
      FramedIsShortest(b, n, |bytes|);
    }
  }

  lemma TextMeansFramed(b: Bytes, text: string)
    requires ParseText(b) == Ok(Some(text))
    ensures |Utf8(text)| <= MAX_INT32
    ensures TextBytes(text) <= b <==> IsShortest(b, ReadPrefix(b, 0).value.1)
  {
    var (length, n) := ReadPrefix(b, 0).value;
    Utf8Inverse(b[n..n + length], text);
    CountedBytes(b, n, b[n..n + length]);
  }

  function HeadOf(c: Command): Bytes {
    LittleEndian(ToUnsigned(c.commandType), 4) + GuidBytes(c.conversationId)
  }

  lemma HeadRestores(b: Bytes, c: Command)
    requires Parse(b) == Parsed(c)
    ensures HeadOf(c) == b[..20]
  {
    LittleEndianRestores(b[..4]);
    GuidRestores(b[4..20]);
    assert ToUnsigned(c.commandType) == FromLittleEndian(b[..4]) by {
      FromLittleEndianBound(b[..4]);
      SmallPowers();
    }
    assert b[..20] == b[..4] + b[4..20];
  }

  // The reader accepts nothing but frames, whatever follows them, except frames whose
  // length prefix has been padded.
  lemma ParsedMeansFramed(b: Bytes, c: Command)
    requires Parse(b) == Parsed(c)
    ensures |Utf8(c.data)| <= MAX_INT32
    ensures Frame(c) <= b <==> IsShortest(b[20..], ReadPrefix(b[20..], 0).value.1)
  {
    TextMeansFramed(b[20..], c.data);
    HeadRestores(b, c);
    SameHead(HeadOf(c), TextBytes(c.data), b);
    assert Frame(c) == HeadOf(c) + TextBytes(c.data);
  }

  lemma SameHead(head: Bytes, text: Bytes, b: Bytes)
    requires |b| >= 20 && head == b[..20]
    ensures head + text <= b <==> text <= b[20..]
  {
    assert b == head + b[20..];
    if head + text <= b {
      assert b[20..][..|text|] == (head + text)[20..];
    }
  }

  // The writer and reader that ToBytes and FromBytes drive.

  class BinaryWriter {
    var stream: Bytes

    constructor ()
      ensures stream == []
    {
      stream := [];
    }

    method WriteBytes(bytes: Bytes)
      modifies this
      ensures stream == old(stream) + bytes
    {
      stream := stream + bytes;
    }

    method WriteUnsigned(n: nat, width: nat)
      modifies this
      ensures stream == old(stream) + LittleEndian(n, width)
    {
      var value, i := n, 0;
      while i < width
        invariant i <= width
        invariant old(stream) + LittleEndian(n, width) == stream + LittleEndian(value, width - i)
      {
        stream := stream + [value % 256];
        value, i := value / 256, i + 1;
      }
    }

    method Write7BitEncodedInt(n: nat)
      modifies this
      ensures stream == old(stream) + Prefix(n)
    {
      var value := n;
      while value > 0x7F
        invariant old(stream) + Prefix(n) == stream + Prefix(value)
      {
        stream := stream + [value % 128 + 128];
        value := value / 128;
      }
      stream := stream + [value];
    }

    method WriteString(text: string)
      modifies this
      ensures stream == old(stream) + Prefix(|Utf8(text)|) + Utf8(text)
    {
      var bytes := Utf8(text);
      Write7BitEncodedInt(|bytes|);
      WriteBytes(bytes);
    }
  }

  class BinaryReader {
    const data: Bytes
    var pos: nat

    ghost predicate Valid()
      reads this
    {
      pos <= |data|
    }

    constructor (data: Bytes)
      ensures Valid() && this.data == data && pos == 0
    {
      this.data := data;
      pos := 0;
    }

    // Fewer than `count` bytes are returned at the end of the stream.
    method ReadBytes(count: nat) returns (bytes: Bytes)
      requires Valid()
      modifies this`pos
      ensures Valid()
      ensures bytes == if old(pos) + count <= |data| then data[old(pos)..old(pos) + count] else data[old(pos)..]
      ensures pos == old(pos) + |bytes|
    {
      var end := if pos + count <= |data| then pos + count else |data|;
      bytes := data[pos..end];
      pos := end;
    }

    method Read7BitEncodedInt() returns (r: Result<nat, FrameError>)
      requires Valid()
      modifies this`pos
      ensures Valid()
      ensures match ReadPrefix(data[old(pos)..], 0)
              case Err(e) => r == Err(e)
              case Ok((v, n)) => r == Ok(v) && pos == old(pos) + n
    {
      var result: nat, weight: nat, i: nat := 0, 1, 0;
      ghost var start := pos;
      while i < 4
        invariant Valid() && i <= 4 && pos == start + i
        invariant Continues(ReadPrefix(data[start..], 0), ReadPrefix(data[pos..], i), result, weight, i)
      {
        if pos == |data| {
          return Err(EndOfStream);
        }
        var b: int := data[pos];
        ghost var here, next := data[pos..], data[pos + 1..];
        assert here[1..] == next;
        pos := pos + 1;
        ghost var before := result;
        result := result + b % 128 * weight;
        if b < 128 {
          return Ok(result);
        }
        assert b % 128 == b - 128;
        WeightStep(ReadPrefix(next, i + 1), before, b, weight);
        weight, i := weight * 128, i + 1;
      }
      if pos == |data| {
        return Err(EndOfStream);
      }
      var b: int := data[pos];
      pos := pos + 1;
      if b > 15 {
        return Err(BadLength);
      }
      return Ok(result + b * weight);
    }

    method ReadCounted() returns (r: Result<Bytes, FrameError>)
      requires Valid()
      modifies this`pos
      ensures Valid()
      ensures r == Counted(data[old(pos)..])
    {
      ghost var rest := data[pos..];
      var prefix := Read7BitEncodedInt();
      if prefix.Err? { return Err(prefix.error); }
      var length := prefix.value;
      if length > MAX_INT32 { return Err(NegativeLength); }
      if pos + length > |data| { return Err(EndOfStream); }
      ghost var n := ReadPrefix(rest, 0).value.1;
      var bytes := ReadBytes(length);
      assert bytes == rest[n..n + length];
      return Ok(bytes);
    }

    method ReadString() returns (r: Result<Option<string>, FrameError>)
      requires Valid()
      modifies this`pos
      ensures Valid()
      ensures r == ParseText(data[old(pos)..])
    {
      var bytes := ReadCounted();
      match bytes
      case Err(e) => return Err(e);
      case Ok(text) => return Ok(FromUtf8(text));
    }
  }

  // Reading the whole prefix comes to reading its remainder and adding it at its weight.
  predicate Continues(whole: Result<(nat, nat), FrameError>, remainder: Result<(nat, nat), FrameError>, result: nat,
                      weight: nat, i: nat) {
    match remainder
    case Err(e) => whole == Err(e)
    case Ok((v, n)) => whole == Ok((result + v * weight, n + i))
  }

  lemma WeightStep(remainder: Result<(nat, nat), FrameError>, result: nat, b: int, weight: nat)
    requires b >= 128
    ensures remainder.Ok? ==>
              var v := remainder.value.0;
              result + (b - 128 + 128 * v) * weight == result + (b - 128) * weight + v * (weight * 128)
  {
    if remainder.Ok? { Distribute(b - 128, remainder.value.0, weight); }
  }

  lemma Distribute(x: int, v: int, w: int)
    ensures (x + 128 * v) * w == x * w + v * (w * 128)
  {}

  // Data may be null, which is written as the empty text.
  method ToBytes(commandType: Int32, conversationId: Guid, data: Option<string>) returns (bytes: Bytes)
    ensures bytes == Frame(Command(commandType, conversationId, if data.Some? then data.value else ""))
  {
    var text := if data.Some? then data.value else "";
    var writer := new BinaryWriter();
    writer.WriteUnsigned(ToUnsigned(commandType), 4);
    writer.WriteBytes(GuidBytes(conversationId));
    assert writer.stream == LittleEndian(ToUnsigned(commandType), 4) + GuidBytes(conversationId);
    writer.WriteString(text);
    bytes := writer.stream;
    assert bytes ==
           LittleEndian(ToUnsigned(commandType), 4) + GuidBytes(conversationId) + Prefix(|Utf8(text)|) + Utf8(text);
  }

  method FromBytes(bytes: Bytes) returns (r: Outcome)
    ensures r == Parse(bytes)
  {
    var reader := new BinaryReader(bytes);
    var head := reader.ReadBytes(4);
    if |head| < 4 { return Failed(EndOfStream); }
    FromLittleEndianBound(head);
    SmallPowers();
    var commandType := ToSigned(FromLittleEndian(head));
    var guidBytes := reader.ReadBytes(16);
    if |guidBytes| < 16 { return Failed(BadGuid); }
    var id := GuidFrom(guidBytes);
    var text := reader.ReadString();
    match text
    case Err(e) => return Failed(e);
    case Ok(None) => return Garbled(commandType, id);
    case Ok(Some(data)) => return Parsed(Command(commandType, id, data));
  }
}
