/** Hexadecimal and Base64 text for byte strings (assets/stdlib/bytes.js): section 8 and
    section 4 of RFC 4648. A byte string is a sequence of numbers below 256; encoded text
    is a string, one character per byte. */
module Bytes {
  import opened Integers
  import opened Lists

  datatype Result<T> = Ok(value: T) | Err(message: string)

  const CAPITALS := "ABCDEFGHIJKLMNOPQRSTUVWXYZ"
  const SMALLS := "abcdefghijklmnopqrstuvwxyz"
  const DIGITS := "0123456789"

  /** Table 1 of RFC 4648, in its four runs. */
  const ALPHABET := CAPITALS + SMALLS + DIGITS + "+/"

  /** The byte at position `i`, or -1 past the end. */
  function ByteAt(s: string, i: nat): int {
    if i < |s| then s[i] as int else -1
  }

  // ---------------------------------------------------------------- hexadecimal

  function HexDigit(n: int): string
    requires 0 <= n < 16
  {
    if n < 10 then IntToString(n) else [(87 + n) as char]
  }

  function ByteToHex(n: byte): string {
    HexDigit(n / 16) + HexDigit(n % 16)
  }

  function ToHexGo(s: seq<byte>, i: int, acc: string): string
    requires i < |s|
    decreases i
  {
    if i < 0 then acc else ToHexGo(s, i - 1, ByteToHex(s[i]) + acc)
  }

  function ToHex(s: seq<byte>): string {
    ToHexGo(s, |s| - 1, "")
  }

  function HexVal(code: int): int {
    if 48 <= code <= 57 then code - 48
    else if 65 <= code <= 70 then code - 55
    else if 97 <= code <= 102 then code - 87
    else -1
  }

  function FromHexGo(s: string, i: nat, acc: seq<byte>): Result<seq<byte>>
    decreases |s| - i
  {
    if i >= |s| then Ok(Reverse(acc))
    else
      var hi, lo := HexVal(ByteAt(s, i)), HexVal(ByteAt(s, i + 1));
      if hi < 0 || lo < 0 then Err("invalid hex character")
      else FromHexGo(s, i + 2, [hi * 16 + lo] + acc)
  }

  function FromHex(s: string): Result<seq<byte>> {
    if |s| % 2 != 0 then Err("hex string must have even length") else FromHexGo(s, 0, [])
  }

  // ---------------------------------------------------------------- Base64

  /** The n-th character of the alphabet (see `AlphabetIs`). */
  function B64Char(n: int): char
    requires 0 <= n < 64
  {
    if n < 26 then (65 + n) as char
    else if n < 52 then (71 + n) as char
    else if n < 62 then (n - 4) as char
    else if n == 62 then '+'
    else '/'
  }

  /** One full group: three bytes as four six-bit digits. */
  function Quad(b0: byte, b1: byte, b2: byte): string {
    [B64Char(b0 / 4), B64Char((b0 % 4) * 16 + b1 / 16), B64Char((b1 % 16) * 4 + b2 / 64), B64Char(b2 % 64)]
  }

  function Pair(b0: byte, b1: byte): string {
    [B64Char(b0 / 4), B64Char((b0 % 4) * 16 + b1 / 16), B64Char((b1 % 16) * 4), '=']
  }

  function Single(b0: byte): string {
    [B64Char(b0 / 4), B64Char((b0 % 4) * 16), '=', '=']
  }

  /** The encoder's loop; each group's characters are consed onto `acc`, first one first. */
  function EncodeGo(s: seq<byte>, i: nat, acc: string): string
    requires i <= |s|
    decreases |s| - i
  {
    if i + 3 <= |s| then EncodeGo(s, i + 3, Rev(Quad(s[i], s[i + 1], s[i + 2]), acc))
    else if i + 2 == |s| then Reverse(Rev(Pair(s[i], s[i + 1]), acc))
    else if i + 1 == |s| then Reverse(Rev(Single(s[i]), acc))
    else Reverse(acc)
  }

  function EncodeBase64(s: seq<byte>): string {
    EncodeGo(s, 0, "")
  }

  function B64Val(code: int): int {
    if 65 <= code <= 90 then code - 65
    else if 97 <= code <= 122 then code - 71
    else if 48 <= code <= 57 then code + 4
    else if code == 43 then 62
    else if code == 47 then 63
    else -1
  }

  /** What the decoder makes of four character codes: bad, the last bytes, or three bytes
      with more to come. */
  datatype Group = Bad | Last(bytes: seq<byte>) | Full(bytes: seq<byte>)

  function ReadGroup(c0: int, c1: int, c2: int, c3: int): Group {
    var v0, v1 := B64Val(c0), B64Val(c1);
    if v0 < 0 || v1 < 0 then Bad
    else
      var b0: byte := (v0 * 4 + v1 / 16) % 256;
      if c2 == 61 && c3 == 61 then Last([b0])
      else
        var v2 := B64Val(c2);
        var b1: byte := ((v1 % 16) * 16 + v2 / 4) % 256;
        if c3 == 61 then if v2 < 0 then Bad else Last([b0, b1])
        else
          var v3 := B64Val(c3);
          var b2: byte := ((v2 % 4) * 64 + v3) % 256;
          if v2 < 0 || v3 < 0 then Bad else Full([b0, b1, b2])
  }

  function DecodeGo(s: string, i: nat, acc: seq<byte>): Result<seq<byte>>
    decreases |s| - i
  {
    if i >= |s| then Ok(Reverse(acc))
    else
      match ReadGroup(ByteAt(s, i), ByteAt(s, i + 1), ByteAt(s, i + 2), ByteAt(s, i + 3))
      case Bad => Err("invalid base64 character")
      case Last(bytes) => Ok(Reverse(Rev(bytes, acc)))
      case Full(bytes) => DecodeGo(s, i + 4, Rev(bytes, acc))
  }

  function DecodeBase64(s: string): Result<seq<byte>> {
    if |s| % 4 != 0 then Err("invalid base64: length must be a multiple of 4") else DecodeGo(s, 0, [])
  }

  // ---------------------------------------------------------------- the hexadecimal round trip

  lemma HexDigitIs(n: int)
    requires 0 <= n < 16
    ensures |HexDigit(n)| == 1 && HexVal(HexDigit(n)[0] as int) == n
  {
  }

  /** The text of `s` from position `i` on. */
  function HexFrom(s: seq<byte>, i: nat): string
    requires i <= |s|
    decreases |s| - i
  {
    if i == |s| then "" else ByteToHex(s[i]) + HexFrom(s, i + 1)
  }

  lemma {:induction false} ToHexGoIs(s: seq<byte>, i: int)
    requires -1 <= i < |s|
    ensures ToHexGo(s, i, HexFrom(s, i + 1)) == HexFrom(s, 0)
    decreases i
  {
    if i >= 0 { ToHexGoIs(s, i - 1); }
  }

  lemma {:induction false} HexAt(s: seq<byte>, i: nat, k: nat)
    requires i <= k < |s|
    ensures |HexFrom(s, i)| == 2 * (|s| - i)
    ensures HexFrom(s, i)[2 * (k - i)] == HexDigit(s[k] / 16)[0] && HexFrom(s, i)[2 * (k - i) + 1] == HexDigit(s[k] % 16)[0]
    decreases k - i
  {
    HexDigitIs(s[i] / 16);
    HexDigitIs(s[i] % 16);
    HexLength(s, i + 1);
    if i < k { HexAt(s, i + 1, k); }
  }

  lemma {:induction false} HexLength(s: seq<byte>, i: nat)
    requires i <= |s|
    ensures |HexFrom(s, i)| == 2 * (|s| - i)
    decreases |s| - i
  {
    if i < |s| {
      HexDigitIs(s[i] / 16);
      HexDigitIs(s[i] % 16);
      HexLength(s, i + 1);
    }
  }

  /** The two digits at `2 * k` give back byte `k`. */
  lemma HexByte(s: seq<byte>, k: nat)
    requires k < |s|
    ensures var text := HexFrom(s, 0);
            2 * k + 1 < |text| && HexVal(ByteAt(text, 2 * k)) >= 0 && HexVal(ByteAt(text, 2 * k + 1)) >= 0
            && HexVal(ByteAt(text, 2 * k)) * 16 + HexVal(ByteAt(text, 2 * k + 1)) == s[k]
  {
    hide HexFrom, HexDigit, HexVal;
    HexLength(s, 0);
    HexAt(s, 0, k);
    HexDigitIs(s[k] / 16);
    HexDigitIs(s[k] % 16);
    assert s[k] / 16 * 16 + s[k] % 16 == s[k];
  }

  lemma {:induction false} FromHexGoIs(s: seq<byte>, text: string, k: nat, acc: seq<byte>)
    requires text == HexFrom(s, 0) && k <= |s| && Reverse(acc) == s[..k]
    ensures FromHexGo(text, 2 * k, acc) == Ok(s)
    decreases |s| - k
  {
    hide HexFrom, HexVal, Reverse, ByteAt;
    HexLength(s, 0);
    if k < |s| {
      HexByte(s, k);
      RevCons(s[k], acc);
      assert s[..k + 1] == s[..k] + [s[k]];
      FromHexGoIs(s, text, k + 1, [s[k]] + acc);
    } else {
      assert s[..k] == s;
    }
  }

  /** The digits of section 8 of RFC 4648, the letters small. */
  const HEX_DIGITS := "0123456789abcdef"

  lemma HexDigitSmall(n: int)
    requires 0 <= n < 16
    ensures HexDigit(n) == [HEX_DIGITS[n]]
  {
  }

  /** Byte `k` is written as its two digits, the high one first. */
  lemma HexText(s: seq<byte>, k: nat)
    requires k < |s|
    ensures |ToHex(s)| == 2 * |s|
    ensures ToHex(s)[2 * k] == HEX_DIGITS[s[k] / 16] && ToHex(s)[2 * k + 1] == HEX_DIGITS[s[k] % 16]
  {
    ToHexGoIs(s, |s| - 1);
    HexLength(s, 0);
    HexAt(s, 0, k);
    HexDigitSmall(s[k] / 16);
    HexDigitSmall(s[k] % 16);
  }

  /** `from_hex` reads back every byte string, and the text has two digits a byte. */
  lemma HexRoundTrip(s: seq<byte>)
    ensures |ToHex(s)| == 2 * |s| && FromHex(ToHex(s)) == Ok(s)
  {
    ToHexGoIs(s, |s| - 1);
    HexLength(s, 0);
    assert Reverse<byte>([]) == s[..0];
    FromHexGoIs(s, ToHex(s), 0, []);
  }

  // ---------------------------------------------------------------- the Base64 round trip

  /** The encoding, group by group. */
  function Encoded(s: seq<byte>): string {
    if |s| >= 3 then Quad(s[0], s[1], s[2]) + Encoded(s[3..])
    else if |s| == 2 then Pair(s[0], s[1])
    else if |s| == 1 then Single(s[0])
    else ""
  }

  lemma Capital(n: int)
    requires 0 <= n < 26
    ensures CAPITALS[n] as int == 65 + n
  {
  }

  lemma Small(n: int)
    requires 0 <= n < 26
    ensures SMALLS[n] as int == 97 + n
  {
  }

  lemma Digit(n: int)
    requires 0 <= n < 10
    ensures DIGITS[n] as int == 48 + n
  {
  }

  lemma AlphabetIs(n: int)
    requires 0 <= n < 64
    ensures B64Char(n) == ALPHABET[n]
  {
    if n < 26 {
      Capital(n);
    } else if n < 52 {
      Small(n - 26);
    } else if n < 62 {
      Digit(n - 52);
    }
  }

  /** `b64_val` inverts `b64_char`, and no digit is a pad or belongs to the URL alphabet. */
  lemma CharVal(n: int)
    requires 0 <= n < 64
    ensures B64Val(B64Char(n) as int) == n && B64Char(n) !in "=-_\r\n"
  {
  }

  /** The four digits are those of the 24-bit number the bytes spell, and they give the
      bytes back. */
  lemma QuadIs(b0: byte, b1: byte, b2: byte)
    ensures var (v0, v1, v2, v3) := (b0 / 4, (b0 % 4) * 16 + b1 / 16, (b1 % 16) * 4 + b2 / 64, b2 % 64);
            && 0 <= v0 < 64 && 0 <= v1 < 64 && 0 <= v2 < 64 && 0 <= v3 < 64
            && 262144 * v0 + 4096 * v1 + 64 * v2 + v3 == 65536 * b0 + 256 * b1 + b2
            && (v0 * 4 + v1 / 16) % 256 == b0 && ((v1 % 16) * 16 + v2 / 4) % 256 == b1
            && ((v2 % 4) * 64 + v3) % 256 == b2
  {
  }

  lemma {:induction false} EncodeGoIs(s: seq<byte>, i: nat, acc: string)
    requires i <= |s|
    ensures EncodeGo(s, i, acc) == Reverse(acc) + Encoded(s[i..])
    decreases |s| - i
  {
    var rest := s[i..];
    if i + 3 <= |s| {
      var q := Quad(s[i], s[i + 1], s[i + 2]);
      EncodeGoIs(s, i + 3, Rev(q, acc));
      ReverseRev(q, acc);
      assert rest[3..] == s[i + 3..];
      assert Reverse(acc) + q + Encoded(s[i + 3..]) == Reverse(acc) + (q + Encoded(s[i + 3..]));
    } else if i + 2 == |s| {
      ReverseRev(Pair(s[i], s[i + 1]), acc);
    } else if i + 1 == |s| {
      ReverseRev(Single(s[i]), acc);
    }
  }

  function Onto(front: seq<byte>, r: Result<seq<byte>>): Result<seq<byte>> {
    match r
    case Ok(more) => Ok(front + more)
    case Err(e) => Err(e)
  }

  /** The decoding, group by group. */
  function Decoded(t: string): Result<seq<byte>> {
    if t == "" then Ok([])
    else
      match ReadGroup(ByteAt(t, 0), ByteAt(t, 1), ByteAt(t, 2), ByteAt(t, 3))
      case Bad => Err("invalid base64 character")
      case Last(bytes) => Ok(bytes)
      case Full(bytes) => Onto(bytes, if |t| <= 4 then Ok([]) else Decoded(t[4..]))
  }

  lemma {:induction false} DecodeGoIs(s: string, i: nat, acc: seq<byte>)
    requires i <= |s| && (|s| - i) % 4 == 0
    ensures DecodeGo(s, i, acc) == Onto(Reverse(acc), Decoded(s[i..]))
    decreases |s| - i
  {
    var t := s[i..];
    if i < |s| {
      var g := ReadGroup(ByteAt(t, 0), ByteAt(t, 1), ByteAt(t, 2), ByteAt(t, 3));
      if !g.Bad? { ReverseRev(g.bytes, acc); }
      if g.Full? {
        DecodeGoIs(s, i + 4, Rev(g.bytes, acc));
        assert t[4..] == s[i + 4..];
        assert |t| <= 4 ==> t[4..] == "";
        OntoOnto(Reverse(acc), g.bytes, Decoded(t[4..]));
      }
    } else {
      assert Reverse(acc) + [] == Reverse(acc);
    }
  }

  lemma OntoOnto(a: seq<byte>, b: seq<byte>, r: Result<seq<byte>>)
    ensures Onto(a + b, r) == Onto(a, Onto(b, r))
  {
    if r.Ok? { assert a + b + r.value == a + (b + r.value); }
  }

  /** Four characters with these values, none of them a pad. */
  ghost predicate Spells(q: string, v0: int, v1: int, v2: int, v3: int) {
    && |q| == 4 && B64Val(q[0] as int) == v0 && B64Val(q[1] as int) == v1 && B64Val(q[2] as int) == v2
    && B64Val(q[3] as int) == v3 && 0 <= v0 && 0 <= v1 && 0 <= v2 && 0 <= v3
  }

  lemma QuadSpells(b0: byte, b1: byte, b2: byte)
    ensures Spells(Quad(b0, b1, b2), b0 / 4, (b0 % 4) * 16 + b1 / 16, (b1 % 16) * 4 + b2 / 64, b2 % 64)
  {
    CharVal(b0 / 4);
    CharVal((b0 % 4) * 16 + b1 / 16);
    CharVal((b1 % 16) * 4 + b2 / 64);
    CharVal(b2 % 64);
  }

  lemma SpelledRead(q: string, v0: int, v1: int, v2: int, v3: int, b0: byte, b1: byte, b2: byte)
    requires Spells(q, v0, v1, v2, v3)
    requires (v0 * 4 + v1 / 16) % 256 == b0 && ((v1 % 16) * 16 + v2 / 4) % 256 == b1 && ((v2 % 4) * 64 + v3) % 256 == b2
    ensures ReadGroup(q[0] as int, q[1] as int, q[2] as int, q[3] as int) == Full([b0, b1, b2])
    ensures ReadGroup(q[0] as int, q[1] as int, q[2] as int, 61) == Last([b0, b1])
    ensures ReadGroup(q[0] as int, q[1] as int, 61, 61) == Last([b0])
  {
  }

  lemma GroupRead(q: string, b0: byte, b1: byte, b2: byte)
    requires q == Quad(b0, b1, b2)
    ensures |q| == 4
    ensures ReadGroup(q[0] as int, q[1] as int, q[2] as int, q[3] as int) == Full([b0, b1, b2])
    ensures ReadGroup(q[0] as int, q[1] as int, q[2] as int, 61) == Last([b0, b1])
    ensures ReadGroup(q[0] as int, q[1] as int, 61, 61) == Last([b0])
  {
    QuadIs(b0, b1, b2);
    QuadSpells(b0, b1, b2);
    SpelledRead(q, b0 / 4, (b0 % 4) * 16 + b1 / 16, (b1 % 16) * 4 + b2 / 64, b2 % 64, b0, b1, b2);
  }

  lemma PairIs(b0: byte, b1: byte)
    ensures Pair(b0, b1) == Quad(b0, b1, 0)[..3] + "=" && Single(b0) == Quad(b0, 0, 0)[..2] + "=="
  {
  }

  lemma FirstGroup(q: string, rest: string, bs: seq<byte>)
    requires |q| == 4 && ReadGroup(q[0] as int, q[1] as int, q[2] as int, q[3] as int) == Full(bs)
    ensures Decoded(q + rest) == Onto(bs, Decoded(rest))
  {
    assert (q + rest)[4..] == rest;
  }

  lemma LastGroup(t: string, q: string, bs: seq<byte>, pads: nat)
    requires |t| == |q| == 4 && (pads == 1 || pads == 2) && t[..4 - pads] == q[..4 - pads] && t[3] == '='
    requires pads == 2 ==> t[2] == '='
    requires ReadGroup(q[0] as int, q[1] as int, if pads == 2 then 61 else q[2] as int, 61) == Last(bs)
    ensures Decoded(t) == Ok(bs)
  {
    assert t[0] == t[..4 - pads][0] == q[0] && t[1] == t[..4 - pads][1] == q[1];
    if pads == 1 { assert t[2] == t[..3][2] == q[2]; }
  }

  lemma {:induction false} DecodedEncoded(s: seq<byte>)
    ensures Decoded(Encoded(s)) == Ok(s)
  {
    if |s| >= 3 {
      var q, rest := Quad(s[0], s[1], s[2]), Encoded(s[3..]);
      DecodedEncoded(s[3..]);
      DecodedQuad(s, q, rest);
      assert Encoded(s) == q + rest;
    } else if |s| == 2 {
      DecodedPair(s);
    } else if |s| == 1 {
      DecodedSingle(s);
    }
  }

  lemma DecodedQuad(s: seq<byte>, q: string, rest: string)
    requires |s| >= 3 && q == Quad(s[0], s[1], s[2]) && Decoded(rest) == Ok(s[3..])
    ensures |q| == 4 && Decoded(q + rest) == Ok(s)
  {
    GroupRead(q, s[0], s[1], s[2]);
    FirstGroup(q, rest, [s[0], s[1], s[2]]);
    assert [s[0], s[1], s[2]] + s[3..] == s;
  }

  lemma DecodedPair(s: seq<byte>)
    requires |s| == 2
    ensures Decoded(Encoded(s)) == Ok(s)
  {
    var q := Quad(s[0], s[1], 0);
    GroupRead(q, s[0], s[1], 0);
    PairIs(s[0], s[1]);
    LastGroup(Pair(s[0], s[1]), q, [s[0], s[1]], 1);
    assert [s[0], s[1]] == s;
  }

  lemma DecodedSingle(s: seq<byte>)
    requires |s| == 1
    ensures Decoded(Encoded(s)) == Ok(s)
  {
    var q := Quad(s[0], 0, 0);
    GroupRead(q, s[0], 0, 0);
    PairIs(s[0], 0);
    LastGroup(Single(s[0]), q, [s[0]], 2);
    assert [s[0]] == s;
  }

  lemma EncodeIs(s: seq<byte>)
    ensures EncodeBase64(s) == Encoded(s)
  {
    EncodeGoIs(s, 0, "");
    assert s[0..] == s && Reverse<char>("") + Encoded(s) == Encoded(s);
  }

  lemma DecodeIs(t: string)
    requires |t| % 4 == 0
    ensures DecodeBase64(t) == Decoded(t)
  {
    DecodeGoIs(t, 0, []);
    assert t[0..] == t;
    if Decoded(t).Ok? { assert Reverse<byte>([]) + Decoded(t).value == Decoded(t).value; }
  }

  /** Decoding undoes encoding for every byte string, the pads included. */
  lemma Base64RoundTrip(s: seq<byte>)
    ensures DecodeBase64(EncodeBase64(s)) == Ok(s)
  {
    EncodeIs(s);
    EncodedLength(s);
    DecodeIs(Encoded(s));
    DecodedEncoded(s);
  }

  /** The pads that complete a text of `n` bytes. */
  function Pads(n: nat): (pads: nat)
    ensures pads <= 2
  {
    if n % 3 == 0 then 0 else 3 - n % 3
  }

  /** `n` pads end the text; all before them is alphabet. */
  ghost predicate PaddedBy(t: string, n: nat) {
    && n <= |t| && (forall i :: |t| - n <= i < |t| ==> t[i] == '=')
    && (forall i :: 0 <= i < |t| - n ==> t[i] !in "=-_\r\n")
  }

  /** The encoding has four characters for each group of three bytes, with as many pads as
      the last group lacks bytes. */
  lemma EncodedShape(s: seq<byte>)
    ensures |EncodeBase64(s)| == 4 * ((|s| + 2) / 3) && PaddedBy(EncodeBase64(s), Pads(|s|))
  {
    EncodeIs(s);
    EncodedLength(s);
    EncodedPads(s);
  }

  lemma {:induction false} EncodedPads(s: seq<byte>)
    ensures PaddedBy(Encoded(s), Pads(|s|))
  {
    if |s| >= 3 {
      GroupChars(s[0], s[1], s[2]);
      EncodedPads(s[3..]);
      PaddedAfter(Quad(s[0], s[1], s[2]), Encoded(s[3..]), Pads(|s| - 3));
      assert Pads(|s| - 3) == Pads(|s|);
    } else if |s| == 2 {
      GroupChars(s[0], s[1], 0);
    } else if |s| == 1 {
      GroupChars(s[0], 0, 0);
    }
  }

  lemma OneGroupMore(n: nat)
    ensures (n + 3 + 2) / 3 == (n + 2) / 3 + 1
  {
  }

  lemma EncodedStep(s: seq<byte>)
    ensures |Encoded(s)| == if |s| >= 3 then 4 + |Encoded(s[3..])| else if s == [] then 0 else 4
  {
  }

  lemma {:induction false} EncodedLength(s: seq<byte>)
    ensures |Encoded(s)| == 4 * ((|s| + 2) / 3)
  {
    EncodedStep(s);
    hide Encoded;
    if |s| >= 3 {
      EncodedLength(s[3..]);
      OneGroupMore(|s| - 3);
    }
  }

  lemma PaddedAfter(q: string, rest: string, n: nat)
    requires PaddedBy(q, 0) && PaddedBy(rest, n)
    ensures PaddedBy(q + rest, n)
  {
    var t := q + rest;
    forall i | |t| - n <= i < |t| ensures t[i] == '=' { assert t[i] == rest[i - |q|]; }
    forall i | 0 <= i < |t| - n ensures t[i] !in "=-_\r\n" { assert t[i] == if i < |q| then q[i] else rest[i - |q|]; }
  }

  lemma GroupChars(b0: byte, b1: byte, b2: byte)
    ensures PaddedBy(Quad(b0, b1, b2), 0) && PaddedBy(Pair(b0, b1), 1) && PaddedBy(Single(b0), 2)
  {
    QuadIs(b0, b1, b2);
    QuadIs(b0, b1, 0);
    QuadIs(b0, 0, 0);
    CharVal(b0 / 4);
    CharVal((b0 % 4) * 16 + b1 / 16);
    CharVal((b1 % 16) * 4 + b2 / 64);
    CharVal(b2 % 64);
    CharVal((b1 % 16) * 4);
    CharVal((b0 % 4) * 16);
  }

  // ---------------------------------------------------------------- which texts are read

  predicate IsHex(c: char) {
    '0' <= c <= '9' || 'a' <= c <= 'f' || 'A' <= c <= 'F'
  }

  lemma HexValIff(c: char)
    ensures HexVal(c as int) >= 0 <==> IsHex(c)
    ensures HexVal(c as int) < 16
  {
  }

  /** The byte that two digits spell. */
  function HexPair(hi: char, lo: char): byte {
    (HexVal(hi as int) * 16 + HexVal(lo as int)) % 256
  }

  lemma HexPairIs(hi: char, lo: char)
    requires IsHex(hi) && IsHex(lo)
    ensures HexPair(hi, lo) == HexVal(hi as int) * 16 + HexVal(lo as int)
  {
    HexValIff(hi);
    HexValIff(lo);
  }

  /** The bytes that the digits from position `i` on spell. */
  function HexBytes(s: string, i: nat): seq<byte>
    decreases |s| - i
  {
    if i + 1 >= |s| then [] else [HexPair(s[i], s[i + 1])] + HexBytes(s, i + 2)
  }

  lemma {:induction false} HexBytesAt(s: string, i: nat, k: nat)
    requires i <= |s| && (|s| - i) % 2 == 0
    ensures |HexBytes(s, i)| == (|s| - i) / 2
    ensures k < (|s| - i) / 2 ==> HexBytes(s, i)[k] == HexPair(s[i + 2 * k], s[i + 2 * k + 1])
    decreases |s| - i
  {
    hide HexPair;
    if i < |s| { HexBytesAt(s, i + 2, if k > 0 then k - 1 else 0); }
  }

  lemma {:induction false} FromHexGoOk(s: string, i: nat, acc: seq<byte>)
    requires i <= |s| && (|s| - i) % 2 == 0
    ensures FromHexGo(s, i, acc).Ok? <==> forall k :: i <= k < |s| ==> IsHex(s[k])
    ensures FromHexGo(s, i, acc).Ok? ==> FromHexGo(s, i, acc).value == Reverse(acc) + HexBytes(s, i)
    decreases |s| - i
  {
    if i < |s| {
      var hi, lo := s[i], s[i + 1];
      HexValIff(hi);
      HexValIff(lo);
      if IsHex(hi) && IsHex(lo) {
        HexPairIs(hi, lo);
        hide HexVal, IsHex, Reverse, HexPair;
        var b := HexPair(hi, lo);
        FromHexGoOk(s, i + 2, [b] + acc);
        RevCons(b, acc);
        Joined(Reverse(acc), b, HexBytes(s, i + 2));
      }
    } else {
      assert Reverse(acc) + HexBytes(s, i) == Reverse(acc);
    }
  }

  lemma Joined(a: seq<byte>, b: byte, c: seq<byte>)
    ensures a + ([b] + c) == (a + [b]) + c
  {
  }

  const HEX_CAPITALS := "0123456789ABCDEF"

  /** Character `c` is the digit `n`, the letters small or capital. */
  predicate IsDigit(c: char, n: int) {
    0 <= n < 16 && (c == HEX_DIGITS[n] || c == HEX_CAPITALS[n])
  }

  lemma HexValDigit(c: char)
    requires IsHex(c)
    ensures IsDigit(c, HexVal(c as int))
  {
  }

  lemma HexPairDigits(hi: char, lo: char)
    requires IsHex(hi) && IsHex(lo)
    ensures IsDigit(hi, HexPair(hi, lo) / 16) && IsDigit(lo, HexPair(hi, lo) % 16)
  {
    hide HexVal, IsHex, IsDigit;
    HexValIff(hi);
    HexValIff(lo);
    HexValDigit(hi);
    HexValDigit(lo);
    HexPairIs(hi, lo);
  }

  lemma {:induction false} FromHexGoErr(s: string, i: nat, acc: seq<byte>)
    ensures FromHexGo(s, i, acc).Err? ==> FromHexGo(s, i, acc).message == "invalid hex character"
    decreases |s| - i
  {
    hide Reverse;
    if i < |s| {
      var hi, lo := HexVal(ByteAt(s, i)), HexVal(ByteAt(s, i + 1));
      if hi >= 0 && lo >= 0 { FromHexGoErr(s, i + 2, [hi * 16 + lo] + acc); }
    }
  }

  /** `from_hex` reads exactly the texts of an even number of hex digits, of either case: one
      byte for each two, the high digit first. Of the others it says whether their length is
      odd or some character is not a digit. */
  lemma FromHexIff(s: string)
    ensures FromHex(s).Ok? <==> |s| % 2 == 0 && forall i :: 0 <= i < |s| ==> IsHex(s[i])
    ensures FromHex(s).Ok? ==>
              var bytes := FromHex(s).value;
              && |bytes| == |s| / 2
              && forall k :: 0 <= k < |bytes| ==> IsDigit(s[2 * k], bytes[k] / 16) && IsDigit(s[2 * k + 1], bytes[k] % 16)
    ensures FromHex(s).Err? ==>
              FromHex(s).message == if |s| % 2 != 0 then "hex string must have even length" else "invalid hex character"
  {
    if |s| % 2 == 0 {
      hide HexVal, IsHex, HexPair, HexBytes, FromHexGo, IsDigit;
      FromHexGoOk(s, 0, []);
      FromHexGoErr(s, 0, []);
      assert Reverse<byte>([]) + HexBytes(s, 0) == HexBytes(s, 0);
      if FromHexGo(s, 0, []).Ok? { HexBytesAre(s); }
    }
  }

  lemma HexBytesAre(s: string)
    requires |s| % 2 == 0 && forall i :: 0 <= i < |s| ==> IsHex(s[i])
    ensures |HexBytes(s, 0)| == |s| / 2
    ensures forall k :: 0 <= k < |s| / 2 ==>
              IsDigit(s[2 * k], HexBytes(s, 0)[k] / 16) && IsDigit(s[2 * k + 1], HexBytes(s, 0)[k] % 16)
  {
    hide HexVal, IsHex, HexPair, HexBytes, IsDigit;
    HexBytesAt(s, 0, 0);
    forall k | 0 <= k < |s| / 2
      ensures IsDigit(s[2 * k], HexBytes(s, 0)[k] / 16) && IsDigit(s[2 * k + 1], HexBytes(s, 0)[k] % 16)
    {
      HexBytesAt(s, 0, k);
      HexPairDigits(s[2 * k], s[2 * k + 1]);
    }
  }

  /** A character of the alphabet, which stands for six bits. */
  predicate Sextet(c: char) {
    c in ALPHABET
  }

  /** The characters with a value are those of the alphabet. */
  lemma InAlphabet(c: char)
    ensures B64Val(c as int) >= 0 <==> Sextet(c)
  {
    var v := B64Val(c as int);
    if v >= 0 {
      assert v < 64 && B64Char(v) == c;
      AlphabetIs(v);
    }
    if Sextet(c) {
      var n :| 0 <= n < |ALPHABET| && ALPHABET[n] == c;
      AlphabetIs(n);
      CharVal(n);
    }
  }

  /** A group of alphabet characters that ends in one pad or two. */
  predicate PaddedGroup(q: string) {
    |q| >= 4 && Sextet(q[0]) && Sextet(q[1]) && q[3] == '=' && (q[2] == '=' || Sextet(q[2]))
  }

  predicate FullGroup(q: string) {
    |q| >= 4 && forall i :: 0 <= i < 4 ==> Sextet(q[i])
  }

  lemma GroupIs(q: string)
    requires |q| >= 4
    ensures ReadGroup(q[0] as int, q[1] as int, q[2] as int, q[3] as int).Full? <==> FullGroup(q)
    ensures ReadGroup(q[0] as int, q[1] as int, q[2] as int, q[3] as int).Last? <==> PaddedGroup(q)
  {
    hide *;
    GroupByValues(q[0] as int, q[1] as int, q[2] as int, q[3] as int);
    InAlphabet(q[0]);
    InAlphabet(q[1]);
    InAlphabet(q[2]);
    InAlphabet(q[3]);
    GroupPredicates(q);
  }

  lemma GroupPredicates(q: string)
    requires |q| >= 4
    ensures FullGroup(q) <==> Sextet(q[0]) && Sextet(q[1]) && Sextet(q[2]) && Sextet(q[3])
    ensures PaddedGroup(q) <==>
              Sextet(q[0]) && Sextet(q[1]) && q[3] as int == 61 && (q[2] as int == 61 || Sextet(q[2]))
  {
    hide Sextet;
  }

  lemma GroupByValues(c0: int, c1: int, c2: int, c3: int)
    ensures ReadGroup(c0, c1, c2, c3).Full? <==>
              B64Val(c0) >= 0 && B64Val(c1) >= 0 && B64Val(c2) >= 0 && B64Val(c3) >= 0
    ensures ReadGroup(c0, c1, c2, c3).Last? <==>
              B64Val(c0) >= 0 && B64Val(c1) >= 0 && c3 == 61 && (c2 == 61 || B64Val(c2) >= 0)
  {
  }

  /** Whole groups of alphabet characters to the end, or to the first group with a pad. */
  predicate Readable(t: string) {
    t == "" || PaddedGroup(t) || (FullGroup(t) && Readable(t[4..]))
  }

  lemma {:induction false} DecodedOk(t: string)
    requires |t| % 4 == 0
    ensures Decoded(t).Ok? <==> Readable(t)
  {
    hide Sextet, ReadGroup, PaddedGroup, FullGroup;
    if t != "" {
      GroupIs(t);
      GroupsApart(t);
      if FullGroup(t) { DecodedOk(t[4..]); }
    }
  }

  lemma GroupsApart(t: string)
    ensures !(PaddedGroup(t) && FullGroup(t))
  {
    InAlphabet('=');
  }

  /** `k` full groups, and then the end or a padded group. */
  ghost predicate ReadTo(t: string, k: nat) {
    4 * k <= |t| && (forall i :: 0 <= i < 4 * k ==> Sextet(t[i])) && (4 * k == |t| || PaddedGroup(t[4 * k..]))
  }

  lemma {:induction false} ReadableGroups(t: string) returns (k: nat)
    requires |t| % 4 == 0 && Readable(t)
    ensures ReadTo(t, k)
  {
    hide Sextet, PaddedGroup;
    if t == "" || PaddedGroup(t) {
      k := 0;
      assert t[0..] == t;
    } else {
      var j := ReadableGroups(t[4..]);
      k := j + 1;
      forall i | 0 <= i < 4 * k ensures Sextet(t[i]) {
        if i >= 4 { assert t[i] == t[4..][i - 4]; }
      }
      assert t[4..][4 * j..] == t[4 * k..];
    }
  }

  lemma {:induction false} GroupsReadable(t: string, k: nat)
    requires |t| % 4 == 0 && ReadTo(t, k)
    ensures Readable(t)
    decreases k
  {
    hide Sextet, PaddedGroup;
    if k == 0 {
      assert t[0..] == t;
    } else {
      assert t[4..][4 * (k - 1)..] == t[4 * k..];
      GroupsReadable(t[4..], k - 1);
    }
  }

  lemma {:induction false} DecodeGoErr(s: string, i: nat, acc: seq<byte>)
    ensures DecodeGo(s, i, acc).Err? ==> DecodeGo(s, i, acc).message == "invalid base64 character"
    decreases |s| - i
  {
    hide ReadGroup, Reverse, Rev;
    if i < |s| {
      match ReadGroup(ByteAt(s, i), ByteAt(s, i + 1), ByteAt(s, i + 2), ByteAt(s, i + 3))
      case Full(bytes) => DecodeGoErr(s, i + 4, Rev(bytes, acc));
      case _ =>
    }
  }

  /** `decode_base64` reads exactly the texts of whole groups whose characters are of the
      alphabet up to the end or to the first group that ends in a pad; what follows that
      group is not looked at. Of the others it says whether their length or a character is
      wrong. */
  lemma DecodeIff(t: string)
    ensures DecodeBase64(t).Ok? <==> |t| % 4 == 0 && exists k: nat :: ReadTo(t, k)
    ensures DecodeBase64(t).Err? ==>
              DecodeBase64(t).message == if |t| % 4 != 0 then "invalid base64: length must be a multiple of 4"
                                         else "invalid base64 character"
  {
    DecodeGoErr(t, 0, []);
    if |t| % 4 == 0 {
      DecodeIs(t);
      DecodedOk(t);
      if Readable(t) { var k := ReadableGroups(t); }
      forall k: nat | ReadTo(t, k) ensures Readable(t) { GroupsReadable(t, k); }
    }
  }
}
