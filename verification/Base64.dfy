/** The URL and the MIME variant of Base64 (assets/stdlib/base64.js) over the standard
    codec: section 5 of RFC 4648 and section 6.8 of RFC 2045. The runtime's own
    `base64_encode` and `base64_decode` are taken to be the visible ones of `Bytes`. */
module Base64 {
  import opened Bytes
  import opened Integers
  import opened Lists
  import opened Strings

  // ---------------------------------------------------------------- the source's functions

  function StripPad(t: string): string {
    if |t| > 0 && t[|t| - 1] == '=' then StripPad(t[..|t| - 1]) else t
  }

  function ToUrlAlphabet(s: string): string {
    StripPad(ReplaceAll(ReplaceAll(s, '+', "-"), '/', "_"))
  }

  function Restored(u: string): string {
    ReplaceAll(ReplaceAll(u, '-', "+"), '_', "/")
  }

  function FromUrlAlphabet(s: string): string {
    var t := Restored(s);
    if |t| % 4 == 0 then t
    else if |t| % 4 == 2 then t + "=="
    else if |t| % 4 == 3 then t + "="
    else t
  }

  function UrlEncode(data: seq<byte>): string {
    ToUrlAlphabet(EncodeBase64(data))
  }

  function UrlDecode(s: string): Result<seq<byte>> {
    DecodeBase64(FromUrlAlphabet(s))
  }

  const CRLF := "\r\n"

  function Join(lines: seq<string>): string {
    if lines == [] then "" else if |lines| == 1 then lines[0] else lines[0] + CRLF + Join(lines[1..])
  }

  function MimeGo(s: string, pos: nat, acc: seq<string>): string
    decreases |s| - pos
  {
    if pos >= |s| then Join(Reverse(acc))
    else MimeGo(s, pos + 76, [if pos + 76 <= |s| then s[pos..pos + 76] else s[pos..]] + acc)
  }

  function ToMimeLines(s: string): string {
    MimeGo(s, 0, [])
  }

  function MimeEncode(data: seq<byte>): string {
    ToMimeLines(EncodeBase64(data))
  }

  // ---------------------------------------------------------------- the URL alphabet

  lemma {:induction false} ReplaceEach(s: string, c: char, d: char)
    ensures |ReplaceAll(s, c, [d])| == |s|
    ensures forall i :: 0 <= i < |s| ==> ReplaceAll(s, c, [d])[i] == if s[i] == c then d else s[i]
  {
    if s != "" {
      ReplaceEach(s[1..], c, d);
      var r := ReplaceAll(s, c, [d]);
      forall i | 0 <= i < |s| ensures r[i] == if s[i] == c then d else s[i] {
        if i > 0 { assert r[i] == ReplaceAll(s[1..], c, [d])[i - 1]; }
      }
    }
  }

  /** A text of whole groups with no more pads than one group can have. */
  ghost predicate Padded(s: string, n: nat) {
    |s| % 4 == 0 && n <= 2 && PaddedBy(s, n)
  }

  ghost predicate UrlSafe(s: string) {
    forall i :: 0 <= i < |s| ==> s[i] !in "+/="
  }

  lemma ToUrlIs(s: string, n: nat)
    requires Padded(s, n)
    ensures |ToUrlAlphabet(s)| == |s| - n && UrlSafe(ToUrlAlphabet(s))
    ensures forall i :: 0 <= i < |s| - n ==>
              ToUrlAlphabet(s)[i] == if s[i] == '+' then '-' else if s[i] == '/' then '_' else s[i]
  {
    var s1 := ReplaceAll(s, '+', "-");
    var s2 := ReplaceAll(s1, '/', "_");
    ReplaceEach(s, '+', '-');
    ReplaceEach(s1, '/', '_');
    StripFrom(s2, n);
  }

  /** Only trailing pads go, whatever the alphabet before them. */
  lemma {:induction false} StripFrom(t: string, n: nat)
    requires n <= |t| && (forall i :: |t| - n <= i < |t| ==> t[i] == '=')
    requires forall i :: 0 <= i < |t| - n ==> t[i] != '='
    ensures StripPad(t) == t[..|t| - n]
    decreases n
  {
    if n > 0 {
      StripFrom(t[..|t| - 1], n - 1);
      assert t[..|t| - 1][..|t| - n] == t[..|t| - n];
    } else {
      assert t[..|t|] == t;
    }
  }

  lemma RestoredIs(u: string)
    ensures |Restored(u)| == |u|
    ensures forall i :: 0 <= i < |u| ==> Restored(u)[i] == if u[i] == '-' then '+' else if u[i] == '_' then '/' else u[i]
  {
    ReplaceEach(u, '-', '+');
    ReplaceEach(ReplaceAll(u, '-', "+"), '_', '/');
  }

  lemma Unpadded(s: string, n: nat)
    requires Padded(s, n)
    ensures n == 0 ==> s[..|s| - n] == s
    ensures n == 1 ==> s == s[..|s| - n] + "="
    ensures n == 2 ==> s == s[..|s| - n] + "=="
  {
  }

  lemma RestoredUrl(s: string, n: nat)
    requires Padded(s, n)
    ensures Restored(ToUrlAlphabet(s)) == s[..|s| - n]
  {
    var u := ToUrlAlphabet(s);
    ToUrlIs(s, n);
    RestoredIs(u);
    forall i | 0 <= i < |u| ensures Restored(u)[i] == s[i] {
      assert s[i] !in "=-_\r\n";
    }
  }

  /** The way back restores every padded text. */
  lemma UrlAlphabetRoundTrip(s: string, n: nat)
    requires Padded(s, n)
    ensures FromUrlAlphabet(ToUrlAlphabet(s)) == s && UrlSafe(ToUrlAlphabet(s))
  {
    ToUrlIs(s, n);
    RestoredUrl(s, n);
    Repad(ToUrlAlphabet(s), s, n);
  }

  lemma Repad(u: string, s: string, n: nat)
    requires Padded(s, n) && Restored(u) == s[..|s| - n]
    ensures FromUrlAlphabet(u) == s
  {
    Unpadded(s, n);
  }

  lemma EncodingPadded(data: seq<byte>)
    ensures Padded(EncodeBase64(data), Pads(|data|))
  {
    EncodedShape(data);
    FourGroups((|data| + 2) / 3);
  }

  lemma FourGroups(k: nat)
    ensures 4 * k % 4 == 0
  {
  }

  /** The URL variant reads back every byte string, from text with no `+`, `/` or pad. */
  lemma UrlRoundTrip(data: seq<byte>)
    ensures UrlDecode(UrlEncode(data)) == Ok(data) && UrlSafe(UrlEncode(data))
  {
    EncodingPadded(data);
    UrlAlphabetRoundTrip(EncodeBase64(data), Pads(|data|));
    Base64RoundTrip(data);
  }

  /** And it reads the standard variant just as well. */
  lemma UrlReadsStandard(data: seq<byte>)
    ensures UrlDecode(EncodeBase64(data)) == Ok(data)
  {
    var t, n := EncodeBase64(data), Pads(|data|);
    EncodingPadded(data);
    RestoredIs(t);
    forall i | 0 <= i < |t| ensures Restored(t)[i] == t[i] {
      if i < |t| - n { assert t[i] !in "=-_\r\n"; } else { assert t[i] == '='; }
    }
    assert Restored(t) == t;
    Base64RoundTrip(data);
  }

  // ---------------------------------------------------------------- MIME lines

  /** The text cut into lines of 76. */
  function Lines(s: string): seq<string> {
    if s == "" then [] else if |s| <= 76 then [s] else [s[..76]] + Lines(s[76..])
  }

  function Concat(lines: seq<string>): string {
    if lines == [] then "" else lines[0] + Concat(lines[1..])
  }

  lemma {:induction false} MimeGoIs(s: string, pos: nat, acc: seq<string>)
    ensures MimeGo(s, pos, acc) == Join(Reverse(acc) + if pos < |s| then Lines(s[pos..]) else [])
    decreases |s| - pos
  {
    if pos < |s| {
      var line := if pos + 76 <= |s| then s[pos..pos + 76] else s[pos..];
      var rest := s[pos..];
      MimeGoIs(s, pos + 76, [line] + acc);
      RevCons(line, acc);
      LinesFirst(s, pos, line);
      assert Reverse(acc) + [line] + (if pos + 76 < |s| then Lines(s[pos + 76..]) else [])
          == Reverse(acc) + Lines(rest);
    } else {
      assert Reverse(acc) + [] == Reverse(acc);
    }
  }

  lemma LinesFirst(s: string, pos: nat, line: string)
    requires pos < |s| && line == if pos + 76 <= |s| then s[pos..pos + 76] else s[pos..]
    ensures Lines(s[pos..]) == [line] + if pos + 76 < |s| then Lines(s[pos + 76..]) else []
  {
    var rest := s[pos..];
    if |rest| > 76 {
      assert rest[..76] == line && rest[76..] == s[pos + 76..];
    } else {
      assert rest == line;
    }
  }

  /** Every line holds 1 to 76 characters, all but the last exactly 76, and the lines put
      together are the text. */
  lemma {:induction false} LinesAre(s: string)
    ensures Concat(Lines(s)) == s
    ensures forall k :: 0 <= k < |Lines(s)| ==> 1 <= |Lines(s)[k]| <= 76 && (k < |Lines(s)| - 1 ==> |Lines(s)[k]| == 76)
  {
    if |s| > 76 {
      LinesAre(s[76..]);
      assert Lines(s)[1..] == Lines(s[76..]);
      assert s[..76] + s[76..] == s;
    } else if s != "" {
      assert [s][1..] == [];
    }
  }

  /** The text without its carriage returns and line feeds. */
  function Unbroken(s: string): string {
    ReplaceAll(ReplaceAll(s, '\r', ""), '\n', "")
  }

  lemma NoBreak(line: string)
    requires '\r' !in line && '\n' !in line
    ensures Unbroken(line) == line
  {
    ReplaceNone(line, '\r', "");
    ReplaceNone(line, '\n', "");
  }

  lemma JoinFirst(line: string, rest: string)
    requires '\r' !in line && '\n' !in line
    ensures Unbroken(line + CRLF + rest) == line + Unbroken(rest)
  {
    DropConcat(line + CRLF, rest);
    DropConcat(line, CRLF);
    DropCrlf();
    NoBreak(line);
    assert line + "" == line;
  }

  lemma {:induction false} JoinDropped(lines: seq<string>)
    requires forall k :: 0 <= k < |lines| ==> '\r' !in lines[k] && '\n' !in lines[k]
    ensures Unbroken(Join(lines)) == Concat(lines)
    decreases |lines|
  {
    if |lines| == 1 {
      NoBreak(lines[0]);
      assert lines[0] + "" == lines[0];
    } else if |lines| > 1 {
      JoinDropped(lines[1..]);
      JoinFirst(lines[0], Join(lines[1..]));
    }
  }

  lemma DropConcat(a: string, b: string)
    ensures Unbroken(a + b)
         == Unbroken(a) + Unbroken(b)
  {
    ReplaceConcat(a, b, '\r', "");
    ReplaceConcat(ReplaceAll(a, '\r', ""), ReplaceAll(b, '\r', ""), '\n', "");
  }

  lemma DropCrlf()
    ensures Unbroken(CRLF) == ""
  {
    assert CRLF[1..] == "\n" && "\n"[1..] == "";
    assert ReplaceAll(CRLF, '\r', "") == "\n";
  }

  /** MIME output is the lines of the encoding, at most 76 characters each, joined by line
      breaks; dropping the breaks gives the encoding back, which decodes to the data. */
  lemma MimeIs(data: seq<byte>)
    ensures var s := EncodeBase64(data);
            && MimeEncode(data) == Join(Lines(s)) && Concat(Lines(s)) == s
            && (forall k :: 0 <= k < |Lines(s)| ==> 1 <= |Lines(s)[k]| <= 76)
            && Unbroken(MimeEncode(data)) == s && DecodeBase64(s) == Ok(data)
  {
    var s := EncodeBase64(data);
    MimeGoIs(s, 0, []);
    assert s[0..] == s;
    assert Reverse<string>([]) + Lines(s) == Lines(s);
    assert Reverse<string>([]) + [] == [];
    LinesAre(s);
    EncodedShape(data);
    NoBreaks(s, Pads(|data|));
    JoinDropped(Lines(s));
    Base64RoundTrip(data);
  }

  lemma NoBreaks(s: string, n: nat)
    requires PaddedBy(s, n)
    ensures forall k :: 0 <= k < |Lines(s)| ==> '\r' !in Lines(s)[k] && '\n' !in Lines(s)[k]
  {
    forall i | 0 <= i < |s| ensures s[i] != '\r' && s[i] != '\n' {
      if i < |s| - n { assert s[i] !in "=-_\r\n"; } else { assert s[i] == '='; }
    }
    LinesWithin(s);
  }

  lemma {:induction false} LinesWithin(s: string)
    ensures forall k :: 0 <= k < |Lines(s)| ==> forall c :: c in Lines(s)[k] ==> c in s
  {
    if |s| > 76 { LinesWithin(s[76..]); }
  }

  // ---------------------------------------------------------------- MIME line by line

  lemma JoinLines(s: string)
    requires |s| > 76
    ensures Join(Lines(s)) == s[..76] + [13 as char, 10 as char] + Join(Lines(s[76..]))
  {
    assert Lines(s)[1..] == Lines(s[76..]);
  }

  lemma {:induction false} LineAt(s: string, k: nat, c: nat)
    requires c < 76 && 76 * k + c < |s|
    ensures 78 * k + c < |Join(Lines(s))| && Join(Lines(s))[78 * k + c] == s[76 * k + c]
    decreases k
  {
    hide Join, Lines;
    if |s| <= 76 {
      JoinOne(s);
    } else {
      JoinLines(s);
      if k > 0 { LineAt(s[76..], k - 1, c); }
    }
  }

  lemma JoinOne(s: string)
    requires |s| <= 76
    ensures Join(Lines(s)) == s
  {
  }

  lemma {:induction false} BreakAt(s: string, k: nat)
    requires k > 0 && 76 * k < |s|
    ensures 78 * k < |Join(Lines(s))|
    ensures Join(Lines(s))[78 * k - 2] == 13 as char && Join(Lines(s))[78 * k - 1] == 10 as char
    decreases k
  {
    hide Join, Lines;
    JoinLines(s);
    LineAt(s, k, 0);
    if k > 1 { BreakAt(s[76..], k - 1); }
  }

  lemma {:induction false} JoinedLength(s: string, k: nat)
    requires 76 * k < |s| <= 76 * k + 76
    ensures |Join(Lines(s))| == |s| + 2 * k
    decreases k
  {
    hide Join, Lines;
    if k == 0 {
      JoinOne(s);
    } else {
      JoinLines(s);
      JoinedLength(s[76..], k - 1);
    }
  }

  /** In MIME output the carriage return and the line feed, codes 13 and 10, stand after every
      76 characters of the encoding that more follow, and nothing else is added. */
  lemma MimeText(data: seq<byte>, k: nat, c: nat)
    requires var s := EncodeBase64(data); c < 76 && 76 * k + c < |s|
    ensures var s, text := EncodeBase64(data), MimeEncode(data);
            && 78 * k + c < |text| && text[78 * k + c] == s[76 * k + c]
            && (k > 0 ==> text[78 * k - 2] == 13 as char && text[78 * k - 1] == 10 as char)
            && (|s| <= 76 * k + 76 ==> |text| == |s| + 2 * k)
  {
    hide EncodeBase64, DecodeBase64, Join, Lines, Concat, Unbroken;
    var s := EncodeBase64(data);
    MimeIs(data);
    LineAt(s, k, c);
    if k > 0 { BreakAt(s, k); }
    if |s| <= 76 * k + 76 { JoinedLength(s, k); }
  }
}
