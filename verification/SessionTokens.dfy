/**
 * Session tokens: base64url of a payload, a dot, base64url of its MAC. JSON
 * and HMAC are parameters; the base64url of section 5 of RFC 4648 is not.
 */
module SessionTokens {
  import opened Outcomes
  import opened Splitting

  type Byte = x: int | 0 <= x < 256

  const SESSION_TTL_SECONDS: int := 30 * 24 * 60 * 60

  // ---- base64 -------------------------------------------------------------

  /** The character of a 6-bit value in standard base64. */
  function Char64(n: int): char
    requires 0 <= n < 64
  {
    if n < 26 then 'A' + n as char
    else if n < 52 then 'a' + (n - 26) as char
    else if n < 62 then '0' + (n - 52) as char
    else if n == 62 then '+' else '/'
  }

  function Value64(c: char): Option<int> {
    if 'A' <= c <= 'Z' then Some(c as int - 'A' as int)
    else if 'a' <= c <= 'z' then Some(c as int - 'a' as int + 26)
    else if '0' <= c <= '9' then Some(c as int - '0' as int + 52)
    else if c == '+' then Some(62)
    else if c == '/' then Some(63)
    else None
  }

  /** toString('base64'): three bytes to four characters, the rest padded with '='. */
  function Base64(bytes: seq<Byte>): string {
    if |bytes| == 0 then ""
    else if |bytes| == 1 then
      [Char64(bytes[0] / 4), Char64(bytes[0] % 4 * 16), '=', '=']
    else if |bytes| == 2 then
      [Char64(bytes[0] / 4), Char64(bytes[0] % 4 * 16 + bytes[1] / 16), Char64(bytes[1] % 16 * 4), '=']
    else
      [Char64(bytes[0] / 4), Char64(bytes[0] % 4 * 16 + bytes[1] / 16),
       Char64(bytes[1] % 16 * 4 + bytes[2] / 64), Char64(bytes[2] % 64)]
      + Base64(bytes[3..])
  }

  function Replaced(s: string, from: char, to: char): string {
    seq(|s|, i requires 0 <= i < |s| => if s[i] == from then to else s[i])
  }

  function WithoutPadding(s: string): string {
    if s != [] && s[|s| - 1] == '=' then WithoutPadding(s[..|s| - 1]) else s
  }

  function B64Url(bytes: seq<Byte>): string {
    WithoutPadding(Replaced(Replaced(Base64(bytes), '+', '-'), '/', '_'))
  }

  /** The values of the characters Buffer.from looks at: up to the first '=', skipping what is not base64. */
  function Values(s: string): seq<int> {
    if s == [] || s[0] == '=' then []
    else (if Value64(s[0]).Some? then [Value64(s[0]).value] else []) + Values(s[1..])
  }

  predicate Sextets(vs: seq<int>) {
    forall i :: 0 <= i < |vs| ==> 0 <= vs[i] < 64
  }

  lemma {:induction false} ValuesAreSextets(s: string)
    ensures Sextets(Values(s))
  {
    if s != [] { ValuesAreSextets(s[1..]); }
  }

  /** Four values to three bytes; two or three left over to one or two; a single one is dropped. */
  function Bytes(vs: seq<int>): seq<Byte>
    requires Sextets(vs)
  {
    if |vs| <= 1 then []
    else if |vs| == 2 then [vs[0] * 4 + vs[1] / 16]
    else if |vs| == 3 then [vs[0] * 4 + vs[1] / 16, vs[1] % 16 * 16 + vs[2] / 4]
    else [vs[0] * 4 + vs[1] / 16, vs[1] % 16 * 16 + vs[2] / 4, vs[2] % 4 * 64 + vs[3]] + Bytes(vs[4..])
  }

  function FromB64Url(s: string): seq<Byte> {
    var standard := Replaced(Replaced(s, '-', '+'), '_', '/');
    ValuesAreSextets(standard);
    Bytes(Values(standard))
  }

  // ---- decoding inverts encoding --------------------------------------------

  lemma CharValue(n: int)
    requires 0 <= n < 64
    ensures Value64(Char64(n)) == Some(n) && Char64(n) != '=' && Char64(n) != '.' && Char64(n) != '-' && Char64(n) != '_'
  {
  }

  /** The sextets of a byte sequence. */
  function Split6(bytes: seq<Byte>): (vs: seq<int>)
    ensures Sextets(vs)
  {
    if |bytes| == 0 then []
    else if |bytes| == 1 then [bytes[0] / 4, bytes[0] % 4 * 16]
    else if |bytes| == 2 then [bytes[0] / 4, bytes[0] % 4 * 16 + bytes[1] / 16, bytes[1] % 16 * 4]
    else [bytes[0] / 4, bytes[0] % 4 * 16 + bytes[1] / 16, bytes[1] % 16 * 4 + bytes[2] / 64, bytes[2] % 64] + Split6(bytes[3..])
  }

  lemma Regrouped(a: Byte, b: Byte, c: Byte)
    ensures a / 4 * 4 + (a % 4 * 16 + b / 16) / 16 == a
    ensures (a % 4 * 16 + b / 16) % 16 * 16 + (b % 16 * 4 + c / 64) / 4 == b
    ensures (b % 16 * 4 + c / 64) % 4 * 64 + c % 64 == c
  {
    HighPart(a % 4, b / 16);
    HighPart4(b % 16, c / 64);
  }

  lemma HighPart(h: int, l: int)
    requires 0 <= h && 0 <= l < 16
    ensures (h * 16 + l) / 16 == h && (h * 16 + l) % 16 == l
  {
  }

  lemma HighPart4(h: int, l: int)
    requires 0 <= h && 0 <= l < 4
    ensures (h * 4 + l) / 4 == h && (h * 4 + l) % 4 == l
  {
  }

  lemma {:induction false} BytesOfSplit(bytes: seq<Byte>)
    ensures Bytes(Split6(bytes)) == bytes
  {
    if |bytes| == 1 {
      Regrouped(bytes[0], 0, 0);
    } else if |bytes| == 2 {
      Regrouped(bytes[0], bytes[1], 0);
    } else if |bytes| >= 3 {
      Regrouped(bytes[0], bytes[1], bytes[2]);
      BytesOfSplit(bytes[3..]);
      var head := [bytes[0] / 4, bytes[0] % 4 * 16 + bytes[1] / 16, bytes[1] % 16 * 4 + bytes[2] / 64, bytes[2] % 64];
      assert Split6(bytes)[4..] == Split6(bytes[3..]);
    }
  }

  /** The text of sextets, without padding, in the standard alphabet and in the URL one. */
  function Text64(vs: seq<int>): string
    requires Sextets(vs)
  {
    seq(|vs|, i requires 0 <= i < |vs| => Char64(vs[i]))
  }

  function UrlChar(c: char): char {
    if c == '+' then '-' else if c == '/' then '_' else c
  }

  function TextUrl(vs: seq<int>): string
    requires Sextets(vs)
  {
    seq(|vs|, i requires 0 <= i < |vs| => UrlChar(Char64(vs[i])))
  }

  function Padding(n: nat): string {
    if n % 3 == 1 then "==" else if n % 3 == 2 then "=" else ""
  }

  lemma {:induction false} Base64IsText(bytes: seq<Byte>)
    ensures Base64(bytes) == Text64(Split6(bytes)) + Padding(|bytes|)
  {
    hide Char64;
    if |bytes| >= 3 {
      Base64IsText(bytes[3..]);
      assert |bytes[3..]| % 3 == |bytes| % 3;
    }
  }

  lemma UrlReplaced(vs: seq<int>, padding: string)
    requires Sextets(vs) && padding in {"", "=", "=="}
    ensures Replaced(Replaced(Text64(vs) + padding, '+', '-'), '/', '_') == TextUrl(vs) + padding
  {
    var s := Text64(vs) + padding;
    forall i | 0 <= i < |s|
      ensures Replaced(Replaced(s, '+', '-'), '/', '_')[i] == (TextUrl(vs) + padding)[i]
    {
      if i < |vs| { CharValue(vs[i]); } else { assert s[i] == '='; }
    }
  }

  lemma UnpaddedText(vs: seq<int>, padding: string)
    requires Sextets(vs) && padding in {"", "=", "=="}
    ensures WithoutPadding(TextUrl(vs) + padding) == TextUrl(vs)
  {
    var t := TextUrl(vs);
    if vs != [] { CharValue(vs[|vs| - 1]); }
    assert WithoutPadding(t) == t;
    if padding == "=" {
      assert (t + "=")[..|t + "="| - 1] == t;
    } else if padding == "==" {
      assert (t + "==")[..|t + "=="| - 1] == t + "=" && (t + "=")[..|t + "="| - 1] == t;
      assert WithoutPadding(t + "=") == t;
    } else {
      assert t + "" == t;
    }
  }

  lemma EncodesAs(bytes: seq<Byte>)
    ensures B64Url(bytes) == TextUrl(Split6(bytes))
  {
    hide Base64, Split6, WithoutPadding, Replaced;
    Base64IsText(bytes);
    UrlReplaced(Split6(bytes), Padding(|bytes|));
    UnpaddedText(Split6(bytes), Padding(|bytes|));
  }

  lemma UrlBack(vs: seq<int>)
    requires Sextets(vs)
    ensures Replaced(Replaced(TextUrl(vs), '-', '+'), '_', '/') == Text64(vs)
  {
    forall i | 0 <= i < |vs|
      ensures Replaced(Replaced(TextUrl(vs), '-', '+'), '_', '/')[i] == Text64(vs)[i]
    {
      CharValue(vs[i]);
    }
  }

  lemma {:induction false} ValuesOfText(vs: seq<int>)
    requires Sextets(vs)
    ensures Values(Text64(vs)) == vs
  {
    hide Char64, Value64;
    if vs != [] {
      CharValue(vs[0]);
      ValuesOfText(vs[1..]);
      assert Text64(vs)[1..] == Text64(vs[1..]);
    }
  }

  /** base64url: decoding inverts encoding for every byte sequence, and the encoding holds no dot. */
  lemma Base64UrlRoundTrip(bytes: seq<Byte>)
    ensures FromB64Url(B64Url(bytes)) == bytes
    ensures '.' !in B64Url(bytes)
    ensures B64Url(bytes) == "" <==> bytes == []
  {
    hide Base64, WithoutPadding, Replaced, Values, Bytes, Char64;
    var vs := Split6(bytes);
    EncodesAs(bytes);
    UrlBack(vs);
    ValuesOfText(vs);
    BytesOfSplit(bytes);
    forall i | 0 <= i < |vs| ensures TextUrl(vs)[i] != '.' { CharValue(vs[i]); }
  }

  // ---- what is encoded, in numbers ------------------------------------------

  /** The alphabet of section 5 of RFC 4648. */
  const UPPER: string := "ABCDEFGHIJKLMNOPQRSTUVWXYZ"
  const LOWER: string := "abcdefghijklmnopqrstuvwxyz"
  const OTHERS: string := "0123456789-_"
  const URL_ALPHABET: string := UPPER + LOWER + OTHERS

  function At(digits: seq<int>, i: nat): int {
    if i < |digits| then digits[i] else 0
  }

  /** The 24-bit number of the group of three bytes from i on; bytes past the end count as zero. */
  function OfBytes(bytes: seq<int>, i: nat): int {
    At(bytes, i) * 65536 + At(bytes, i + 1) * 256 + At(bytes, i + 2)
  }

  /** The 24-bit number of the four characters from i on. */
  function OfCharacters(digits: seq<int>, i: nat): int {
    At(digits, i) * 262144 + At(digits, i + 1) * 4096 + At(digits, i + 2) * 64 + At(digits, i + 3)
  }

  lemma UrlAlphabet(n: int)
    requires 0 <= n < 64
    ensures |URL_ALPHABET| == 64 && UrlChar(Char64(n)) == URL_ALPHABET[n]
  {
    if n < 26 { assert UPPER[n] == 'A' + n as char; }
    else if n < 52 { assert LOWER[n - 26] == 'a' + (n - 26) as char; }
    else { assert OTHERS[n - 52] == UrlChar(Char64(n)); }
  }

  lemma GroupValue(a: Byte, b: Byte, c: Byte)
    ensures a / 4 * 262144 + (a % 4 * 16 + b / 16) * 4096 + (b % 16 * 4 + c / 64) * 64 + c % 64 == a * 65536 + b * 256 + c
  {
  }

  lemma {:induction false} SplitGroups(bytes: seq<Byte>, g: nat)
    ensures |Split6(bytes)| == (4 * |bytes| + 2) / 3
    ensures OfCharacters(Split6(bytes), 4 * g) == OfBytes(bytes, 3 * g)
  {
    var b0: Byte, b1: Byte, b2: Byte := At(bytes, 0), At(bytes, 1), At(bytes, 2);
    GroupValue(b0, b1, b2);
    if |bytes| >= 3 {
      SplitGroups(bytes[3..], if g == 0 then 0 else g - 1);
      assert Split6(bytes)[4..] == Split6(bytes[3..]);
      if g > 0 { Moved(Split6(bytes), bytes, g); }
    }
  }

  lemma Moved(digits: seq<int>, bytes: seq<int>, g: nat)
    requires g > 0 && |digits| >= 4 && |bytes| >= 3
    ensures OfCharacters(digits, 4 * g) == OfCharacters(digits[4..], 4 * (g - 1))
    ensures OfBytes(bytes, 3 * g) == OfBytes(bytes[3..], 3 * (g - 1))
  {
  }

  /**
   * The encoding in numbers: its length, its alphabet, and in every group
   * four characters that denote the 24-bit number of three bytes.
   */
  lemma EncodingDenotes(bytes: seq<Byte>) returns (digits: seq<int>)
    ensures |B64Url(bytes)| == |digits| == (4 * |bytes| + 2) / 3
    ensures forall i :: 0 <= i < |digits| ==> 0 <= digits[i] < |URL_ALPHABET| && B64Url(bytes)[i] == URL_ALPHABET[digits[i]]
    ensures forall g: nat :: OfCharacters(digits, 4 * g) == OfBytes(bytes, 3 * g)
  {
    hide B64Url, OfCharacters, OfBytes, Split6, Char64, UrlChar;
    digits := Split6(bytes);
    EncodesAs(bytes);
    SplitGroups(bytes, 0);
    UrlAlphabet(0);
    forall i | 0 <= i < |digits| ensures B64Url(bytes)[i] == URL_ALPHABET[digits[i]] { UrlAlphabet(digits[i]); }
    forall g: nat ensures OfCharacters(digits, 4 * g) == OfBytes(bytes, 3 * g) { SplitGroups(bytes, g); }
  }

  /** What it means that a full group of characters denotes its three bytes. */
  lemma FullGroup(digits: seq<int>, bytes: seq<int>, g: nat)
    requires 4 * g + 3 < |digits| && 3 * g + 2 < |bytes| && OfCharacters(digits, 4 * g) == OfBytes(bytes, 3 * g)
    ensures digits[4 * g] * 262144 + digits[4 * g + 1] * 4096 + digits[4 * g + 2] * 64 + digits[4 * g + 3]
            == bytes[3 * g] * 65536 + bytes[3 * g + 1] * 256 + bytes[3 * g + 2]
  {
  }

  /** And the last group, when one or two bytes are left. */
  lemma LastGroup(digits: seq<int>, bytes: seq<int>)
    requires |digits| == (4 * |bytes| + 2) / 3 && OfCharacters(digits, 4 * (|bytes| / 3)) == OfBytes(bytes, 3 * (|bytes| / 3))
    ensures |bytes| % 3 == 1 ==> digits[|digits| - 2] * 64 + digits[|digits| - 1] == bytes[|bytes| - 1] * 16
    ensures |bytes| % 3 == 2 ==>
              digits[|digits| - 3] * 4096 + digits[|digits| - 2] * 64 + digits[|digits| - 1]
              == (bytes[|bytes| - 2] * 256 + bytes[|bytes| - 1]) * 4
  {
    var g := |bytes| / 3;
    if |bytes| % 3 == 1 { assert |bytes| == 3 * g + 1 && |digits| == 4 * g + 2; }
    if |bytes| % 3 == 2 { assert |bytes| == 3 * g + 2 && |digits| == 4 * g + 3; }
  }

  // ---- what is read, character by character ---------------------------------

  lemma {:induction false} ValuesOfJoined(a: string, b: string)
    ensures Values(a + b) == if '=' in a then Values(a) else Values(a) + Values(b)
  {
    if a == [] {
      assert a + b == b;
    } else {
      ValuesOfJoined(a[1..], b);
      assert (a + b)[1..] == a[1..] + b;
    }
  }

  function Standard(s: string): string {
    Replaced(Replaced(s, '-', '+'), '_', '/')
  }

  lemma StandardOfJoined(a: string, b: string)
    ensures Standard(a + b) == Standard(a) + Standard(b)
    ensures '=' in Standard(a) <==> '=' in a
  {
    forall i | 0 <= i < |a| ensures (Standard(a)[i] == '=') <==> (a[i] == '=') {}
  }

  lemma ReadInParts(a: string, x: string, b: string)
    requires '=' !in a
    ensures Values(Standard(a + x + b))
            == Values(Standard(a)) + (if '=' in x then Values(Standard(x)) else Values(Standard(x)) + Values(Standard(b)))
    ensures FromB64Url(a + x + b) == (ValuesAreSextets(Standard(a + x + b)); Bytes(Values(Standard(a + x + b))))
  {
    hide Bytes, Values;
    StandardOfJoined(a + x, b);
    StandardOfJoined(a, x);
    StandardOfJoined(x, b);
    assert Standard(a) + Standard(x) + Standard(b) == Standard(a) + (Standard(x) + Standard(b));
    ValuesOfJoined(Standard(a), Standard(x) + Standard(b));
    ValuesOfJoined(Standard(x), Standard(b));
  }

  lemma InAlphabet(c: char)
    ensures ('A' <= c <= 'Z' ==> c in UPPER) && ('a' <= c <= 'z' ==> c in LOWER) && ('0' <= c <= '9' ==> c in OTHERS)
  {
    if 'A' <= c <= 'Z' { assert UPPER[c as int - 'A' as int] == c; }
    if 'a' <= c <= 'z' { assert LOWER[c as int - 'a' as int] == c; }
    if '0' <= c <= '9' { assert OTHERS[c as int - '0' as int] == c; }
  }

  lemma ForeignCharacter(c: char)
    requires c !in UPPER && c !in LOWER && c !in OTHERS && c !in "+/="
    ensures Values(Standard([c])) == [] && '=' !in [c]
  {
    InAlphabet(c);
    assert Standard([c]) == [c];
  }

  /** Reading stops at the first '=' and skips every character of neither alphabet; '+' and '-', '/' and '_' are read alike. */
  lemma ReadingIgnores(a: string, b: string, c: char)
    requires '=' !in a
    ensures FromB64Url(a + "=" + b) == FromB64Url(a)
    ensures c !in UPPER && c !in LOWER && c !in OTHERS && c !in "+/=" ==> FromB64Url(a + [c] + b) == FromB64Url(a + b)
    ensures FromB64Url(a + "+" + b) == FromB64Url(a + "-" + b) && FromB64Url(a + "/" + b) == FromB64Url(a + "_" + b)
  {
    hide Bytes, FromB64Url, Value64;
    assert Standard("=") == "=" && Standard("+") == "+" == Standard("-") && Standard("/") == "/" == Standard("_") && Standard("") == "";
    ReadInParts(a, "=", b);
    ReadInParts(a, "", "");
    assert a + "" + "" == a;
    ReadInParts(a, "", b);
    assert a + "" + b == a + b;
    ReadInParts(a, "+", b);
    ReadInParts(a, "-", b);
    ReadInParts(a, "/", b);
    ReadInParts(a, "_", b);
    if c !in UPPER && c !in LOWER && c !in OTHERS && c !in "+/=" {
      ForeignCharacter(c);
      ReadInParts(a, [c], b);
    }
  }

  lemma {:induction false} BytesGroups(vs: seq<int>, g: nat)
    requires Sextets(vs)
    ensures |Bytes(vs)| == |vs| * 3 / 4
    ensures OfBytes(Bytes(vs), 3 * g) == OfCharacters(vs, 4 * g) / Dropped(|vs| - 4 * g) * Dropped(|vs| - 4 * g)
  {
    if |vs| >= 4 {
      BytesGroups(vs[4..], if g == 0 then 0 else g - 1);
      assert Bytes(vs)[3..] == Bytes(vs[4..]);
      if g > 0 { Moved(vs, Bytes(vs), g); } else { SextetsValue(vs[0], vs[1], vs[2], vs[3]); }
    } else if g == 0 {
      SextetsValue(At(vs, 0), At(vs, 1), At(vs, 2), 0);
    }
  }

  /** The part of a group's 24-bit number that is not read when only so many characters are left. */
  function Dropped(left: int): int {
    if left >= 4 then 1 else if left == 3 then 256 else if left == 2 then 65536 else 16777216
  }

  lemma SextetsValue(a: int, b: int, c: int, d: int)
    requires 0 <= a < 64 && 0 <= b < 64 && 0 <= c < 64 && 0 <= d < 64
    ensures (a * 4 + b / 16) * 65536 + (b % 16 * 16 + c / 4) * 256 + (c % 4 * 64 + d) == a * 262144 + b * 4096 + c * 64 + d
    ensures (a * 4 + b / 16) * 65536 + (b % 16 * 16 + c / 4) * 256 == (a * 262144 + b * 4096 + c * 64) / 256 * 256
    ensures (a * 4 + b / 16) * 65536 == (a * 262144 + b * 4096) / 65536 * 65536
    ensures a * 262144 < 16777216
  {
  }

  /** What is read of any characters of the alphabet: the bytes of every group, as far as whole bytes go. */
  lemma ReadingDenotes(text: string, digits: seq<int>)
    requires |text| == |digits|
    requires forall i :: 0 <= i < |digits| ==> 0 <= digits[i] < |URL_ALPHABET| && text[i] == URL_ALPHABET[digits[i]]
    ensures |FromB64Url(text)| == |digits| * 3 / 4
    ensures forall g: nat ::
              var left := |digits| - 4 * g;
              var unit := if left >= 4 then 1 else if left == 3 then 256 else if left == 2 then 65536 else 16777216;
              OfBytes(FromB64Url(text), 3 * g) == OfCharacters(digits, 4 * g) / unit * unit
  {
    hide OfBytes, OfCharacters, Bytes, Values, Replaced;
    UrlAlphabet(0);
    assert text == TextUrl(digits) by {
      forall i | 0 <= i < |digits| ensures text[i] == TextUrl(digits)[i] { UrlAlphabet(digits[i]); }
    }
    UrlBack(digits);
    ValuesOfText(digits);
    BytesGroups(digits, 0);
    forall g: nat ensures OfBytes(FromB64Url(text), 3 * g) == OfCharacters(digits, 4 * g) / Dropped(|digits| - 4 * g) * Dropped(|digits| - 4 * g) {
      BytesGroups(digits, g);
    }
  }

  // ---- tokens -----------------------------------------------------------------

  datatype Payload = Payload(sub: string, activeRoleId: Option<string>, iat: int, exp: int)

  /** What JSON.parse may make of the payload bytes. */
  datatype Parsed = NotJson | JsonNull | Other | SessionJson(payload: Payload)

  datatype Verification = Valid(payload: Payload) | Malformed | BadSignature | Expired | Crashed

  /** JSON.stringify and JSON.parse on payloads, and the MAC. */
  datatype Crypto = Crypto(stringify: Payload -> seq<Byte>, parse: seq<Byte> -> Parsed, mac: (string, string) -> seq<Byte>)

  ghost predicate IsCrypto(k: Crypto) {
    && (forall p :: k.stringify(p) != [] && k.parse(k.stringify(p)) == SessionJson(p))
    && (forall text, secret :: k.mac(text, secret) != [])
  }

  function Sign(k: Crypto, part: string, secret: string): string {
    B64Url(k.mac(part, secret))
  }

  function Seconds(millis: int): int {
    millis / 1000
  }

  function IssueSessionToken(k: Crypto, user: string, role: Option<string>, secret: string, now: int): Result<string, string> {
    if secret == "" then Err("SESSION_SECRET is not configured")
    else
      var part := B64Url(k.stringify(Payload(user, role, Seconds(now), Seconds(now) + SESSION_TTL_SECONDS)));
      Ok(part + "." + Sign(k, part, secret))
  }

  function VerifySessionToken(k: Crypto, token: string, secret: string, now: int): Result<Verification, string> {
    if secret == "" then Err("SESSION_SECRET is not configured")
    else
      var parts := SplitOn(token, '.');
      Ok(if |parts| != 2 || parts[0] == "" || parts[1] == "" then Malformed
         else if parts[1] != Sign(k, parts[0], secret) then BadSignature
         else match k.parse(FromB64Url(parts[0]))
           case NotJson => Malformed
           case JsonNull => Crashed
           case Other => Malformed
           case SessionJson(payload) => if Seconds(now) >= payload.exp then Expired else Valid(payload))
  }

  lemma OneDotTwoParts(a: string, b: string)
    requires '.' !in a && '.' !in b
    ensures SplitOn(a + "." + b, '.') == [a, b]
  {
    SplitAtFirst(a, '.', b);
    NoneToSplit(b, '.');
  }

  /** What the token of a payload part and a signature part is answered, the empty secret aside. */
  function Answer(k: Crypto, part: string, signature: string, secret: string, now: int): Verification {
    if signature != B64Url(k.mac(part, secret)) then BadSignature
    else match k.parse(FromB64Url(part))
      case NotJson => Malformed
      case JsonNull => Crashed
      case Other => Malformed
      case SessionJson(payload) => if now / 1000 >= payload.exp then Expired else Valid(payload)
  }

  ghost predicate HasParts(token: string, part: string, signature: string) {
    token == part + "." + signature && part != "" && signature != "" && '.' !in part && '.' !in signature
  }

  /** Every answer: a token with two parts by its parts, any other token is malformed, and without a secret there is none. */
  lemma AnsweredExactly(k: Crypto, token: string, secret: string, now: int)
    ensures VerifySessionToken(k, token, secret, now).Err? <==> secret == ""
    ensures forall part, signature :: secret != "" && HasParts(token, part, signature) ==>
              VerifySessionToken(k, token, secret, now) == Ok(Answer(k, part, signature, secret, now))
    ensures secret != "" && (forall part, signature :: !HasParts(token, part, signature)) ==>
              VerifySessionToken(k, token, secret, now) == Ok(Malformed)
  {
    hide B64Url, FromB64Url, SplitOn;
    PiecesJoin(token, '.');
    PiecesHaveNone(token, '.');
    forall part, signature | HasParts(token, part, signature) ensures SplitOn(token, '.') == [part, signature] {
      OneDotTwoParts(part, signature);
    }
    var parts := SplitOn(token, '.');
    if |parts| == 2 && parts[0] != "" && parts[1] != "" {
      assert parts[0] in parts && parts[1] in parts;
      assert HasParts(token, parts[0], parts[1]);
    }
  }

  /** What is issued: the encoded payload, a dot and its encoded MAC; and nothing exactly without a secret. */
  lemma IssuedExactly(k: Crypto, user: string, role: Option<string>, secret: string, now: int)
    ensures IssueSessionToken(k, user, role, secret, now).Err? <==> secret == ""
    ensures secret != "" ==>
              var part := B64Url(k.stringify(Payload(user, role, now / 1000, now / 1000 + 2592000)));
              IssueSessionToken(k, user, role, secret, now).value == part + "." + B64Url(k.mac(part, secret))
  {
  }

  /** An issued token verifies to what it was issued for, exactly in the 2592000 seconds (30 days) from its issue. */
  lemma IssuedTokenVerifies(k: Crypto, user: string, role: Option<string>, secret: string, issued: int, now: int)
    requires IsCrypto(k) && secret != ""
    ensures IssueSessionToken(k, user, role, secret, issued).Ok?
    ensures VerifySessionToken(k, IssueSessionToken(k, user, role, secret, issued).value, secret, now)
            == Ok(if now / 1000 < issued / 1000 + 2592000 then Valid(Payload(user, role, issued / 1000, issued / 1000 + 2592000)) else Expired)
  {
    OtherSecretExactly(k, user, role, secret, secret, issued, now);
  }

  /**
   * A token issued under one secret and presented under another is accepted,
   * in time, exactly when both give its payload part the same MAC; otherwise
   * its signature is bad.
   */
  lemma OtherSecretExactly(k: Crypto, user: string, role: Option<string>, secret: string, other: string, issued: int, now: int)
    requires IsCrypto(k) && secret != "" && other != ""
    ensures IssueSessionToken(k, user, role, secret, issued).Ok?
    ensures var payload := Payload(user, role, issued / 1000, issued / 1000 + 2592000);
            var part := B64Url(k.stringify(payload));
            VerifySessionToken(k, IssueSessionToken(k, user, role, secret, issued).value, other, now)
            == Ok(if k.mac(part, secret) != k.mac(part, other) then BadSignature
                  else if now / 1000 < issued / 1000 + 2592000 then Valid(payload) else Expired)
  {
    hide B64Url, FromB64Url, SplitOn, VerifySessionToken;
    var payload := Payload(user, role, issued / 1000, issued / 1000 + 2592000);
    assert k.stringify(payload) != [] && k.parse(k.stringify(payload)) == SessionJson(payload);
    var part := B64Url(k.stringify(payload));
    Base64UrlRoundTrip(k.stringify(payload));
    var mac, under := k.mac(part, secret), k.mac(part, other);
    assert mac != [];
    Base64UrlRoundTrip(mac);
    Base64UrlRoundTrip(under);
    var token := IssueSessionToken(k, user, role, secret, issued).value;
    assert HasParts(token, part, B64Url(mac));
    AnsweredExactly(k, token, other, now);
  }

  /** Nothing else is accepted: a valid token is a payload part and the MAC of that very part under the secret, in time. */
  lemma AcceptedExactly(k: Crypto, token: string, secret: string, now: int, payload: Payload)
    requires secret != "" && IsCrypto(k)
    ensures VerifySessionToken(k, token, secret, now) == Ok(Valid(payload)) <==>
            exists part ::
              && part != "" && '.' !in part && token == part + "." + B64Url(k.mac(part, secret))
              && k.parse(FromB64Url(part)) == SessionJson(payload) && now / 1000 < payload.exp
  {
    hide B64Url, FromB64Url, SplitOn, VerifySessionToken;
    AnsweredExactly(k, token, secret, now);
    if VerifySessionToken(k, token, secret, now) == Ok(Valid(payload)) {
      var part, signature :| HasParts(token, part, signature);
      assert token == part + "." + B64Url(k.mac(part, secret));
    }
    if part :| part != "" && '.' !in part && token == part + "." + B64Url(k.mac(part, secret))
               && k.parse(FromB64Url(part)) == SessionJson(payload) && now / 1000 < payload.exp {
      assert k.mac(part, secret) != [];
      Base64UrlRoundTrip(k.mac(part, secret));
      assert HasParts(token, part, B64Url(k.mac(part, secret)));
    }
  }
}
