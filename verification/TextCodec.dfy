/** The three encodings inside a pairing URI (decimal, percent-encoding, base64url without
    padding) with the decoders a client applies, and splitting on a separator. */
module TextCodec {
  import opened Prelude

  type Byte = b: nat | b < 256

  // ----- decimal ---------------------------------------------------------------------

  function Digit(d: nat): char
    requires d < 10
  {
    ('0' as int + d) as char
  }

  function Decimal(n: nat): string {
    if n < 10 then [Digit(n)] else Decimal(n / 10) + [Digit(n % 10)]
  }

  function ParseDecimal(s: string): Option<nat> {
    if s == [] || !('0' <= Last(s) <= '9') then None else
    var d := Last(s) as int - '0' as int;
    if |s| == 1 then Some(d) else
    match ParseDecimal(DropLast(s)) case None => None case Some(n) => Some(n * 10 + d)
  }

  lemma {:induction false} DecimalRoundTrip(n: nat)
    ensures ParseDecimal(Decimal(n)) == Some(n)
    ensures forall c :: c in Decimal(n) ==> '0' <= c <= '9'
  {
    if n >= 10 {
      DecimalRoundTrip(n / 10);
      assert DropLast(Decimal(n)) == Decimal(n / 10);
    }
  }

  /** No leading zeros. */
  lemma {:induction false} DecimalCanonical(n: nat)
    ensures Decimal(n) != [] && (Decimal(n)[0] == '0' ==> n == 0)
  {
    if n >= 10 { DecimalCanonical(n / 10); }
  }

  // ----- percent-encoding (section 2.1 of RFC 3986) ----------------------------------

  predicate Unreserved(b: Byte) {
    var c := b as char;
    'A' <= c <= 'Z' || 'a' <= c <= 'z' || '0' <= c <= '9' || c == '-' || c == '_' || c == '.' || c == '~'
  }

  function Hex(n: nat): char
    requires n < 16
  {
    if n < 10 then ('0' as int + n) as char else ('A' as int + n - 10) as char
  }

  function ParseHex(c: char): Option<nat> {
    if '0' <= c <= '9' then Some(c as int - '0' as int)
    else if 'A' <= c <= 'F' then Some(c as int - 'A' as int + 10)
    else if 'a' <= c <= 'f' then Some(c as int - 'a' as int + 10)
    else None
  }

  function Percent(b: Byte): string {
    if Unreserved(b) then [b as char] else ['%', Hex(b / 16), Hex(b % 16)]
  }

  function PercentEncoded(s: seq<Byte>): string {
    if s == [] then [] else Percent(s[0]) + PercentEncoded(s[1..])
  }

  function PercentDecoded(s: string): Option<seq<Byte>> {
    if s == [] then Some([])
    else if s[0] == '%' then
      if |s| < 3 || ParseHex(s[1]).None? || ParseHex(s[2]).None? then None else
      var (hi, lo) := (ParseHex(s[1]).value, ParseHex(s[2]).value);
      var b := hi * 16 + lo;
      if b >= 256 then None else
      match PercentDecoded(s[3..]) case None => None case Some(rest) => Some([b] + rest)
    else if s[0] as int >= 256 then None else
      match PercentDecoded(s[1..]) case None => None case Some(rest) => Some([s[0] as int] + rest)
  }

  /** `percent_encode`: byte by byte onto the output. */
  method PercentEncode(s: seq<Byte>) returns (out: string)
    ensures out == PercentEncoded(s)
  {
    out := [];
    for i := 0 to |s|
      invariant out + PercentEncoded(s[i..]) == PercentEncoded(s)
    {
      assert s[i..][1..] == s[i + 1..];
      out := out + Percent(s[i]);
    }
  }

  lemma {:induction false} HexFacts(n: nat)
    requires n < 16
    ensures ParseHex(Hex(n)) == Some(n) && Hex(n) != '&'
  {}

  lemma {:induction false} PercentHead(b: Byte, text: string, rest: seq<Byte>)
    requires PercentDecoded(text) == Some(rest)
    ensures PercentDecoded(Percent(b) + text) == Some([b] + rest)
    ensures '&' !in Percent(b)
  {
    var out := Percent(b) + text;
    if Unreserved(b) {
      assert out[1..] == text;
    } else {
      HexFacts(b / 16);
      HexFacts(b % 16);
      assert out[3..] == text;
    }
  }

  lemma {:induction false} PercentRoundTrip(s: seq<Byte>)
    ensures PercentDecoded(PercentEncoded(s)) == Some(s)
    ensures '&' !in PercentEncoded(s)
  {
    if s != [] {
      PercentRoundTrip(s[1..]);
      PercentHead(s[0], PercentEncoded(s[1..]), s[1..]);
      assert s == [s[0]] + s[1..];
    }
  }

  /** The ASCII codes of the unreserved characters, section 2.3 of RFC 3986: the letters, the
      digits, and "-._~". */
  predicate Plain(c: char) {
    var n := c as int;
    65 <= n <= 90 || 97 <= n <= 122 || 48 <= n <= 57 || n == 45 || n == 46 || n == 95 || n == 126
  }

  predicate UpperHex(c: char) {
    48 <= c as int <= 57 || 65 <= c as int <= 70
  }

  /** Unreserved characters and escapes with uppercase digits, and nothing else. */
  predicate Conforms(text: string) {
    text == [] ||
    (if Plain(text[0]) then Conforms(text[1..])
     else |text| >= 3 && text[0] == '%' && UpperHex(text[1]) && UpperHex(text[2]) && Conforms(text[3..]))
  }

  lemma {:induction false} HexIsUpper(n: nat)
    requires n < 16
    ensures UpperHex(Hex(n))
  {}

  /** Exactly the unreserved bytes are written as they are. */
  lemma {:induction false} EscapedIff(b: Byte)
    ensures Percent(b) == [b as char] <==> Plain(b as char)
  {}

  /** The encoding conforms to section 2 of RFC 3986. */
  lemma {:induction false} PercentConforms(s: seq<Byte>)
    ensures Conforms(PercentEncoded(s))
  {
    if s != [] {
      PercentConforms(s[1..]);
      EscapedIff(s[0]);
      var head, rest := Percent(s[0]), PercentEncoded(s[1..]);
      if Unreserved(s[0]) {
        assert (head + rest)[1..] == rest;
      } else {
        HexIsUpper(s[0] / 16);
        HexIsUpper(s[0] % 16);
        assert (head + rest)[3..] == rest;
      }
    }
  }

  // ----- base64url without padding (section 5 of RFC 4648) ---------------------------

  type Six = n: nat | n < 64

  function Sextet(n: Six): char {
    if n < 26 then ('A' as int + n) as char
    else if n < 52 then ('a' as int + n - 26) as char
    else if n < 62 then ('0' as int + n - 52) as char
    else if n == 62 then '-' else '_'
  }

  function ParseSextet(c: char): Option<Six> {
    if 'A' <= c <= 'Z' then Some(c as int - 'A' as int)
    else if 'a' <= c <= 'z' then Some(c as int - 'a' as int + 26)
    else if '0' <= c <= '9' then Some(c as int - '0' as int + 52)
    else if c == '-' then Some(62)
    else if c == '_' then Some(63)
    else None
  }

  function Base64(s: seq<Byte>): string {
    if s == [] then []
    else if |s| == 1 then [Sextet(s[0] / 4), Sextet(s[0] % 4 * 16)]
    else if |s| == 2 then [Sextet(s[0] / 4), Sextet(s[0] % 4 * 16 + s[1] / 16), Sextet(s[1] % 16 * 4)]
    else [Sextet(s[0] / 4), Sextet(s[0] % 4 * 16 + s[1] / 16), Sextet(s[1] % 16 * 4 + s[2] / 64), Sextet(s[2] % 64)]
         + Base64(s[3..])
  }

  function Sextets(s: string): Option<seq<Six>> {
    if s == [] then Some([]) else
    match (ParseSextet(s[0]), Sextets(s[1..]))
    case (Some(n), Some(rest)) => Some([n] + rest)
    case _ => None
  }

  function Octet(n: nat): Byte {
    n % 256
  }

  /** Bytes from sextets; a lone trailing sextet is malformed. */
  function Octets(s: seq<nat>): Option<seq<Byte>> {
    if s == [] then Some([])
    else if |s| == 1 then None
    else if |s| == 2 then Some([Octet(s[0] * 4 + s[1] / 16)])
    else if |s| == 3 then Some([Octet(s[0] * 4 + s[1] / 16), Octet(s[1] * 16 + s[2] / 4)])
    else match Octets(s[4..])
         case None => None
         case Some(rest) =>
           Some([Octet(s[0] * 4 + s[1] / 16), Octet(s[1] * 16 + s[2] / 4), Octet(s[2] * 64 + s[3])] + rest)
  }

  function Base64Decoded(s: string): Option<seq<Byte>> {
    match Sextets(s) case None => None case Some(ns) => Octets(ns)
  }

  lemma {:induction false} SextetFacts(n: Six)
    ensures ParseSextet(Sextet(n)) == Some(n) && Sextet(n) != '&'
  {}

  /** The sextets `Base64` writes. */
  function Split64(s: seq<Byte>): seq<Six> {
    if s == [] then []
    else if |s| == 1 then [s[0] / 4, s[0] % 4 * 16]
    else if |s| == 2 then [s[0] / 4, s[0] % 4 * 16 + s[1] / 16, s[1] % 16 * 4]
    else [s[0] / 4, s[0] % 4 * 16 + s[1] / 16, s[1] % 16 * 4 + s[2] / 64, s[2] % 64] + Split64(s[3..])
  }

  lemma {:induction false} OneOctet(a: Byte)
    ensures Octets([a / 4, a % 4 * 16]) == Some([a])
  {
    assert Octet(a / 4 * 4 + a % 4 * 16 / 16) == a;
  }

  lemma {:induction false} HighBits(high: nat, low: nat)
    requires low < 16
    ensures (high * 16 + low) / 16 == high
  {}

  lemma {:induction false} LowBits(lost: nat, high: nat, low: nat)
    requires high < 16 && low < 16
    ensures Octet((lost * 16 + high) * 16 + low) == high * 16 + low
  {
    var n := high * 16 + low;
    assert (lost * 16 + high) * 16 + low == lost * 256 + n;
  }

  /** The sextet two bytes share gives the first its low bits and the second its high ones. */
  lemma {:induction false} Straddled(a: Byte, b: Byte)
    ensures Octet(a / 4 * 4 + (a % 4 * 16 + b / 16) / 16) == a
    ensures Octet((a % 4 * 16 + b / 16) * 16 + b % 16 * 4 / 4) == b
  {
    HighBits(a % 4, b / 16);
    LowBits(a % 4, b / 16, b % 16);
  }

  lemma {:induction false} TwoOctets(a: Byte, b: Byte)
    ensures Octets([a / 4, a % 4 * 16 + b / 16, b % 16 * 4]) == Some([a, b])
  {
    Straddled(a, b);
  }

  lemma {:induction false} ThreeOctets(a: Byte, b: Byte, c: Byte)
    ensures Octet(a / 4 * 4 + (a % 4 * 16 + b / 16) / 16) == a
    ensures Octet((a % 4 * 16 + b / 16) * 16 + (b % 16 * 4 + c / 64) / 4) == b
    ensures Octet((b % 16 * 4 + c / 64) * 64 + c % 64) == c
  {
    assert (a % 4 * 16 + b / 16) / 16 == a % 4;
    assert (b % 16 * 4 + c / 64) / 4 == b % 16;
  }

  /** A whole group of four sextets decodes on its own. */
  lemma {:induction false} OctetsGroup(w: nat, x: nat, y: nat, z: nat, more: seq<nat>, rest: seq<Byte>)
    requires Octets(more) == Some(rest)
    ensures Octets([w, x, y, z] + more) ==
      Some([Octet(w * 4 + x / 16), Octet(x * 16 + y / 4), Octet(y * 64 + z)] + rest)
  {
    assert ([w, x, y, z] + more)[4..] == more;
  }

  lemma {:induction false} GroupRoundTrip(a: Byte, b: Byte, c: Byte, more: seq<nat>, rest: seq<Byte>)
    requires Octets(more) == Some(rest)
    ensures Octets([a / 4, a % 4 * 16 + b / 16, b % 16 * 4 + c / 64, c % 64] + more) == Some([a, b, c] + rest)
  {
    ThreeOctets(a, b, c);
    OctetsGroup(a / 4, a % 4 * 16 + b / 16, b % 16 * 4 + c / 64, c % 64, more, rest);
  }

  lemma {:induction false} OctetsOfSplit(s: seq<Byte>)
    ensures Octets(Split64(s)) == Some(s)
  {
    if |s| == 1 {
      OneOctet(s[0]);
      assert s == [s[0]];
    } else if |s| == 2 {
      TwoOctets(s[0], s[1]);
      assert s == [s[0], s[1]];
    } else if |s| >= 3 {
      OctetsOfSplit(s[3..]);
      GroupRoundTrip(s[0], s[1], s[2], Split64(s[3..]), s[3..]);
      assert s == [s[0], s[1], s[2]] + s[3..];
    }
  }

  function Spelled(ns: seq<Six>): string {
    seq(|ns|, i requires 0 <= i < |ns| => Sextet(ns[i]))
  }

  lemma {:induction false} Base64IsSpelled(s: seq<Byte>)
    ensures Base64(s) == Spelled(Split64(s))
  {
    if |s| >= 3 { Base64IsSpelled(s[3..]); }
  }

  lemma {:induction false} SpelledRoundTrip(ns: seq<Six>)
    ensures Sextets(Spelled(ns)) == Some(ns)
    ensures '&' !in Spelled(ns)
  {
    if ns != [] {
      SextetFacts(ns[0]);
      SpelledRoundTrip(ns[1..]);
      assert Spelled(ns) == [Sextet(ns[0])] + Spelled(ns[1..]);
      assert Spelled(ns)[1..] == Spelled(ns[1..]);
      assert ns == [ns[0]] + ns[1..];
    }
  }

  lemma {:induction false} Base64RoundTrip(s: seq<Byte>)
    ensures Base64Decoded(Base64(s)) == Some(s)
    ensures '&' !in Base64(s)
  {
    Base64IsSpelled(s);
    SpelledRoundTrip(Split64(s));
    OctetsOfSplit(s);
  }

  /** A character of the URL-safe alphabet. */
  predicate UrlSafe(c: char) {
    'A' <= c <= 'Z' || 'a' <= c <= 'z' || '0' <= c <= '9' || c == '-' || c == '_'
  }

  /** Only the URL-safe alphabet is written, without padding. */
  lemma {:induction false} Base64Shape(s: seq<Byte>)
    ensures forall c :: c in Base64(s) ==> UrlSafe(c)
    ensures |Base64(s)| == (4 * |s| + 2) / 3
  {
    if |s| >= 3 { Base64Shape(s[3..]); }
  }

  /** Two words that use both ends of the alphabet. */
  lemma {:induction false} Base64Words()
    ensures Base64([102, 111, 111, 98]) == "Zm9vYg" && Base64([251, 255]) == "-_8"
  {
    assert [102, 111, 111, 98][3..] == [98];
    assert Base64([98]) == "Yg";
  }

  // ----- separators ------------------------------------------------------------------

  /** The position of the first `c`, or the length. */
  function Find(s: string, c: char): (i: nat)
    ensures i <= |s| && c !in s[..i] && (i < |s| ==> s[i] == c)
  {
    if s == [] || s[0] == c then 0 else
    var i := 1 + Find(s[1..], c);
    assert s[..i] == [s[0]] + s[1..][..i - 1];
    i
  }

  lemma {:induction false} FindAfter(k: string, c: char, v: string)
    requires c !in k
    ensures Find(k + [c] + v, c) == |k|
  {
    var s := k + [c] + v;
    assert s[|k|] == c;
    assert forall i :: 0 <= i < |k| ==> s[i] == k[i] && k[i] in k;
  }

  function Split(s: string, c: char): seq<string>
    decreases |s|
  {
    var i := Find(s, c);
    if i == |s| then [s] else [s[..i]] + Split(s[i + 1..], c)
  }

  function Join(parts: seq<string>, c: char): string
    requires parts != []
  {
    if |parts| == 1 then parts[0] else parts[0] + [c] + Join(parts[1..], c)
  }

  lemma {:induction false} SplitJoin(parts: seq<string>, c: char)
    requires parts != [] && forall p :: p in parts ==> c !in p
    ensures Split(Join(parts, c), c) == parts
  {
    var s := Join(parts, c);
    assert parts[0] in parts;
    if |parts| == 1 {
      assert Find(s, c) == |s|;
    } else {
      var rest := Join(parts[1..], c);
      SplitJoin(parts[1..], c);
      FindAfter(parts[0], c, rest);
      assert s[..|parts[0]|] == parts[0] && s[|parts[0]| + 1..] == rest;
    }
  }

  lemma {:induction false} SplitClean(s: string, c: char)
    ensures forall p :: p in Split(s, c) ==> c !in p
    decreases |s|
  {
    var i := Find(s, c);
    if i < |s| {
      SplitClean(s[i + 1..], c);
    } else {
      assert s[..i] == s;
    }
  }
}
