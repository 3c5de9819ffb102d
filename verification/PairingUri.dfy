/** The pairing URI: what the printer writes and what a client that splits on '&' and the
    first '=' reads back. Token and name (the label) are the bytes of their UTF-8 text. */
module PairingUri {
  import opened Prelude
  import opened TextCodec

  datatype Trust = Pin(fingerprint: string) | Ca

  datatype Params = Params(
    host: string, port: nat, trust: Trust, token: seq<Byte>, readOnly: bool, name: seq<Byte>)

  const PREFIX: string := "muxr://pair?"

  /** A SHA-256 digest in lowercase hex. */
  predicate IsFingerprint(s: string) {
    |s| == 64 && forall c :: c in s ==> '0' <= c <= '9' || 'a' <= c <= 'f'
  }

  /** What the printer is given: a 16-bit port, and a real fingerprint when pinning. */
  predicate Printable(p: Params) {
    p.port < 0x1_0000 && (p.trust.Pin? ==> IsFingerprint(p.trust.fingerprint))
  }

  function TrustSuffix(t: Trust): string {
    match t
    case Pin(fp) => "tm=pin" + "&" + ("fp=" + fp)
    case Ca => "tm=ca"
  }

  /** `to_uri`. */
  function ToUri(p: Params): string {
    PREFIX
    + ("v=2" + "&"
    + ("h=" + p.host + "&"
    + ("p=" + Decimal(p.port) + "&"
    + ("t=" + Base64(p.token) + "&"
    + ("ro=" + (if p.readOnly then "1" else "0") + "&"
    + ("n=" + PercentEncoded(p.name) + "&"
    + TrustSuffix(p.trust)))))))
  }

  // ----- the reader ------------------------------------------------------------------

  function KeyOf(part: string): string {
    part[..Find(part, '=')]
  }

  function ValueOf(part: string): string {
    var i := Find(part, '=');
    if i == |part| then "" else part[i + 1..]
  }

  /** The value of the first part with this key. */
  function Field(parts: seq<string>, key: string): Option<string> {
    if parts == [] then None
    else if KeyOf(parts[0]) == key then Some(ValueOf(parts[0]))
    else Field(parts[1..], key)
  }

  function ReadTrust(parts: seq<string>): Option<Trust> {
    match (Field(parts, "tm"), Field(parts, "fp"))
    case (Some(tm), Some(fp)) => if tm == "pin" then Some(Pin(fp)) else None
    case (Some(tm), None) => if tm == "ca" then Some(Ca) else None
    case _ => None
  }

  function ReadFlag(parts: seq<string>): Option<bool> {
    match Field(parts, "ro")
    case Some(v) => if v == "1" then Some(true) else if v == "0" then Some(false) else None
    case None => None
  }

  function ReadParts(parts: seq<string>): Option<Params> {
    match (Field(parts, "h"), Field(parts, "p"), Field(parts, "t"), Field(parts, "n"))
    case (Some(h), Some(p), Some(t), Some(n)) =>
      (match (ParseDecimal(p), Base64Decoded(t), PercentDecoded(n), ReadFlag(parts), ReadTrust(parts))
       case (Some(port), Some(token), Some(name), Some(ro), Some(trust)) =>
         Some(Params(h, port, trust, token, ro, name))
       case _ => None)
    case _ => None
  }

  function Read(uri: string): Option<Params> {
    if !(PREFIX <= uri) then None else
    var parts := Split(uri[|PREFIX|..], '&');
    if Field(parts, "v") != Some("2") then None else ReadParts(parts)
  }

  // ----- round trip ------------------------------------------------------------------

  /** The parts the printer joins. */
  function Parts(p: Params): seq<string> {
    ["v=2", "h=" + p.host, "p=" + Decimal(p.port), "t=" + Base64(p.token),
     "ro=" + (if p.readOnly then "1" else "0"), "n=" + PercentEncoded(p.name)]
    + (if p.trust.Pin? then ["tm=pin", "fp=" + p.trust.fingerprint] else ["tm=ca"])
  }

  lemma {:induction false} JoinFrom(parts: seq<string>, i: nat)
    requires i + 1 < |parts|
    ensures Join(parts[i..], '&') == parts[i] + "&" + Join(parts[i + 1..], '&')
  {
    assert parts[i..][1..] == parts[i + 1..];
  }

  lemma {:induction false} SuffixJoinsParts(p: Params)
    ensures Join(Parts(p)[6..], '&') == TrustSuffix(p.trust)
  {
    if p.trust.Pin? {
      JoinFrom(Parts(p), 6);
    }
  }

  lemma {:induction false} UriJoinsParts(p: Params)
    ensures ToUri(p) == PREFIX + Join(Parts(p), '&')
  {
    var ps := Parts(p);
    SuffixJoinsParts(p);
    JoinFrom(ps, 5);
    JoinFrom(ps, 4);
    JoinFrom(ps, 3);
    JoinFrom(ps, 2);
    JoinFrom(ps, 1);
    JoinFrom(ps, 0);
    assert ps[0..] == ps;
  }

  lemma {:induction false} KeyValue(k: string, v: string)
    requires '=' !in k
    ensures KeyOf(k + "=" + v) == k && ValueOf(k + "=" + v) == v
  {
    FindAfter(k, '=', v);
  }

  lemma {:induction false} FieldAt(parts: seq<string>, i: nat, key: string)
    requires i < |parts| && KeyOf(parts[i]) == key
    requires forall j :: 0 <= j < i ==> KeyOf(parts[j]) != key
    ensures Field(parts, key) == Some(ValueOf(parts[i]))
  {
    if i > 0 { FieldAt(parts[1..], i - 1, key); }
  }

  lemma {:induction false} FieldMissing(parts: seq<string>, key: string)
    requires forall j :: 0 <= j < |parts| ==> KeyOf(parts[j]) != key
    ensures Field(parts, key) == None
  {
    if parts != [] { FieldMissing(parts[1..], key); }
  }

  /** The keys in print order, with their values. */
  function Keys(p: Params): seq<string> {
    ["v", "h", "p", "t", "ro", "n", "tm"] + if p.trust.Pin? then ["fp"] else []
  }

  function Values(p: Params): seq<string> {
    ["2", p.host, Decimal(p.port), Base64(p.token), if p.readOnly then "1" else "0", PercentEncoded(p.name)]
    + if p.trust.Pin? then ["pin", p.trust.fingerprint] else ["ca"]
  }

  lemma {:induction false} PartIsField(p: Params, i: nat)
    requires i < |Parts(p)|
    ensures |Keys(p)| == |Values(p)| == |Parts(p)| && Parts(p)[i] == Keys(p)[i] + "=" + Values(p)[i]
  {}

  lemma {:induction false} PartsAreFields(p: Params, i: nat)
    requires i < |Parts(p)|
    ensures |Keys(p)| == |Values(p)| == |Parts(p)|
    ensures KeyOf(Parts(p)[i]) == Keys(p)[i] && ValueOf(Parts(p)[i]) == Values(p)[i]
  {
    PartIsField(p, i);
    KeyValue(Keys(p)[i], Values(p)[i]);
  }

  lemma {:induction false} KeysDiffer(p: Params)
    ensures forall i, j :: 0 <= i < j < |Keys(p)| ==> Keys(p)[i] != Keys(p)[j]
  {}

  /** Looking a printed key up gives its value; a key that was not printed is absent. */
  lemma {:induction false} FieldOfParts(p: Params, i: nat)
    requires i < |Keys(p)|
    ensures |Values(p)| == |Keys(p)| && Field(Parts(p), Keys(p)[i]) == Some(Values(p)[i])
  {
    KeysDiffer(p);
    forall j | 0 <= j < |Parts(p)|
      ensures KeyOf(Parts(p)[j]) == Keys(p)[j] && ValueOf(Parts(p)[j]) == Values(p)[j]
    {
      PartsAreFields(p, j);
    }
    FieldAt(Parts(p), i, Keys(p)[i]);
  }

  /** `fp` is present exactly for a pinned certificate. */
  lemma {:induction false} FingerprintIffPinned(p: Params)
    ensures Field(Parts(p), "fp").Some? <==> p.trust.Pin?
  {
    if p.trust.Pin? {
      FieldOfParts(p, 7);
    } else {
      forall j | 0 <= j < |Parts(p)| ensures KeyOf(Parts(p)[j]) != "fp" {
        PartsAreFields(p, j);
      }
      FieldMissing(Parts(p), "fp");
    }
  }

  lemma {:induction false} TrustRead(p: Params)
    ensures ReadTrust(Parts(p)) == Some(p.trust)
  {
    FieldOfParts(p, 6);
    FingerprintIffPinned(p);
    if p.trust.Pin? { FieldOfParts(p, 7); }
  }

  lemma {:induction false} FlagRead(p: Params)
    ensures ReadFlag(Parts(p)) == Some(p.readOnly)
  {
    FieldOfParts(p, 4);
  }

  lemma {:induction false} TextRead(p: Params)
    ensures Field(Parts(p), "v") == Some("2") && Field(Parts(p), "h") == Some(p.host)
    ensures Field(Parts(p), "p") == Some(Decimal(p.port)) && Field(Parts(p), "t") == Some(Base64(p.token))
    ensures Field(Parts(p), "n") == Some(PercentEncoded(p.name))
  {
    FieldOfParts(p, 0);
    FieldOfParts(p, 1);
    FieldOfParts(p, 2);
    FieldOfParts(p, 3);
    FieldOfParts(p, 5);
  }

  lemma {:induction false} PartsRead(p: Params)
    ensures Field(Parts(p), "v") == Some("2") && ReadParts(Parts(p)) == Some(p)
  {
    TextRead(p);
    FlagRead(p);
    TrustRead(p);
    DecimalRoundTrip(p.port);
    Base64RoundTrip(p.token);
    PercentRoundTrip(p.name);
  }

  lemma {:induction false} PartsClean(p: Params, i: nat)
    requires Printable(p) && '&' !in p.host && i < |Parts(p)|
    ensures '&' !in Parts(p)[i]
  {
    DecimalRoundTrip(p.port);
    Base64RoundTrip(p.token);
    PercentRoundTrip(p.name);
  }

  lemma {:induction false} FieldIsClean(parts: seq<string>, key: string)
    requires forall q :: q in parts ==> '&' !in q
    ensures Field(parts, key).Some? ==> '&' !in Field(parts, key).value
  {
    if parts != [] {
      assert parts[0] in parts;
      FieldIsClean(parts[1..], key);
    }
  }

  /** Round trip: a printable parameter set is read back exactly when its host has no '&'. */
  lemma {:induction false} RoundTripIff(p: Params)
    requires Printable(p)
    ensures Read(ToUri(p)) == Some(p) <==> '&' !in p.host
  {
    UriJoinsParts(p);
    var uri := ToUri(p);
    assert uri[|PREFIX|..] == Join(Parts(p), '&');
    if '&' !in p.host {
      forall q | q in Parts(p) ensures '&' !in q {
        var i :| 0 <= i < |Parts(p)| && Parts(p)[i] == q;
        PartsClean(p, i);
      }
      SplitJoin(Parts(p), '&');
      PartsRead(p);
    } else {
      var parts := Split(uri[|PREFIX|..], '&');
      SplitClean(uri[|PREFIX|..], '&');
      FieldIsClean(parts, "h");
    }
  }

  /** So the printer is injective: two printable sets with clean hosts never share a URI. */
  lemma {:induction false} PrinterInjective(a: Params, b: Params)
    requires Printable(a) && Printable(b) && '&' !in a.host && '&' !in b.host
    requires ToUri(a) == ToUri(b)
    ensures a == b
  {
    RoundTripIff(a);
    RoundTripIff(b);
  }
}
