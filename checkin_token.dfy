/** Check-in tokens of the Owner service. A token is the base64url text
    (section 5 of RFC 4648, with padding) of `rid:gid:expiry:signature`, where
    the signature is the base64url text of HMAC-SHA256 (RFC 2104) over
    `rid:gid:expiry` under the service's secret key. The HMAC and the Base64
    codec are parameters of the model, constrained only by the laws in
    `Sound`. */
module CheckinToken {
  import opened Common

  /** Seven days, in seconds. */
  const TokenValiditySeconds: int := 7 * 24 * 60 * 60

  /** What the Base64 decoder makes of a token: the decoded text, or the
      message of the IllegalArgumentException it throws. */
  datatype Decoding = Text(text: string) | Malformed(reason: string)

  /** The cryptographic and encoding primitives the service uses. */
  datatype Codec = Codec(
    sign: string -> string,     // base64url(HMAC-SHA256(secret, payload))
    encode: string -> string,   // base64url encoding of the text's bytes
    decode: string -> Decoding) // its decoder

  /** Characters of the base64url alphabet (section 5 of RFC 4648) and the pad. */
  predicate IsBase64UrlChar(ch: char) {
    ('A' <= ch <= 'Z') || ('a' <= ch <= 'z') || ('0' <= ch <= '9') || ch == '-' || ch == '_' || ch == '='
  }

  /** The laws the model relies on: decoding undoes encoding, and a signature is
      the 44-character base64url text of a 32-byte digest. */
  ghost predicate Sound(c: Codec) {
    (forall s :: c.decode(c.encode(s)) == Text(s))
    && (forall s :: |c.sign(s)| == 44)
    && (forall s, i :: 0 <= i < |c.sign(s)| ==> IsBase64UrlChar(c.sign(s)[i]))
  }

  /** The outcome of validating a token. */
  datatype ValidationResult = ValidationResult(
    valid: bool,
    reservationId: Option<int>,
    guestId: Option<int>,
    message: string)

  function Rejected(message: string): (v: ValidationResult)
    ensures !v.valid && v.reservationId == None && v.guestId == None && v.message == message
  {
    ValidationResult(false, None, None, message)
  }

  /** Text of `rid:gid:expiry`; a missing guest is written "0". */
  function Payload(reservationId: int, guestId: Option<int>, expiry: int): string {
    IntToString(reservationId) + ":" + GuestField(guestId) + ":" + IntToString(expiry)
  }

  function GuestField(guestId: Option<int>): string {
    if guestId.Some? then IntToString(guestId.value) else "0"
  }

  /** The token issued at time `now` for a reservation (and, in a group, one
      guest): valid until `now` plus seven days. */
  function GenerateCheckinToken(c: Codec, reservationId: int, guestId: Option<int>, now: int): (token: string)
    ensures Sound(c) ==> c.decode(token) == Text(Payload(reservationId, guestId, now + TokenValiditySeconds)
                             + ":" + c.sign(Payload(reservationId, guestId, now + TokenValiditySeconds)))
  {
    var payload := Payload(reservationId, guestId, now + TokenValiditySeconds);
    c.encode(payload + ":" + c.sign(payload))
  }

  /** The message of the NumberFormatException `Long.parseLong` throws. */
  function NumberFormatMessage(s: string): string {
    "For input string: \"" + s + "\""
  }

  function ExceptionMessage(reason: string): string {
    "Token validation failed: " + reason
  }

  /** Validation of a token at time `now`. Every failure, a thrown exception
      included, becomes an invalid result; only a valid result carries ids. */
  function ValidateToken(c: Codec, token: string, now: int): (v: ValidationResult)
    ensures !v.valid ==> v.reservationId == None && v.guestId == None
    ensures v.valid ==> v.message == "Valid" && v.reservationId.Some?
  {
    match c.decode(token)
    case Malformed(reason) => Rejected(ExceptionMessage(reason))
    case Text(data) =>
      var parts := JavaSplit(data, ':');
      if |parts| != 4 then Rejected("Invalid token format")
      else
        var rid := ParseLong(parts[0]);
        var gid := if parts[1] == "0" then Some(None) else
                     (var g := ParseLong(parts[1]); if g.Some? then Some(Some(g.value)) else None);
        var expiry := ParseLong(parts[2]);
        if rid.None? then Rejected(ExceptionMessage(NumberFormatMessage(parts[0])))
        else if gid.None? then Rejected(ExceptionMessage(NumberFormatMessage(parts[1])))
        else if expiry.None? then Rejected(ExceptionMessage(NumberFormatMessage(parts[2])))
        else if now > expiry.value then Rejected("Token expired")
        else if c.sign(parts[0] + ":" + parts[1] + ":" + parts[2]) != parts[3] then Rejected("Invalid signature")
        else ValidationResult(true, rid, gid.value, "Valid")
  }

  /** The check-in link for a token. */
  function GenerateCheckinUrl(c: Codec, baseUrl: string, reservationId: int, guestId: Option<int>, now: int): (url: string)
    ensures |url| >= |baseUrl| && url[..|baseUrl|] == baseUrl
    ensures url[|baseUrl|..] == "/checkin?token=" + GenerateCheckinToken(c, reservationId, guestId, now)
  {
    var url := baseUrl + "/checkin?token=" + GenerateCheckinToken(c, reservationId, guestId, now);
    assert url == baseUrl + ("/checkin?token=" + GenerateCheckinToken(c, reservationId, guestId, now));
    url
  }

  // ---------------------------------------------------------------------------
  // Properties
  // ---------------------------------------------------------------------------

  lemma {:induction false} NoColonInNumber(n: int)
    ensures ':' !in IntToString(n)
  {
    var s := IntToString(n);
    forall i | 0 <= i < |s|
      ensures s[i] != ':'
    {
      assert IsDigit(s[i]) || s[i] == '-';
    }
  }

  lemma {:induction false} NoColonInSignature(c: Codec, payload: string)
    requires Sound(c)
    ensures ':' !in c.sign(payload) && |c.sign(payload)| > 0
  {
    var s := c.sign(payload);
    forall i | 0 <= i < |s|
      ensures s[i] != ':'
    {
      assert IsBase64UrlChar(s[i]);
    }
  }

  /** The text "0" is the number zero and nothing else. */
  lemma {:induction false} ZeroText(n: int)
    requires IsLong(n)
    ensures IntToString(n) == "0" <==> n == 0
  {
    ParseLongOfIntToString(n);
    if IntToString(n) == "0" {
      ParseLongOfIntToString(0);
    }
  }

  /** A token's decoded text has exactly the four fields it was built from. */
  lemma {:induction false} GeneratedTokenFields(c: Codec, reservationId: int, guestId: Option<int>, now: int)
    requires Sound(c)
    ensures var payload := Payload(reservationId, guestId, now + TokenValiditySeconds);
            var token := GenerateCheckinToken(c, reservationId, guestId, now);
            c.decode(token).Text? &&
            JavaSplit(c.decode(token).text, ':')
              == [IntToString(reservationId), GuestField(guestId), IntToString(now + TokenValiditySeconds), c.sign(payload)]
  {
    var payload := Payload(reservationId, guestId, now + TokenValiditySeconds);
    var a, b, e, d := IntToString(reservationId), GuestField(guestId), IntToString(now + TokenValiditySeconds), c.sign(payload);
    NoColonInNumber(reservationId);
    NoColonInNumber(now + TokenValiditySeconds);
    if guestId.Some? { NoColonInNumber(guestId.value); }
    NoColonInSignature(c, payload);
    SplitFourFields(a, b, e, d, ':');
    assert payload + ":" + d == a + [':'] + b + [':'] + e + [':'] + d;
  }

  /** Issue/validate round trip: a token validated no later than its expiry is
      valid and gives back the reservation and the guest (a guest id 0 reads
      back as no guest, as "0" is also the text for no guest). */
  lemma {:induction false} ValidateGeneratedToken(c: Codec, reservationId: int, guestId: Option<int>, now: int, at: int)
    requires Sound(c)
    requires IsLong(reservationId) && IsLong(now + TokenValiditySeconds)
    requires guestId.Some? ==> IsLong(guestId.value)
    requires at <= now + TokenValiditySeconds
    ensures var v := ValidateToken(c, GenerateCheckinToken(c, reservationId, guestId, now), at);
            v.valid && v.message == "Valid" && v.reservationId == Some(reservationId)
            && v.guestId == (if guestId == Some(0) then None else guestId)
  {
    GeneratedTokenFields(c, reservationId, guestId, now);
    ParseLongOfIntToString(reservationId);
    ParseLongOfIntToString(now + TokenValiditySeconds);
    if guestId.Some? {
      ParseLongOfIntToString(guestId.value);
      ZeroText(guestId.value);
    }
  }

  /** After its expiry a genuine token is rejected as expired. */
  lemma {:induction false} GeneratedTokenExpires(c: Codec, reservationId: int, guestId: Option<int>, now: int, at: int)
    requires Sound(c)
    requires IsLong(reservationId) && IsLong(now + TokenValiditySeconds)
    requires guestId.Some? ==> IsLong(guestId.value)
    requires at > now + TokenValiditySeconds
    ensures ValidateToken(c, GenerateCheckinToken(c, reservationId, guestId, now), at) == Rejected("Token expired")
  {
    GeneratedTokenFields(c, reservationId, guestId, now);
    ParseLongOfIntToString(reservationId);
    ParseLongOfIntToString(now + TokenValiditySeconds);
    if guestId.Some? {
      ParseLongOfIntToString(guestId.value);
    }
  }

  /** Only a signed, unexpired token with four well-formed fields is valid. */
  lemma {:induction false} ValidMeansSigned(c: Codec, token: string, now: int)
    requires ValidateToken(c, token, now).valid
    ensures c.decode(token).Text?
    ensures var parts := JavaSplit(c.decode(token).text, ':');
            |parts| == 4
            && ParseLong(parts[0]) == ValidateToken(c, token, now).reservationId
            && ParseLong(parts[2]).Some? && now <= ParseLong(parts[2]).value
            && c.sign(parts[0] + ":" + parts[1] + ":" + parts[2]) == parts[3]
  {
  }

  /** The ordered failure reasons: a text that does not split into four fields
      is a format error; with four well-formed fields, expiry is checked before
      the signature, and a wrong signature on an unexpired token is reported. */
  lemma {:induction false} FailureReasons(c: Codec, token: string, now: int)
    requires c.decode(token).Text?
    ensures var parts := JavaSplit(c.decode(token).text, ':');
            var v := ValidateToken(c, token, now);
            (|parts| != 4 ==> v == Rejected("Invalid token format"))
            && (|parts| == 4 && ParseLong(parts[0]).Some? && (parts[1] == "0" || ParseLong(parts[1]).Some?)
                && ParseLong(parts[2]).Some? ==>
                  (now > ParseLong(parts[2]).value ==> v == Rejected("Token expired"))
                  && (now <= ParseLong(parts[2]).value && c.sign(parts[0] + ":" + parts[1] + ":" + parts[2]) != parts[3]
                      ==> v == Rejected("Invalid signature")))
  {
  }

  /** A token that cannot be decoded is reported, never propagated. */
  lemma {:induction false} UndecodableToken(c: Codec, token: string, now: int)
    requires c.decode(token).Malformed?
    ensures ValidateToken(c, token, now) == Rejected("Token validation failed: " + c.decode(token).reason)
  {
  }

  /** The token in a check-in link validates like the token itself. */
  lemma {:induction false} CheckinUrlCarriesToken(c: Codec, baseUrl: string, reservationId: int, guestId: Option<int>, now: int, at: int)
    requires Sound(c)
    requires IsLong(reservationId) && IsLong(now + TokenValiditySeconds)
    requires guestId.Some? ==> IsLong(guestId.value)
    requires at <= now + TokenValiditySeconds
    ensures var url := GenerateCheckinUrl(c, baseUrl, reservationId, guestId, now);
            var v := ValidateToken(c, url[|baseUrl| + 15..], at);
            v.valid && v.reservationId == Some(reservationId)
            && v.guestId == (if guestId == Some(0) then None else guestId)
  {
    var url := GenerateCheckinUrl(c, baseUrl, reservationId, guestId, now);
    var token := GenerateCheckinToken(c, reservationId, guestId, now);
    assert url[|baseUrl|..] == "/checkin?token=" + token;
    assert url[|baseUrl| + 15..] == (url[|baseUrl|..])[15..];
    assert url[|baseUrl| + 15..] == token;
    ValidateGeneratedToken(c, reservationId, guestId, now, at);
  }
}
