/**
 * The receiving end of a notification, as the repository's end-to-end test
 * implements it: `getAuthInfo` takes the `Authorization` header apart and
 * checks it, and `verifySignature` recomputes the signature over the request
 * it received. Every refusal is the same 401; `AuthError` records which check
 * refused.
 */
module Receiver {
  import opened Wrappers
  import opened JsStrings
  import opened QueryString
  import opened Signing
  import Records
  import Dispatch

  datatype AuthError =
    | MissingHeader     // no header, or the empty string
    | MissingPart       // fewer than three non-empty comma-separated parts
    | BadPair           // a wrong key, or an empty secret id or timestamp
    | EmptySignature
    | UnknownSecretId
    | BadTimestamp      // not exactly ten decimal digits
    | StaleTimestamp    // more than a minute before `now`
    | BadSignature

  /** `{ timestamp, signature }`: the timestamp is kept as the header's text. */
  datatype AuthInfo = AuthInfo(timestamp: string, signature: string)

  /** The length of the key `Signature=` that `substring(10)` drops. */
  const SignatureKeyLength: nat := 10

  /** The three values a header carries, as text. */
  datatype Credentials = Credentials(secretId: string, timestamp: string, signature: string)

  /** The parsing half of `getAuthInfo` (test/service-test.js:91-116): the header must be present and non-empty. */
  function ParseAuthorization(authorization: Option<string>): Result<Credentials, AuthError>
  {
    if authorization.None? || authorization.value == "" then Err(MissingHeader)
    else ParseParts(Split(authorization.value, ','))
  }

  /** The comma-separated parts of the header: trim, check the keys, cut out the values. */
  function ParseParts(parts: seq<string>): Result<Credentials, AuthError>
  {
    if |parts| < 3 || parts[0] == "" || parts[1] == "" || parts[2] == "" then Err(MissingPart)
    else
      var idFields := Split(Trim(parts[0]), '=');
      var tsFields := Split(Trim(parts[1]), '=');
      var sigFields := Split(Trim(parts[2]), '=');
      if || idFields[0] != "SecretId" || tsFields[0] != "Timestamp" || sigFields[0] != "Signature"
         || |idFields| < 2 || idFields[1] == "" || |tsFields| < 2 || tsFields[1] == ""
      then Err(BadPair)
      else
        var signature := SubstringFrom(Trim(parts[2]), SignatureKeyLength);
        if signature == "" then Err(EmptySignature)
        else Ok(Credentials(idFields[1], tsFields[1], signature))
  }

  /** The checking half of `getAuthInfo` (test/service-test.js:118-131): the secret id, then the timestamp. */
  function CheckCredentials(c: Credentials, expectedSecretId: string, nowMs: int): Result<AuthInfo, AuthError>
  {
    if c.secretId != expectedSecretId then Err(UnknownSecretId)
    else if |c.timestamp| != 10 || !IsDigits(c.timestamp) then Err(BadTimestamp)
    else if DecimalValue(c.timestamp) * 1000 < nowMs - 60_000 then Err(StaleTimestamp)
    else Ok(AuthInfo(c.timestamp, c.signature))
  }

  /** `getAuthInfo` for the header `authorization`, the receiver's secret id and the time `nowMs`. */
  function GetAuthInfo(authorization: Option<string>, expectedSecretId: string, nowMs: int): Result<AuthInfo, AuthError>
  {
    var c := ParseAuthorization(authorization);
    if c.Err? then Err(c.error) else CheckCredentials(c.value, expectedSecretId, nowMs)
  }

  /**
   * `verifySignature`: the header must pass `getAuthInfo`, and its signature
   * must equal the one recomputed from the receiver's secret, the header's
   * timestamp text, the request path, the request's query (`queryKeys` being
   * its keys in object order) and the raw body.
   */
  function VerifySignature(
    authorization: Option<string>, secretId: string, secretKey: string, nowMs: int,
    path: string, query: map<string, string>, queryKeys: seq<string>, rawBody: Option<string>,
    hmacSha1: (string, string) -> Digest, base64: Digest -> string): Result<(), AuthError>
    requires forall k :: k in queryKeys ==> k in query
  {
    var info := GetAuthInfo(authorization, secretId, nowMs);
    if info.Err? then Err(info.error)
    else
      var message := CanonicalString(secretId, info.value.timestamp, path, QueryStr(query, queryKeys), BodyText(rawBody));
      if info.value.signature != Signature(message, secretKey, hmacSha1, base64) then Err(BadSignature)
      else Ok(())
  }

  // ---------------------------------------------------------------------------
  // Properties
  // ---------------------------------------------------------------------------

  /** A missing or empty header, or one without three comma-separated parts, is refused. */
  lemma MissingHeaderOrPartsRejected(header: string, expectedSecretId: string, nowMs: int)
    ensures GetAuthInfo(None, expectedSecretId, nowMs) == Err(MissingHeader)
    ensures GetAuthInfo(Some(""), expectedSecretId, nowMs) == Err(MissingHeader)
    ensures header != "" && ',' !in header ==> GetAuthInfo(Some(header), expectedSecretId, nowMs) == Err(MissingPart)
  {
    if ',' !in header {
      SplitNone(header, ',');
    }
  }

  /** A piece `key=...` whose first `=`-field is `key` and that continues past it starts with `key=`. */
  lemma SplitKey(t: string, key: string)
    requires Split(t, '=')[0] == key
    requires |Split(t, '=')| >= 2 || |t| > |key|
    ensures |t| > |key| && t[..|key| + 1] == key + "="
    ensures |Split(t, '=')| >= 2 && Split(t, '=')[1] != "" ==> |t| > |key| + 1
  {
    var i := IndexOf(t, '=');
    assert i < |t|;
    assert t[..i] == key;
    assert t[..i + 1] == t[..i] + [t[i]];
    if i + 1 == |t| {
      assert Split(t, '=') == [key] + Split([], '=');
    }
  }

  /**
   * A header that parses has three parts which, trimmed, start with the keys
   * `SecretId=`, `Timestamp=` and `Signature=`; its secret id and timestamp
   * are the non-empty values after the first two keys, and its signature is
   * the whole rest of the third part after `Signature=`, `=` padding included.
   */
  lemma ParsedHeader(header: string)
    requires ParseAuthorization(Some(header)).Ok?
    ensures var c, parts := ParseAuthorization(Some(header)).value, Split(header, ',');
      && |parts| >= 3
      && |Trim(parts[0])| > 9 && Trim(parts[0])[..9] == "SecretId="
      && |Trim(parts[1])| > 10 && Trim(parts[1])[..10] == "Timestamp="
      && |Trim(parts[2])| > 10 && Trim(parts[2])[..10] == "Signature="
      && c.secretId == Split(Trim(parts[0]), '=')[1] && c.secretId != ""
      && c.timestamp == Split(Trim(parts[1]), '=')[1] && c.timestamp != ""
      && c.signature == Trim(parts[2])[10..] && c.signature != ""
  {
    ParsedParts(Split(header, ','));
  }

  /** `ParsedHeader` for the parts of any header. */
  lemma ParsedParts(parts: seq<string>)
    requires ParseParts(parts).Ok?
    ensures var c := ParseParts(parts).value;
      && |parts| >= 3
      && |Trim(parts[0])| > 9 && Trim(parts[0])[..9] == "SecretId="
      && |Trim(parts[1])| > 10 && Trim(parts[1])[..10] == "Timestamp="
      && |Trim(parts[2])| > 10 && Trim(parts[2])[..10] == "Signature="
      && c.secretId == Split(Trim(parts[0]), '=')[1] && c.secretId != ""
      && c.timestamp == Split(Trim(parts[1]), '=')[1] && c.timestamp != ""
      && c.signature == Trim(parts[2])[10..] && c.signature != ""
  {
    ParsedFields(parts);
    KeyedFields(Trim(parts[0]), Trim(parts[1]), Trim(parts[2]), ParseParts(parts).value);
  }

  /** `ParsedParts` for three trimmed parts whose `=`-fields passed the checks. */
  lemma KeyedFields(t0: string, t1: string, t2: string, c: Credentials)
    requires Split(t0, '=')[0] == "SecretId" && |Split(t0, '=')| >= 2 && Split(t0, '=')[1] != ""
    requires Split(t1, '=')[0] == "Timestamp" && |Split(t1, '=')| >= 2 && Split(t1, '=')[1] != ""
    requires Split(t2, '=')[0] == "Signature" && |t2| > SignatureKeyLength
    requires c.signature == SubstringFrom(t2, SignatureKeyLength)
    ensures |t0| > 9 && t0[..9] == "SecretId="
    ensures |t1| > 10 && t1[..10] == "Timestamp="
    ensures |t2| > 10 && t2[..10] == "Signature=" && c.signature == t2[10..]
  {
    SplitKey(t0, "SecretId");
    SplitKey(t1, "Timestamp");
    SplitKey(t2, "Signature");
    SubstringFromSuffix(t2, SignatureKeyLength);
  }

  /** What a successful parse knows about the `=`-fields of each trimmed part. */
  lemma ParsedFields(parts: seq<string>)
    requires ParseParts(parts).Ok?
    ensures var c := ParseParts(parts).value;
      var f0, f1, f2 := Split(Trim(parts[0]), '='), Split(Trim(parts[1]), '='), Split(Trim(parts[2]), '=');
      && |parts| >= 3
      && f0[0] == "SecretId" && |f0| >= 2 && c.secretId == f0[1] && c.secretId != ""
      && f1[0] == "Timestamp" && |f1| >= 2 && c.timestamp == f1[1] && c.timestamp != ""
      && f2[0] == "Signature" && c.signature == SubstringFrom(Trim(parts[2]), SignatureKeyLength) && c.signature != ""
      && |Trim(parts[2])| > SignatureKeyLength
  {
  }

  /**
   * The checks accept exactly the receiver's own secret id with a timestamp of
   * ten decimal digits that is at most a minute old, and pass the timestamp
   * text and the signature through unchanged.
   */
  lemma CheckCredentialsSpec(c: Credentials, expectedSecretId: string, nowMs: int)
    ensures CheckCredentials(c, expectedSecretId, nowMs).Ok? <==>
      && c.secretId == expectedSecretId && |c.timestamp| == 10 && IsDigits(c.timestamp)
      && DecimalValue(c.timestamp) * 1000 >= nowMs - 60_000
    ensures CheckCredentials(c, expectedSecretId, nowMs).Ok? ==>
      CheckCredentials(c, expectedSecretId, nowMs).value == AuthInfo(c.timestamp, c.signature)
  {
  }

  /** A secret id the header can carry: non-empty, no `,` or `=`, not ending in whitespace. */
  predicate SafeSecretId(id: string)
  {
    id != "" && ',' !in id && '=' !in id && !IsJsSpace(id[|id| - 1])
  }

  /** A signature the header can carry: non-empty, no `,`, not ending in whitespace (`=` is allowed). */
  predicate SafeSignature(sig: string)
  {
    sig != "" && ',' !in sig && !IsJsSpace(sig[|sig| - 1])
  }

  /** A header built by the dispatcher splits at its two commas into its three pairs. */
  lemma AuthHeaderSplit(id: string, ts: nat, sig: string)
    requires SafeSecretId(id) && SafeSignature(sig)
    ensures Split(AuthHeader(id, ts, sig), ',') ==
      [Pair("SecretId", id), [' '] + Pair("Timestamp", NatToString(ts)), [' '] + Pair("Signature", sig)]
  {
    var d := NatToString(ts);
    var a, b, c := Pair("SecretId", id), [' '] + Pair("Timestamp", d), [' '] + Pair("Signature", sig);
    assert AuthHeader(id, ts, sig) == a + [','] + (b + [','] + c);
    assert ',' !in d by {
      assert forall i :: 0 <= i < |d| ==> IsDigit(d[i]);
    }
    assert ',' !in a && ',' !in b && ',' !in c;
    SplitThree(a, b, c, ',');
  }

  /** Three pieces without `sep`, joined by `sep`, split back into those pieces. */
  lemma SplitThree(a: string, b: string, c: string, sep: char)
    requires sep !in a && sep !in b && sep !in c
    ensures Split(a + [sep] + (b + [sep] + c), sep) == [a, b, c]
  {
    SplitFirst(a, sep, b + [sep] + c);
    SplitFirst(b, sep, c);
    SplitNone(c, sep);
  }

  /** `key=value`, with no `=` in `key`, splits first at that `=`. */
  lemma PairFields(key: string, value: string)
    requires '=' !in key
    ensures Split(Pair(key, value), '=')[0] == key
    ensures '=' !in value ==> Split(Pair(key, value), '=') == [key, value]
    ensures SubstringFrom(Pair(key, value), |key| + 1) == value
  {
    assert Pair(key, value) == key + ['='] + value;
    SplitFirst(key, '=', value);
    if '=' !in value {
      SplitNone(value, '=');
    }
    assert Pair(key, value)[|key| + 1..] == value;
    SubstringFromSuffix(Pair(key, value), |key| + 1);
  }

  /** Trimming a `key=value` pair, with or without a leading space, leaves the pair. */
  lemma TrimPair(key: string, value: string)
    requires key != "" && !IsJsSpace(key[0]) && value != "" && !IsJsSpace(value[|value| - 1])
    ensures Trim(Pair(key, value)) == Pair(key, value)
    ensures Trim([' '] + Pair(key, value)) == Pair(key, value)
  {
    var t := Pair(key, value);
    assert t[0] == key[0] && t[|t| - 1] == value[|value| - 1];
    TrimNoEdgeSpace(t);
    TrimLeadingSpace(t);
  }

  /** A piece the header can carry for `key`. */
  predicate PairPiece(key: string, value: string)
  {
    key != "" && !IsJsSpace(key[0]) && '=' !in key && value != "" && !IsJsSpace(value[|value| - 1])
  }

  /** The first pair, trimmed and split at `=`. */
  lemma FirstPairFields(key: string, value: string)
    requires PairPiece(key, value) && '=' !in value
    ensures Split(Trim(Pair(key, value)), '=') == [key, value]
  {
    TrimPair(key, value);
    PairFields(key, value);
  }

  /** A later pair (after `, `), trimmed and split at `=`. */
  lemma LaterPairFields(key: string, value: string)
    requires PairPiece(key, value) && '=' !in value
    ensures Split(Trim([' '] + Pair(key, value)), '=') == [key, value]
  {
    TrimPair(key, value);
    PairFields(key, value);
  }

  lemma LaterPairKey(key: string, value: string)
    requires PairPiece(key, value)
    ensures Split(Trim([' '] + Pair(key, value)), '=')[0] == key
  {
    TrimPair(key, value);
    PairFields(key, value);
  }

  /** Everything after the key and its `=` is the value, whatever it contains. */
  lemma LaterPairValue(key: string, value: string)
    requires PairPiece(key, value)
    ensures SubstringFrom(Trim([' '] + Pair(key, value)), |key| + 1) == value
  {
    TrimPair(key, value);
    PairFields(key, value);
  }

  /** Parts whose pairs carry the expected keys and non-empty values parse into those values. */
  lemma PartsParse(parts: seq<string>, id: string, d: string, sig: string)
    requires |parts| == 3 && parts[0] != "" && parts[1] != "" && parts[2] != ""
    requires Split(Trim(parts[0]), '=') == ["SecretId", id] && id != ""
    requires Split(Trim(parts[1]), '=') == ["Timestamp", d] && d != ""
    requires Split(Trim(parts[2]), '=')[0] == "Signature"
    requires SubstringFrom(Trim(parts[2]), 10) == sig && sig != ""
    ensures ParseParts(parts) == Ok(Credentials(id, d, sig))
  {
  }

  lemma HeaderSecretIdFields(id: string, ts: nat, sig: string)
    requires SafeSecretId(id) && SafeSignature(sig)
    ensures var parts := Split(AuthHeader(id, ts, sig), ',');
      |parts| == 3 && parts[0] != "" && Split(Trim(parts[0]), '=') == ["SecretId", id]
  {
    AuthHeaderSplit(id, ts, sig);
    FirstPairFields("SecretId", id);
  }

  lemma HeaderTimestampFields(id: string, ts: nat, sig: string)
    requires SafeSecretId(id) && SafeSignature(sig)
    ensures var parts := Split(AuthHeader(id, ts, sig), ',');
      |parts| == 3 && parts[1] != "" && Split(Trim(parts[1]), '=') == ["Timestamp", NatToString(ts)]
  {
    AuthHeaderSplit(id, ts, sig);
    DigitsPiece(NatToString(ts));
    LaterPairFields("Timestamp", NatToString(ts));
  }

  /** Decimal text can follow a key: it has no `=` and does not end in white space. */
  lemma DigitsPiece(d: string)
    requires d != [] && IsDigits(d)
    ensures '=' !in d && !IsJsSpace(d[|d| - 1])
  {
    assert forall i :: 0 <= i < |d| ==> IsDigit(d[i]);
  }

  lemma HeaderSignatureFields(id: string, ts: nat, sig: string)
    requires SafeSecretId(id) && SafeSignature(sig)
    ensures var parts := Split(AuthHeader(id, ts, sig), ',');
      && |parts| == 3 && parts[2] != ""
      && Split(Trim(parts[2]), '=')[0] == "Signature" && SubstringFrom(Trim(parts[2]), 10) == sig
  {
    AuthHeaderSplit(id, ts, sig);
    LaterPairKey("Signature", sig);
    LaterPairValue("Signature", sig);
  }

  /** Parsing inverts building: a header the dispatcher built parses back into its three values. */
  lemma ParseRoundTrip(id: string, ts: nat, sig: string)
    requires SafeSecretId(id) && SafeSignature(sig)
    ensures ParseAuthorization(Some(AuthHeader(id, ts, sig))) == Ok(Credentials(id, NatToString(ts), sig))
  {
    var header := AuthHeader(id, ts, sig);
    var parts := Split(header, ',');
    HeaderSecretIdFields(id, ts, sig);
    HeaderTimestampFields(id, ts, sig);
    HeaderSignatureFields(id, ts, sig);
    PartsParse(parts, id, NatToString(ts), sig);
    assert header != "" by {
      assert |parts| == 3;
    }
  }

  /**
   * Round trip: the receiver reads back exactly the timestamp (as its decimal
   * text) and the signature of a header the dispatcher built; the header is
   * accepted exactly when its secret id is the receiver's, the timestamp has
   * ten digits and it is at most a minute old.
   */
  lemma HeaderRoundTrip(id: string, ts: nat, sig: string, expectedSecretId: string, nowMs: int)
    requires SafeSecretId(id) && SafeSignature(sig)
    ensures GetAuthInfo(Some(AuthHeader(id, ts, sig)), expectedSecretId, nowMs) ==
      if id != expectedSecretId then Err(UnknownSecretId)
      else if !(Pow10(9) <= ts < Pow10(10)) then Err(BadTimestamp)
      else if ts * 1000 < nowMs - 60_000 then Err(StaleTimestamp)
      else Ok(AuthInfo(NatToString(ts), sig))
  {
    ParseRoundTrip(id, ts, sig);
    NatToStringLengthBounds(ts, 10);
    NatToStringLengthBounds(ts, 9);
    DecimalRoundTrip(ts);
  }

  /** The receiver's canonical string is the signer's when both see the same path, query and body. */
  lemma CanonicalAgreement(id: string, ts: nat, sig: string, nowMs: int, path: string, rawBody: Option<string>)
    requires SafeSecretId(id) && SafeSignature(sig)
    requires GetAuthInfo(Some(AuthHeader(id, ts, sig)), id, nowMs).Ok?
    ensures var info := GetAuthInfo(Some(AuthHeader(id, ts, sig)), id, nowMs).value;
      CanonicalString(id, info.timestamp, path, QueryStr(map[], []), BodyText(rawBody))
        == CanonicalString(id, NatToString(ts), path, QueryStr(map[], []), BodyText(rawBody))
  {
    HeaderRoundTrip(id, ts, sig, id, nowMs);
  }

  /**
   * A receiver that sees a non-empty query computes a different canonical
   * string from the signer's, whose query string is always empty.
   */
  lemma QueryChangesCanonical(id: string, timestamp: string, path: string, query: map<string, string>, keys: seq<string>, body: string)
    requires forall k :: k in keys ==> k in query
    requires keys != []
    ensures CanonicalString(id, timestamp, path, QueryStr(query, keys), body)
      != CanonicalString(id, timestamp, path, QueryStr(map[], []), body)
  {
    QueryStrShape(query, keys);
    var sorted :| && Sorted(sorted) && multiset(sorted) == multiset(keys)
                  && (forall k :: k in sorted ==> k in query)
                  && QueryStr(query, keys) == Join(Pairs(query, sorted), "&");
    assert |sorted| == |multiset(keys)| == |keys|;
    var pairs := Pairs(query, sorted);
    assert |pairs[0]| >= 1;
    JoinNonEmpty(pairs, "&");
  }

  lemma JoinNonEmpty(parts: seq<string>, sep: string)
    requires parts != [] && parts[0] != ""
    ensures |Join(parts, sep)| >= 1
  {
  }

  /**
   * End to end: the request the dispatcher posts passes the receiver's check
   * when the receiver holds the secret id and the decrypted key, sees the
   * URL's path, no query and the posted body, runs within 59 s of signing,
   * the signing time has ten decimal digits in seconds, the secret id is one
   * the header can carry and the Base64 text of an HMAC digest is one too
   * (28 characters of `[A-Za-z0-9+/=]` for SHA-1).
   */
  lemma DeliveredRequestVerifies(task: Records.Task, env: Dispatch.Env, clock: Dispatch.Clock, plainKey: string, nowMs: int)
    requires Dispatch.Validate(task).Ok?
    requires Dispatch.NotifyAttempt(task, env, clock).request.Some?
    requires SafeSecretId(Dispatch.Validate(task).value.secret.secretId)
    requires env.aesDecrypt(Dispatch.Validate(task).value.secret.secretKey) == Some(plainKey)
    requires forall m, k :: SafeSignature(env.base64(env.hmacSha1(m, k)))
    requires Pow10(12) <= clock.signedAt < Pow10(13)
    requires nowMs <= clock.signedAt + 59_000
    ensures var request := Dispatch.NotifyAttempt(task, env, clock).request.value;
      && env.parseUrl(request.url).Some?
      && VerifySignature(Some(request.authorization), Dispatch.Validate(task).value.secret.secretId, plainKey, nowMs,
                         env.parseUrl(request.url).value.pathname, map[], [], request.body, env.hmacSha1, env.base64) == Ok(())
  {
    var target := Dispatch.Validate(task).value;
    var request := Dispatch.NotifyAttempt(task, env, clock).request.value;
    Dispatch.NotifyOutcome(task, env, clock);
    assert Dispatch.BuildRequest(task, target, env, clock.signedAt) == Ok(request);
    var ts := UnixSeconds(clock.signedAt);
    var id := target.secret.secretId;
    var path := env.parseUrl(target.notifyUrl).value.pathname;
    var rawBody := Dispatch.RawBody(task.dataParsed, env.stringify).value;
    var message := CanonicalString(id, NatToString(ts), path, QueryStr(map[], []), BodyText(rawBody));
    var sig := Signature(message, plainKey, env.hmacSha1, env.base64);
    assert request.authorization == AuthHeader(id, ts, sig);
    assert SafeSignature(sig);
    assert Pow10(12) == 1000 * Pow10(9) && Pow10(13) == 1000 * Pow10(10) by {
      assert Pow10(10) == 10 * Pow10(9);
      assert Pow10(13) == 10 * Pow10(12);
      assert Pow10(12) == 10 * Pow10(11);
      assert Pow10(11) == 10 * Pow10(10);
    }
    assert Pow10(9) <= ts < Pow10(10);
    HeaderRoundTrip(id, ts, sig, id, nowMs);
  }
}
