/**
 * The signing inputs shared by the dispatcher and a receiver: the canonical
 * base string, the signature over it and the `Authorization` header value.
 * HMAC-SHA1 and Base64 are library primitives and stay parameters.
 */
module Signing {
  import opened Wrappers
  import opened JsStrings

  type Digest = seq<bv8>

  /** `Math.floor(Date.now() / 1000)`: the Unix time in seconds. */
  function UnixSeconds(nowMs: nat): nat
  {
    nowMs / 1000
  }

  /** `${rawBody}`: a body that `JSON.stringify` left undefined prints as "undefined". */
  function BodyText(rawBody: Option<string>): string
  {
    if rawBody.Some? then rawBody.value else "undefined"
  }

  /** `${secretId}${timestamp}${path}${queryStr}${rawBody}`. */
  function CanonicalString(secretId: string, timestamp: string, path: string, queryStr: string, rawBody: string): string
  {
    secretId + timestamp + path + queryStr + rawBody
  }

  /** `Base64.stringify(HmacSHA1(message, key))`. */
  function Signature(message: string, key: string, hmacSha1: (string, string) -> Digest, base64: Digest -> string): string
  {
    base64(hmacSha1(message, key))
  }

  /** `${key}=${value}`. */
  function Pair(key: string, value: string): string
  {
    key + "=" + value
  }

  /** `SecretId=${secretId}, Timestamp=${timestamp}, Signature=${signature}`. */
  function AuthHeader(secretId: string, timestamp: nat, signature: string): string
  {
    Pair("SecretId", secretId) + ", " + Pair("Timestamp", NatToString(timestamp)) + ", " + Pair("Signature", signature)
  }

}
