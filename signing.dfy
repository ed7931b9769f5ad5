/**
 * `setRequestUriGetParams` and `apiCredentials`: the URI that is sent, the
 * `apisign` header (HMAC-SHA512 of that URI under the API secret, RFC 2104 with
 * FIPS 180-4 SHA-512) and the request timeout.
 */
module Signing {
  import opened Options
  import opened QueryString
  import Nonce

  /** The fields of the `request` options object that signing sets. */
  datatype Request = Request(uri: Text, apisign: Option<Text>, timeout: Option<int>)

  /** The copy of `default_request_options` the string branch starts from: no URI, no signature, no timeout yet. */
  const DefaultRequest: Request := Request("", None, None)

  /** `setRequestUriGetParams` accepts either a URI string or an already built options object. */
  datatype UriArg = UriString(s: Text) | UriObject(op: Request)

  datatype SignResult =
    | Signed(op: Request)
      /** `updateQueryStringParameter` was handed the options object: `uri.indexOf` throws a TypeError. */
    | Threw
      /** An options object whose `uri` is empty: `params || uri` falls back to the object itself. */
    | TargetIsObject

  /** The decimal digit for `d`. */
  function Digit(d: nat): (c: char)
    requires d < 10
    ensures '0' <= c <= '9'
  {
    ['0', '1', '2', '3', '4', '5', '6', '7', '8', '9'][d]
  }

  /** How a nonce (a non-negative integer number) is written into a template literal. */
  function Decimal(n: nat): (r: Text)
    ensures |r| >= 1
    ensures forall k :: 0 <= k < |r| ==> '0' <= r[k] <= '9'
  {
    if n < 10 then [Digit(n)] else Decimal(n / 10) + [Digit(n % 10)]
  }

  /** Reading a string of decimal digits back as a number. */
  function DecimalValue(s: Text): nat
    requires forall k :: 0 <= k < |s| ==> '0' <= s[k] <= '9'
  {
    if s == [] then 0 else DecimalValue(s[..|s| - 1]) * 10 + (s[|s| - 1] as int - '0' as int)
  }

  /** The nonce written into the URI reads back as the nonce. */
  lemma {:induction false} DecimalRoundTrip(n: nat)
    ensures DecimalValue(Decimal(n)) == n
  {
    if n >= 10 {
      DecimalRoundTrip(n / 10);
      var r := Decimal(n);
      assert r[..|r| - 1] == Decimal(n / 10);
    }
  }

  /**
   * The URI the string branch signs and sends.  Every key is upserted into the
   * ORIGINAL `uri`, not into the string built so far, so only the last key of
   * `options` ends up in it; with no keys the URI is sent as given.
   */
  function FinalUri(uri: Text, options: seq<(Text, Text)>): Text {
    if |options| == 0 then uri
    else UpdateQueryStringParameter(uri, options[|options| - 1].0, options[|options| - 1].1)
  }

  /**
   * node.bittrex.api.js `setRequestUriGetParams`.  `options` lists the keys of
   * the options object in `Object.keys` order with their values as strings;
   * `hmac(message, secret)` stands for `hmac_sha512.HmacSHA512`.
   */
  method SetRequestUriGetParams(uri: UriArg, options: seq<(Text, Text)>, apisecret: Text,
                                requestTimeoutInSeconds: int, hmac: (Text, Text) -> Text)
    returns (res: SignResult)
    ensures uri.UriString? ==>
      var target := FinalUri(uri.s, options);
      res == Signed(Request(target, Some(hmac(target, apisecret)), Some(requestTimeoutInSeconds * 1000)))
    ensures uri.UriObject? && |options| > 0 ==> res == Threw
    ensures uri.UriObject? && |options| == 0 ==>
      res == if uri.op.uri == "" then TargetIsObject
             else Signed(uri.op.(apisign := Some(hmac(uri.op.uri, apisecret)),
                                 timeout := Some(requestTimeoutInSeconds * 1000)))
  {
    var op: Request;
    var params: Text := "";
    match uri {
      case UriObject(o) =>
        op := o;
        params := o.uri;
      case UriString(_) =>
        op := DefaultRequest;
    }
    var i := 0;
    while i < |options|
      invariant 0 <= i <= |options|
      invariant uri.UriObject? ==> i == 0 && params == uri.op.uri
      invariant uri.UriString? && i == 0 ==> params == ""
      invariant uri.UriString? && i > 0 ==>
        params == UpdateQueryStringParameter(uri.s, options[i - 1].0, options[i - 1].1)
    {
      if uri.UriObject? {
        return Threw;
      }
      params := UpdateQueryStringParameter(uri.s, options[i].0, options[i].1);
      UpdateNonEmpty(uri.s, options[i].0, options[i].1);
      i := i + 1;
    }
    var target: Text;
    if params != "" {
      target := params;
    } else if uri.UriString? {
      target := uri.s;
    } else {
      return TargetIsObject;
    }
    op := op.(apisign := Some(hmac(target, apisecret)), uri := target,
              timeout := Some(requestTimeoutInSeconds * 1000));
    res := Signed(op);
  }

  /** The options object `apiCredentials` builds: `apikey` first, then `nonce`. */
  function CredentialOptions(apikey: Text, nonce: nat): seq<(Text, Text)> {
    [("apikey", apikey), ("nonce", Decimal(nonce))]
  }

  /**
   * node.bittrex.api.js `apiCredentials`: draws a nonce from the window and
   * signs `uri` with the API key and the nonce as its parameters.
   */
  method ApiCredentials(nonces: Nonce.NonceWindow, clock: seq<nat>, uri: Text, apikey: Text,
                        apisecret: Text, requestTimeoutInSeconds: int, hmac: (Text, Text) -> Text)
    returns (nonce: nat, res: SignResult)
    requires nonces.Valid()
    requires exists k :: 0 <= k < |clock| && clock[k] !in nonces.lastNonces
    modifies nonces
    ensures nonces.Valid()
    ensures nonce !in old(nonces.lastNonces)
    ensures nonces.lastNonces == Nonce.Suffix(old(nonces.lastNonces), Nonce.Retained) + [nonce]
    ensures var target := UpdateQueryStringParameter(uri, "nonce", Decimal(nonce));
      res == Signed(Request(target, Some(hmac(target, apisecret)), Some(requestTimeoutInSeconds * 1000)))
  {
    nonce := nonces.GetNonce(clock);
    res := SetRequestUriGetParams(UriString(uri), CredentialOptions(apikey, nonce), apisecret,
                                  requestTimeoutInSeconds, hmac);
  }

  /** Only the last key written decides the signed URI. */
  lemma LastKeyWins(uri: Text, options: seq<(Text, Text)>, more: (Text, Text))
    ensures FinalUri(uri, options + [more]) == UpdateQueryStringParameter(uri, more.0, more.1)
    ensures FinalUri(uri, options + [more]) == FinalUri(uri, [more])
  {
  }

  /** Every character of a decimal is a plain query value. */
  lemma DecimalIsPlain(n: nat)
    ensures PlainValue(Decimal(n))
  {
    var d := Decimal(n);
    forall k | 0 <= k < |d|
      ensures d[k] != '&' && !IsLineTerminator(d[k])
    {
      assert '0' <= d[k] <= '9';
    }
  }

  /** The signed credential URI carries the nonce, and it reads back as the nonce drawn. */
  lemma CredentialNonceReadsBack(uri: Text, apikey: Text, nonce: nat)
    ensures FinalUri(uri, CredentialOptions(apikey, nonce)) == UpdateQueryStringParameter(uri, "nonce", Decimal(nonce))
    ensures QueryValue(FinalUri(uri, CredentialOptions(apikey, nonce)), "nonce") == Some(Decimal(nonce))
  {
    DecimalIsPlain(nonce);
    UpdateThenRead(uri, "nonce", Decimal(nonce));
  }

  /** No position of `uri?nonce=N` holds `apikey=`: the only delimiter is followed by `n`. */
  lemma NoApiKeyAt(r: Text, uri: Text, d: Text, j: nat)
    requires '?' !in uri && '&' !in uri
    requires r == uri + "?nonce=" + d
    requires forall k :: 0 <= k < |d| ==> '0' <= d[k] <= '9'
    requires j < |r|
    ensures !MatchesAt(r, "apikey", j)
  {
    if j < |uri| {
      assert r[j] == uri[j];
    } else if j == |uri| {
      assert r[j + 1] == 'n';
    } else if j < |uri| + 7 {
      assert r[j] == "?nonce="[j - |uri|];
    } else {
      assert r[j] == d[j - |uri| - 7];
    }
  }

  /**
   * For a URI with no query component, `apiCredentials` signs `uri?nonce=N`:
   * the API key is not in the signed URI at all.
   */
  lemma CredentialUriOmitsApiKey(uri: Text, apikey: Text, nonce: nat)
    requires '?' !in uri && '&' !in uri
    ensures FinalUri(uri, CredentialOptions(apikey, nonce)) == uri + "?nonce=" + Decimal(nonce)
    ensures QueryValue(FinalUri(uri, CredentialOptions(apikey, nonce)), "apikey") == None
  {
    var d := Decimal(nonce);
    DecimalIsPlain(nonce);
    forall i | 0 <= i < |uri|
      ensures !MatchesAt(uri, "nonce", i)
    {
    }
    FirstMatchNone(uri, "nonce");
    var r := uri + "?nonce=" + d;
    assert Appended(uri, "nonce", d) == r;
    forall j | 0 <= j < |r|
      ensures !MatchesAt(r, "apikey", j)
    {
      NoApiKeyAt(r, uri, d, j);
    }
    FirstMatchNone(r, "apikey");
  }
}
