/**
  * What the clients put on the wire: the two API hosts, the request and
  * response records that stand in for `fetch`, and the two kinds of
  * `Authorization` header they send.
  *
  * The token request authenticates with HTTP Basic (section 2 of RFC 7617):
  * the user-id and password joined by a colon, encoded as UTF-8 and then in
  * base64 (section 4 of RFC 4648). API calls carry the access token as a
  * bearer credential.
  */
module Http {
  import opened Wrappers
  import Utf8
  import Base64

  /** The sandbox API host. */
  const SandboxHost: string := "https://api-m.sandbox.paypal.com"

  /** The live API host. */
  const ProductionHost: string := "https://api-m.paypal.com"

  /** The path of the OAuth 2.0 token endpoint, with its grant type. */
  const TokenPath: string := "/v1/oauth2/token?grant_type=client_credentials"

  /** The path of the Orders API's collection of orders. */
  const OrdersPath: string := "/v2/checkout/orders"

  /** The path of the webhook signature verification endpoint. */
  const VerifyWebhookSignaturePath: string := "/v1/notifications/verify-webhook-signature"

  /** The content type of the token request's (empty) form. */
  const FormContentType: string := "application/x-www-form-urlencoded"

  /** The content type of every JSON request body. */
  const JsonContentType: string := "application/json"

  /** The HTTP methods the clients use. */
  datatype Method = Get | Post

  /**
    * A request as handed to `fetch`: header names map to values, and the
    * body is absent for a GET.
    */
  datatype Request = Request(verb: Method, url: string, headers: map<string, string>, body: Option<string>)

  /** What `fetch` answers: the status code and the body text, which the clients parse as JSON. */
  datatype Response = Response(status: int, body: string)

  /** The host a client talks to: the sandbox host exactly when it is set up for the sandbox. */
  function BaseUrl(useSandbox: bool): (r: string)
    ensures r == SandboxHost <==> useSandbox
    ensures r == ProductionHost <==> !useSandbox
  {
    if useSandbox then SandboxHost else ProductionHost
  }

  /** The Basic credentials: user-id, a colon, and password. */
  function Credentials(clientId: string, secret: string): (r: string)
    ensures |r| == |clientId| + 1 + |secret|
    ensures r[..|clientId|] == clientId && r[|clientId|] == ':' && r[|clientId| + 1..] == secret
  {
    clientId + ":" + secret
  }

  /**
    * The `Authorization` value of the token request: `Basic ` and the base64
    * of the UTF-8 bytes of the credentials. Decoding what follows `Basic `
    * gives those bytes back.
    */
  function BasicAuthorization(clientId: string, secret: string): (r: string)
    ensures |r| >= 6 && r[..6] == "Basic "
    ensures Base64.Decode(r[6..]) == Some(Utf8.Encode(Credentials(clientId, secret)))
  {
    var encoded := Base64.Encode(Utf8.Encode(Credentials(clientId, secret)));
    Base64.DecodeEncode(Utf8.Encode(Credentials(clientId, secret)));
    assert ("Basic " + encoded)[6..] == encoded;
    "Basic " + encoded
  }

  /** The `Authorization` value of an API call made with `token`. */
  function Bearer(token: string): (r: string)
    ensures |r| == 7 + |token| && r[..7] == "Bearer " && r[7..] == token
  {
    "Bearer " + token
  }

  /** The POST to the token endpoint that `getAccessToken` makes on a miss. */
  function TokenRequest(baseUrl: string, clientId: string, secret: string): (r: Request)
    ensures r.verb == Post && r.body == None && r.url == baseUrl + TokenPath
    ensures r.headers.Keys == {"Authorization", "Content-Type"}
    ensures r.headers["Authorization"] == BasicAuthorization(clientId, secret)
    ensures r.headers["Content-Type"] == FormContentType
  {
    Request(Post, baseUrl + TokenPath,
      map["Authorization" := BasicAuthorization(clientId, secret), "Content-Type" := FormContentType],
      None)
  }

  /**
    * How a server reads Basic credentials: the user-id is everything before
    * the first colon, the password everything after it (section 2 of
    * RFC 7617). There is nothing to split when no colon is present.
    */
  function SplitUserPass(b: seq<Utf8.byte>): (r: Option<(seq<Utf8.byte>, seq<Utf8.byte>)>)
    ensures r.None? <==> Utf8.Colon !in b
    ensures r.Some? ==> b == r.value.0 + [Utf8.Colon] + r.value.1 && Utf8.Colon !in r.value.0
  {
    if b == [] then None
    else if b[0] == Utf8.Colon then Some(([], b[1..]))
    else
      var rest := SplitUserPass(b[1..]);
      if rest.None? then None
      else
        assert b == [b[0]] + b[1..];
        Some(([b[0]] + rest.value.0, rest.value.1))
  }

  /** Splitting at the first colon undoes joining at a colon when the first part has none. */
  lemma SplitUserPassJoined(u: seq<Utf8.byte>, p: seq<Utf8.byte>)
    requires Utf8.Colon !in u
    ensures SplitUserPass(u + [Utf8.Colon] + p) == Some((u, p))
  {
    var b := u + [Utf8.Colon] + p;
    var r := SplitUserPass(b);
    assert b[|u|] == Utf8.Colon;
    var u', p' := r.value.0, r.value.1;
    assert b[|u'|] == Utf8.Colon;
    assert u' == b[..|u|] == u;
    assert p' == b[|u| + 1..] == p;
  }

  /**
    * The server recovers the client ID and the secret from the token
    * request's `Authorization` header, provided the client ID has no colon;
    * the secret may contain colons.
    */
  lemma BasicAuthorizationRecoversCredentials(clientId: string, secret: string)
    requires ':' !in clientId
    ensures var auth := BasicAuthorization(clientId, secret);
      Base64.Decode(auth[6..]).Some? &&
      SplitUserPass(Base64.Decode(auth[6..]).value) == Some((Utf8.Encode(clientId), Utf8.Encode(secret)))
  {
    Utf8.EncodeAppend(clientId, ":");
    Utf8.EncodeAppend(clientId + ":", secret);
    assert Utf8.Encode(":") == [Utf8.Colon];
    Utf8.ColonOnlyFromColon(clientId);
    SplitUserPassJoined(Utf8.Encode(clientId), Utf8.Encode(secret));
  }
}
