/**
  * `PayPal`: the older single-class client. It keeps its own token cache,
  * which it overwrites from every token answer without looking for an
  * error, and it wraps three Orders API calls and the webhook signature
  * verification, each with its own rule for which statuses it accepts.
  *
  * As in `TokenClient`, the clock readings `now` and `later`, the token
  * endpoint's answer and the API's response are parameters; bodies that
  * the source serialises with `JSON.stringify` are passed already
  * serialised, except the webhook verification body, which is built here.
  */
module LegacyPayPal {
  import opened Wrappers
  import opened Http
  import FlatJson
  import WebhookBody
  import TokenClient

  /**
    * The token endpoint's parsed answer, read without an error check: the
    * `access_token` member may be missing, and `expires_in` is taken as a
    * number of seconds.
    */
  datatype LegacyTokenResponse = LegacyTokenResponse(accessToken: Option<string>, expiresIn: int)

  /** The two cache fields. Both start out undefined. */
  datatype LegacyCache = LegacyCache(token: Option<string>, expiresAt: Option<int>)

  /** The cache of a newly constructed client. */
  const InitialCache: LegacyCache := LegacyCache(None, None)

  /**
    * The cached token may be used at `now`: it is neither null nor undefined
    * and its expiry is defined and strictly later (an undefined expiry
    * compares false).
    */
  predicate IsFresh(cache: LegacyCache, now: int) {
    cache.token.Some? && cache.expiresAt.Some? && cache.expiresAt.value > now
  }

  /** What one `getAccessToken` call leaves behind: the new cache, whether it fetched, and the token it returned. */
  datatype LegacyRefreshed = LegacyRefreshed(cache: LegacyCache, fetched: bool, token: Option<string>)

  /**
    * One `getAccessToken` call. It fetches exactly when the cache is not
    * fresh. A fetch overwrites both fields from the answer, whatever the
    * answer holds. The token returned is always the one the cache now holds.
    */
  function Refresh(cache: LegacyCache, now: int, later: int, response: LegacyTokenResponse): (r: LegacyRefreshed)
    ensures r.fetched <==> !IsFresh(cache, now)
    ensures r.token == r.cache.token
    ensures !r.fetched ==> r.cache == cache
    ensures r.fetched ==> r.cache == LegacyCache(response.accessToken, Some(later + response.expiresIn))
  {
    if IsFresh(cache, now) then LegacyRefreshed(cache, false, cache.token)
    else LegacyRefreshed(LegacyCache(response.accessToken, Some(later + response.expiresIn)), true, response.accessToken)
  }

  /** The first call of a new client fetches: its expiry is undefined. */
  lemma FirstCallFetches(now: int, later: int, response: LegacyTokenResponse)
    ensures Refresh(InitialCache, now, later, response).fetched
  {
  }

  /** A hit returns the cached token and changes nothing. */
  lemma HitReturnsCachedToken(cache: LegacyCache, now: int, later: int, response: LegacyTokenResponse)
    requires IsFresh(cache, now)
    ensures Refresh(cache, now, later, response) == LegacyRefreshed(cache, false, cache.token)
  {
  }

  /**
    * An answer without `access_token` leaves no token behind, whatever its
    * lifetime, so the next call fetches again, at any time.
    */
  lemma MissingTokenFetchesAgain(cache: LegacyCache, now: int, later: int, expiresIn: int,
                                 now2: int, later2: int, response2: LegacyTokenResponse)
    requires !IsFresh(cache, now)
    ensures var first := Refresh(cache, now, later, LegacyTokenResponse(None, expiresIn));
      first.token == None && Refresh(first.cache, now2, later2, response2).fetched
  {
  }

  /**
    * After a call whose answer (if it fetched) held a token with a positive
    * lifetime, a second call at the same time is a hit returning the same token.
    */
  lemma SecondCallHits(cache: LegacyCache, now: int, later: int, token: string, expiresIn: int,
                       later2: int, response2: LegacyTokenResponse)
    requires now <= later && expiresIn > 0
    ensures var first := Refresh(cache, now, later, LegacyTokenResponse(Some(token), expiresIn));
      var second := Refresh(first.cache, now, later2, response2);
      !second.fetched && second.cache == first.cache && second.token == first.token
  {
  }

  /** A legacy cache holding the same token and expiry as a `PayPalClient` cache. */
  function FromCache(cache: TokenClient.TokenCache): (r: LegacyCache)
    ensures r.token == cache.accessToken && r.expiresAt == Some(cache.expiresAt)
  {
    LegacyCache(cache.accessToken, Some(cache.expiresAt))
  }

  /**
    * On a granted token the two clients behave alike: from corresponding
    * caches they fetch in the same cases, return the same token and end
    * with corresponding caches.
    */
  lemma AgreesOnGrant(cache: TokenClient.TokenCache, now: int, later: int, token: string, expiresIn: int)
    ensures var legacy := Refresh(FromCache(cache), now, later, LegacyTokenResponse(Some(token), expiresIn));
      var current := TokenClient.Refresh(cache, now, later, TokenClient.Granted(token, expiresIn));
      legacy.fetched == current.fetched &&
      current.result.Success? && legacy.token == Some(current.result.value) &&
      legacy.cache == FromCache(current.cache)
  {
  }

  /**
    * On an error answer they part: `PayPalClient` throws and keeps its
    * cache, while `PayPal` returns no token and replaces its cache with an
    * empty token.
    */
  lemma DiffersOnRejection(cache: TokenClient.TokenCache, now: int, later: int,
                           error: string, description: string, expiresIn: int)
    requires !TokenClient.IsFresh(cache, now)
    ensures var legacy := Refresh(FromCache(cache), now, later, LegacyTokenResponse(None, expiresIn));
      var current := TokenClient.Refresh(cache, now, later, TokenClient.Rejected(error, description));
      current.result.Failure? && current.cache == cache &&
      legacy.token == None && legacy.cache.token == None
  {
  }

  /**
    * The bearer `Authorization` value built from whatever `getAccessToken`
    * returned: an undefined token is written as the word `undefined`.
    */
  function BearerHeader(token: Option<string>): (r: string)
    ensures token.Some? ==> r == Bearer(token.value)
    ensures token.None? ==> r == Bearer("undefined")
  {
    Bearer(if token.Some? then token.value else "undefined")
  }

  /** The URL of one order: the orders collection, a slash, and the ID exactly as given. */
  function OrderUrl(baseUrl: string, id: string): (r: string)
    ensures var prefix := baseUrl + OrdersPath + "/";
      |r| == |prefix| + |id| && r[..|prefix|] == prefix && r[|prefix|..] == id
  {
    var prefix := baseUrl + OrdersPath + "/";
    assert (prefix + id)[..|prefix|] == prefix;
    prefix + id
  }

  /** The URL of an order's capture: the order's URL followed by `/capture`. */
  function CaptureUrl(baseUrl: string, id: string): (r: string)
    ensures var order := OrderUrl(baseUrl, id);
      |r| == |order| + 8 && r[..|order|] == order && r[|order|..] == "/capture"
  {
    var order := OrderUrl(baseUrl, id);
    assert (order + "/capture")[..|order|] == order;
    baseUrl + OrdersPath + "/" + id + "/capture"
  }

  /** Different order IDs give different order URLs. */
  lemma OrderUrlInjective(baseUrl: string, id1: string, id2: string)
    requires OrderUrl(baseUrl, id1) == OrderUrl(baseUrl, id2)
    ensures id1 == id2
  {
    var prefix := baseUrl + OrdersPath + "/";
    assert id1 == OrderUrl(baseUrl, id1)[|prefix|..];
  }

  /**
    * Because the ID is not escaped, fetching the order whose "ID" is
    * `id + "/capture"` addresses the capture URL of order `id`.
    */
  lemma UnescapedIdReachesCapture(baseUrl: string, id: string)
    ensures OrderUrl(baseUrl, id + "/capture") == CaptureUrl(baseUrl, id)
  {
    var prefix := baseUrl + OrdersPath + "/";
    assert OrderUrl(baseUrl, id + "/capture") == prefix + (id + "/capture");
    assert CaptureUrl(baseUrl, id) == (prefix + id) + "/capture";
  }

  /** The message `captureOrderPayment` throws. */
  const CaptureError: string := "Failed to capture order payment."

  /** The message `createOrder` throws. */
  const CreateError: string := "Failed to create order."

  /** The message `getOrder` throws. */
  const FetchError: string := "Failed to fetch order."

  /** `captureOrderPayment`'s status rule: 200 and 201 return the parsed body, every other status throws. */
  function CaptureOutcome(response: Response): (r: Result<string, string>)
    ensures r.Success? <==> response.status == 200 || response.status == 201
    ensures r.Success? ==> r.value == response.body
    ensures r.Failure? ==> r.error == CaptureError
  {
    if response.status != 200 && response.status != 201 then Failure(CaptureError) else Success(response.body)
  }

  /** The status rule of `createOrder` and `getOrder`: only 200 returns the parsed body, every other status throws `error`. */
  function OkOutcome(response: Response, error: string): (r: Result<string, string>)
    ensures r.Success? <==> response.status == 200
    ensures r.Success? ==> r.value == response.body
    ensures r.Failure? ==> r.error == error
  {
    if response.status != 200 then Failure(error) else Success(response.body)
  }

  /**
    * The rules differ at exactly one status: 201 (Created) is accepted by
    * `captureOrderPayment` but makes `createOrder` and `getOrder` throw.
    */
  lemma StatusRulesDiffer(response: Response)
    ensures CaptureOutcome(response).Success? != OkOutcome(response, CreateError).Success?
        <==> response.status == 201
    ensures CaptureOutcome(response).Success? != OkOutcome(response, FetchError).Success?
        <==> response.status == 201
  {
  }

  /** The headers of an authorised JSON call. */
  function JsonHeaders(token: Option<string>): (r: map<string, string>)
    ensures r.Keys == {"Authorization", "Content-Type"}
    ensures r["Authorization"] == BearerHeader(token) && r["Content-Type"] == JsonContentType
  {
    map["Authorization" := BearerHeader(token), "Content-Type" := JsonContentType]
  }

  /** The capture request: a POST of the serialised options to the capture URL. */
  function CaptureRequest(baseUrl: string, id: string, token: Option<string>, options: string): (r: Request)
    ensures r.verb == Post && r.url == CaptureUrl(baseUrl, id) && r.body == Some(options)
    ensures r.headers == JsonHeaders(token)
  {
    Request(Post, CaptureUrl(baseUrl, id), JsonHeaders(token), Some(options))
  }

  /**
    * The order-creation request: a POST of the serialised order to the
    * orders collection, with the idempotency key passed on unchanged as
    * `PayPal-Request-Id`.
    */
  function CreateOrderRequest(baseUrl: string, requestId: string, token: Option<string>, options: string): (r: Request)
    ensures r.verb == Post && r.url == baseUrl + OrdersPath && r.body == Some(options)
    ensures r.headers.Keys == {"Authorization", "Content-Type", "PayPal-Request-Id"}
    ensures r.headers["PayPal-Request-Id"] == requestId
    ensures r.headers["Authorization"] == BearerHeader(token) && r.headers["Content-Type"] == JsonContentType
  {
    Request(Post, baseUrl + OrdersPath, JsonHeaders(token)["PayPal-Request-Id" := requestId], Some(options))
  }

  /** The order lookup: a GET of the order's URL with only the `Authorization` header and no body. */
  function GetOrderRequest(baseUrl: string, id: string, token: Option<string>): (r: Request)
    ensures r.verb == Get && r.url == OrderUrl(baseUrl, id) && r.body == None
    ensures r.headers.Keys == {"Authorization"} && r.headers["Authorization"] == BearerHeader(token)
  {
    Request(Get, OrderUrl(baseUrl, id), map["Authorization" := BearerHeader(token)], None)
  }

  /** The client: its options, its API host, and the token cache it updates in place. */
  class PayPal {
    const sandbox: bool
    const clientId: string
    const secret: string
    const baseUrl: string
    var currentAccessToken: Option<string>
    var currentAccessTokenExpiresAt: Option<int>
    /** How many token requests this client has made. */
    ghost var fetches: nat

    /** The cache fields as a value. */
    function Cache(): LegacyCache
      reads this
    {
      LegacyCache(currentAccessToken, currentAccessTokenExpiresAt)
    }

    /** A client for the given credentials, on the sandbox or live host, with both cache fields undefined. */
    constructor (sandbox: bool, clientId: string, secret: string)
      ensures this.sandbox == sandbox && this.clientId == clientId && this.secret == secret
      ensures baseUrl == BaseUrl(sandbox)
      ensures Cache() == InitialCache && fetches == 0
    {
      this.sandbox := sandbox;
      this.clientId := clientId;
      this.secret := secret;
      baseUrl := BaseUrl(sandbox);
      currentAccessToken := None;
      currentAccessTokenExpiresAt := None;
      fetches := 0;
    }

    /**
      * `getAccessToken`: returns the token request it sends (none on a hit)
      * and the token, which is missing when the answer had none.
      */
    method GetAccessToken(now: int, later: int, response: LegacyTokenResponse)
      returns (request: Option<Request>, token: Option<string>)
      modifies this
      ensures var r := Refresh(old(Cache()), now, later, response);
        Cache() == r.cache && token == r.token &&
        request == (if r.fetched then Some(TokenRequest(baseUrl, clientId, secret)) else None) &&
        fetches == old(fetches) + (if r.fetched then 1 else 0)
    {
      if currentAccessToken.Some? && currentAccessTokenExpiresAt.Some? && currentAccessTokenExpiresAt.value > now {
        return None, currentAccessToken;
      }
      request := Some(TokenRequest(baseUrl, clientId, secret));
      fetches := fetches + 1;
      currentAccessToken := response.accessToken;
      currentAccessTokenExpiresAt := Some(later + response.expiresIn);
      token := response.accessToken;
    }

    /**
      * `captureOrderPayment`: gets a token, posts the capture, and returns
      * the parsed answer when the status is 200 or 201.
      */
    method CaptureOrderPayment(id: string, options: string, now: int, later: int,
                               tokenResponse: LegacyTokenResponse, response: Response)
      returns (tokenRequest: Option<Request>, request: Request, result: Result<string, string>)
      modifies this
      ensures var r := Refresh(old(Cache()), now, later, tokenResponse);
        Cache() == r.cache && fetches == old(fetches) + (if r.fetched then 1 else 0) &&
        tokenRequest == (if r.fetched then Some(TokenRequest(baseUrl, clientId, secret)) else None) &&
        request == CaptureRequest(baseUrl, id, r.token, options) &&
        result == CaptureOutcome(response)
    {
      var token;
      tokenRequest, token := GetAccessToken(now, later, tokenResponse);
      request := CaptureRequest(baseUrl, id, token, options);
      result := CaptureOutcome(response);
    }

    /** `createOrder`: gets a token, posts the order, and returns the parsed answer only on status 200. */
    method CreateOrder(requestId: string, options: string, now: int, later: int,
                       tokenResponse: LegacyTokenResponse, response: Response)
      returns (tokenRequest: Option<Request>, request: Request, result: Result<string, string>)
      modifies this
      ensures var r := Refresh(old(Cache()), now, later, tokenResponse);
        Cache() == r.cache && fetches == old(fetches) + (if r.fetched then 1 else 0) &&
        tokenRequest == (if r.fetched then Some(TokenRequest(baseUrl, clientId, secret)) else None) &&
        request == CreateOrderRequest(baseUrl, requestId, r.token, options) &&
        result == OkOutcome(response, CreateError)
    {
      var token;
      tokenRequest, token := GetAccessToken(now, later, tokenResponse);
      request := CreateOrderRequest(baseUrl, requestId, token, options);
      result := OkOutcome(response, CreateError);
    }

    /** `getOrder`: gets a token, fetches the order, and returns the parsed answer only on status 200. */
    method GetOrder(id: string, now: int, later: int, tokenResponse: LegacyTokenResponse, response: Response)
      returns (tokenRequest: Option<Request>, request: Request, result: Result<string, string>)
      modifies this
      ensures var r := Refresh(old(Cache()), now, later, tokenResponse);
        Cache() == r.cache && fetches == old(fetches) + (if r.fetched then 1 else 0) &&
        tokenRequest == (if r.fetched then Some(TokenRequest(baseUrl, clientId, secret)) else None) &&
        request == GetOrderRequest(baseUrl, id, r.token) &&
        result == OkOutcome(response, FetchError)
    {
      var token;
      tokenRequest, token := GetAccessToken(now, later, tokenResponse);
      request := GetOrderRequest(baseUrl, id, token);
      result := OkOutcome(response, FetchError);
    }

    /**
      * `verifyWebhookSignature`: builds the verification body by splicing
      * the raw webhook body over the quoted placeholder, gets a token, posts
      * the body, and returns the parsed answer whatever the status. The
      * `options` are the caller's whole options object, its own `rawBody`
      * field included. The body posted is the raw event in the
      * `webhook_event` slot when the event has no `$` and the options are
      * plain (`WebhookBody.PlainWithoutTrailingUnderscores`).
      */
    method VerifyWebhookSignature(options: FlatJson.Fields, rawBody: string, now: int, later: int,
                                  tokenResponse: LegacyTokenResponse, response: Response)
      returns (tokenRequest: Option<Request>, request: Request, result: string)
      modifies this
      ensures var r := Refresh(old(Cache()), now, later, tokenResponse);
        Cache() == r.cache && fetches == old(fetches) + (if r.fetched then 1 else 0) &&
        tokenRequest == (if r.fetched then Some(TokenRequest(baseUrl, clientId, secret)) else None) &&
        request == WebhookBody.VerifyRequest(baseUrl, BearerHeader(r.token), WebhookBody.SplicedBody(options, rawBody)) &&
        result == response.body
      ensures '$' !in rawBody && WebhookBody.PlainFields(options) ==>
        request.body == Some(WebhookBody.VerbatimBody(options, rawBody))
    {
      var jsonBody := WebhookBody.SplicedBody(options, rawBody);
      if '$' !in rawBody && WebhookBody.PlainFields(options) {
        WebhookBody.SplicedIsVerbatim(options, rawBody);
      }
      var token;
      tokenRequest, token := GetAccessToken(now, later, tokenResponse);
      request := WebhookBody.VerifyRequest(baseUrl, BearerHeader(token), jsonBody);
      result := response.body;
    }
  }
}
