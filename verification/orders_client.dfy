/**
  * `PayPalOrdersClient.createOrder`: a POST to the Orders API that carries
  * the caller's optional headers, with `Prefer`, `Authorization` and
  * `Content-Type` always set by the client. It returns the parsed answer
  * whatever the status.
  */
module OrdersClient {
  import opened Wrappers
  import opened Http
  import TokenClient

  /** Asks the server to answer with the full order. */
  const PreferRepresentation: string := "return=representation"

  /** The header names the client always sets. */
  const FixedHeaders: set<string> := {"Prefer", "Authorization", "Content-Type"}

  /**
    * `{...headers, Prefer, Authorization, Content-Type}`. The names are the
    * caller's and the three fixed ones; the fixed ones carry the client's
    * values whatever the caller passed; every other caller header keeps its
    * value.
    */
  function CreateOrderHeaders(caller: map<string, string>, accessToken: string): (r: map<string, string>)
    ensures r.Keys == caller.Keys + FixedHeaders
    ensures r["Prefer"] == PreferRepresentation
    ensures r["Authorization"] == Bearer(accessToken)
    ensures r["Content-Type"] == JsonContentType
    ensures forall k :: k in caller && k !in FixedHeaders ==> r[k] == caller[k]
  {
    caller + map["Prefer" := PreferRepresentation, "Authorization" := Bearer(accessToken),
                 "Content-Type" := JsonContentType]
  }

  /** What the caller passes under a fixed name makes no difference. */
  lemma FixedHeadersWin(caller: map<string, string>, accessToken: string, name: string, value: string)
    requires name in FixedHeaders
    ensures CreateOrderHeaders(caller[name := value], accessToken) == CreateOrderHeaders(caller, accessToken)
  {
    var a, b := CreateOrderHeaders(caller[name := value], accessToken), CreateOrderHeaders(caller, accessToken);
    assert a.Keys == b.Keys;
    assert forall k :: k in a ==> a[k] == b[k];
  }

  /** The order-creation request: a POST of the serialised order to the orders collection. */
  function CreateOrderRequest(baseUrl: string, caller: map<string, string>, accessToken: string, body: string): (r: Request)
    ensures r.verb == Post && r.url == baseUrl + OrdersPath && r.body == Some(body)
    ensures r.headers == CreateOrderHeaders(caller, accessToken)
  {
    Request(Post, baseUrl + OrdersPath, CreateOrderHeaders(caller, accessToken), Some(body))
  }

  /** The orders client: a handle on the shared `PayPalClient`. */
  class PayPalOrdersClient {
    const payPalClient: TokenClient.PayPalClient

    constructor (payPalClient: TokenClient.PayPalClient)
      ensures this.payPalClient == payPalClient
    {
      this.payPalClient := payPalClient;
    }

    /**
      * `createOrder`. The token is obtained once, first; if that throws, no
      * order request is sent and the same error is thrown. Otherwise the
      * request carries that token, and the parsed answer is returned as it
      * is, error or order.
      */
    method CreateOrder(headers: map<string, string>, body: string,
                       now: int, later: int, tokenResponse: TokenClient.TokenResponse, response: Response)
      returns (tokenRequest: Option<Request>, request: Option<Request>, result: Result<string, string>)
      modifies payPalClient
      ensures var r := TokenClient.Refresh(old(payPalClient.Cache()), now, later, tokenResponse);
        payPalClient.Cache() == r.cache &&
        payPalClient.fetches == old(payPalClient.fetches) + (if r.fetched then 1 else 0) &&
        tokenRequest == (if r.fetched then Some(TokenRequest(payPalClient.baseUrl, payPalClient.clientId, payPalClient.secret)) else None) &&
        (r.result.Failure? ==> request == None && result == Failure(r.result.error)) &&
        (r.result.Success? ==> request == Some(CreateOrderRequest(payPalClient.baseUrl, headers, r.result.value, body))
                               && result == Success(response.body))
    {
      var token;
      tokenRequest, token := payPalClient.GetAccessToken(now, later, tokenResponse);
      if token.Failure? {
        return tokenRequest, None, Failure(token.error);
      }
      request := Some(CreateOrderRequest(payPalClient.baseUrl, headers, token.value, body));
      result := Success(response.body);
    }
  }
}
