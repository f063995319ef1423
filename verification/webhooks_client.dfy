/**
  * `PayPalWebhooksManagementClient.verifyWebhookSignature`: builds the
  * verification body from the caller's fields with the raw webhook body in
  * the `webhook_event` slot, and posts it with a token from the shared
  * `PayPalClient`. The parsed answer is returned whatever the status.
  */
module WebhooksClient {
  import opened Wrappers
  import Http
  import FlatJson
  import WebhookBody
  import TokenClient

  /** The webhooks client: a handle on the shared `PayPalClient`. */
  class PayPalWebhooksManagementClient {
    const payPalClient: TokenClient.PayPalClient

    constructor (payPalClient: TokenClient.PayPalClient)
      ensures this.payPalClient == payPalClient
    {
      this.payPalClient := payPalClient;
    }

    /**
      * `verifyWebhookSignature`. The body is built first, by the splice as
      * written; then the token is obtained. If that throws, nothing is
      * posted and the same error is thrown. Otherwise the request carries
      * that token and the body, and the parsed answer is returned as it is.
      * The body posted is the raw event in the `webhook_event` slot when the
      * event has no `$` and the fields are plain.
      */
    method VerifyWebhookSignature(partialBody: FlatJson.Fields, rawBody: string,
                                  now: int, later: int, tokenResponse: TokenClient.TokenResponse,
                                  response: Http.Response)
      returns (tokenRequest: Option<Http.Request>, request: Option<Http.Request>, result: Result<string, string>)
      modifies payPalClient
      ensures var r := TokenClient.Refresh(old(payPalClient.Cache()), now, later, tokenResponse);
        payPalClient.Cache() == r.cache &&
        payPalClient.fetches == old(payPalClient.fetches) + (if r.fetched then 1 else 0) &&
        tokenRequest == (if r.fetched then Some(Http.TokenRequest(payPalClient.baseUrl, payPalClient.clientId, payPalClient.secret)) else None) &&
        (r.result.Failure? ==> request == None && result == Failure(r.result.error)) &&
        (r.result.Success? ==>
          request == Some(WebhookBody.VerifyRequest(payPalClient.baseUrl, Http.Bearer(r.result.value),
                                                    WebhookBody.SplicedBody(partialBody, rawBody)))
          && result == Success(response.body))
      ensures request.Some? && '$' !in rawBody && WebhookBody.PlainFields(partialBody) ==>
        request.value.body == Some(WebhookBody.VerbatimBody(partialBody, rawBody))
    {
      var jsonBody := WebhookBody.SplicedBody(partialBody, rawBody);
      if '$' !in rawBody && WebhookBody.PlainFields(partialBody) {
        WebhookBody.SplicedIsVerbatim(partialBody, rawBody);
      }
      var token;
      tokenRequest, token := payPalClient.GetAccessToken(now, later, tokenResponse);
      if token.Failure? {
        return tokenRequest, None, Failure(token.error);
      }
      request := Some(WebhookBody.VerifyRequest(payPalClient.baseUrl, Http.Bearer(token.value), jsonBody));
      result := Success(response.body);
    }
  }
}
