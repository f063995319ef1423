/**
  * `PayPalClient`: the client credentials, the API host, and a cached
  * OAuth 2.0 access token with its expiry time.
  *
  * `getAccessToken` answers from the cache while the token has not expired.
  * Otherwise it asks the token endpoint. An error answer (section 5.2 of
  * RFC 6749) makes it throw and leaves the cache as it was. A successful
  * answer (section 5.1 of RFC 6749) is stored, with its lifetime added to
  * the current time.
  *
  * The clock and the token endpoint are parameters. `now` is the clock
  * reading taken for the expiry check and `later` the one taken when the new
  * expiry is computed. `response` is what the endpoint answers to the token
  * request; it is consulted only when that request is made. Times are whole
  * seconds.
  */
module TokenClient {
  import opened Wrappers
  import opened Http

  /** The token endpoint's parsed answer. */
  datatype TokenResponse =
    | Granted(accessToken: string, expiresIn: int)
    | Rejected(error: string, errorDescription: string)

  /** The message `getAccessToken` throws when the endpoint answers with an error. */
  const AccessTokenError: string :=
    "Failed to get access token. Ensure your client ID and secret are correct."

  /** The two cache fields: the token, if any, and when it expires, in seconds. */
  datatype TokenCache = TokenCache(accessToken: Option<string>, expiresAt: int)

  /** The cache of a newly constructed client. */
  const EmptyCache: TokenCache := TokenCache(None, 0)

  /** The cached token may be used at `now`: there is one and it expires strictly later. */
  predicate IsFresh(cache: TokenCache, now: int) {
    cache.accessToken.Some? && cache.expiresAt > now
  }

  /** What one `getAccessToken` call leaves behind: the new cache, whether it fetched, and its outcome. */
  datatype Refreshed = Refreshed(cache: TokenCache, fetched: bool, result: Result<string, string>)

  /**
    * One `getAccessToken` call. It fetches exactly when the cache is not
    * fresh; a token it returns is the one the cache now holds; when it
    * throws, the cache is untouched.
    */
  function Refresh(cache: TokenCache, now: int, later: int, response: TokenResponse): (r: Refreshed)
    ensures r.fetched <==> !IsFresh(cache, now)
    ensures r.result.Success? ==> r.cache.accessToken == Some(r.result.value)
    ensures r.result.Failure? ==> r.cache == cache && r.result.error == AccessTokenError
    ensures !r.fetched ==> r.cache == cache
  {
    if IsFresh(cache, now) then
      Refreshed(cache, false, Success(cache.accessToken.value))
    else
      match response
      case Rejected(_, _) => Refreshed(cache, true, Failure(AccessTokenError))
      case Granted(token, expiresIn) =>
        Refreshed(TokenCache(Some(token), later + expiresIn), true, Success(token))
  }

  /** A new client has no token, so its first call fetches, whatever the time. */
  lemma FirstCallFetches(now: int, later: int, response: TokenResponse)
    ensures Refresh(EmptyCache, now, later, response).fetched
  {
  }

  /** A hit returns the cached token and changes nothing. */
  lemma HitReturnsCachedToken(cache: TokenCache, now: int, later: int, response: TokenResponse)
    requires IsFresh(cache, now)
    ensures Refresh(cache, now, later, response) == Refreshed(cache, false, Success(cache.accessToken.value))
  {
  }

  /** A token whose expiry is the current second counts as expired. */
  lemma ExpiryIsStrict(cache: TokenCache, now: int, later: int, response: TokenResponse)
    requires cache.accessToken.Some? && cache.expiresAt == now
    ensures Refresh(cache, now, later, response).fetched
  {
  }

  /** An error answer throws and leaves both cache fields as they were. */
  lemma RejectionKeepsCache(cache: TokenCache, now: int, later: int, error: string, description: string)
    requires !IsFresh(cache, now)
    ensures Refresh(cache, now, later, Rejected(error, description))
         == Refreshed(cache, true, Failure(AccessTokenError))
  {
  }

  /** A granted token is stored with expiry `later + expiresIn` and returned. */
  lemma GrantIsStored(cache: TokenCache, now: int, later: int, token: string, expiresIn: int)
    requires !IsFresh(cache, now)
    ensures Refresh(cache, now, later, Granted(token, expiresIn))
         == Refreshed(TokenCache(Some(token), later + expiresIn), true, Success(token))
  {
  }

  /**
    * After a call that obtained a token with a positive lifetime, a second
    * call at the same time is a hit: it returns the same token and fetches
    * nothing. The store's clock reading is not earlier than the check's.
    */
  lemma SecondCallHits(cache: TokenCache, now: int, later: int, token: string, expiresIn: int,
                       later2: int, response2: TokenResponse)
    requires now <= later && expiresIn > 0
    ensures var first := Refresh(cache, now, later, Granted(token, expiresIn));
      var second := Refresh(first.cache, now, later2, response2);
      !second.fetched && second.cache == first.cache && second.result == first.result
  {
  }

  /** One call: its clock readings and the answer the token endpoint would give. */
  datatype Call = Call(now: int, later: int, response: TokenResponse)

  /** The cache after a run of calls. */
  function CacheAfter(cache: TokenCache, calls: seq<Call>): TokenCache
    decreases |calls|
  {
    if calls == [] then cache
    else CacheAfter(Refresh(cache, calls[0].now, calls[0].later, calls[0].response).cache, calls[1..])
  }

  /** How many of a run of calls go to the token endpoint. */
  function Fetches(cache: TokenCache, calls: seq<Call>): (n: nat)
    ensures n <= |calls|
    decreases |calls|
  {
    if calls == [] then 0
    else
      var step := Refresh(cache, calls[0].now, calls[0].later, calls[0].response);
      (if step.fetched then 1 else 0) + Fetches(step.cache, calls[1..])
  }

  /** While the cached token is fresh at every call, no call fetches and the cache stays as it is. */
  lemma {:induction false} FreshCacheFetchesNothing(cache: TokenCache, calls: seq<Call>)
    requires forall i :: 0 <= i < |calls| ==> IsFresh(cache, calls[i].now)
    ensures Fetches(cache, calls) == 0 && CacheAfter(cache, calls) == cache
    decreases |calls|
  {
    if calls != [] {
      assert IsFresh(cache, calls[0].now);
      assert forall i :: 0 <= i < |calls[1..]| ==> IsFresh(cache, calls[1..][i].now) by {
        forall i | 0 <= i < |calls[1..]| ensures IsFresh(cache, calls[1..][i].now) {
          assert calls[1..][i] == calls[i + 1];
        }
      }
      FreshCacheFetchesNothing(cache, calls[1..]);
    }
  }

  /**
    * Calls made at the same instant, each of which would be granted a token
    * with a positive lifetime, fetch at most once between them.
    */
  lemma {:induction false} SameInstantFetchesAtMostOnce(cache: TokenCache, t: int, calls: seq<Call>)
    requires forall i :: 0 <= i < |calls| ==>
      calls[i].now == t <= calls[i].later && calls[i].response.Granted? && calls[i].response.expiresIn > 0
    ensures Fetches(cache, calls) <= 1
  {
    if calls != [] {
      var c := calls[0];
      var step := Refresh(cache, c.now, c.later, c.response);
      assert IsFresh(step.cache, t);
      assert forall i :: 0 <= i < |calls[1..]| ==> IsFresh(step.cache, calls[1..][i].now) by {
        forall i | 0 <= i < |calls[1..]| ensures IsFresh(step.cache, calls[1..][i].now) {
          assert calls[1..][i] == calls[i + 1];
        }
      }
      FreshCacheFetchesNothing(step.cache, calls[1..]);
    }
  }

  /** The client: its options, its API host, and the token cache it updates in place. */
  class PayPalClient {
    const clientId: string
    const secret: string
    const useSandbox: bool
    const baseUrl: string
    var accessToken: Option<string>
    var accessTokenExpiresAt: int
    /** How many token requests this client has made. */
    ghost var fetches: nat

    /** The cache fields as a value. */
    function Cache(): TokenCache
      reads this
    {
      TokenCache(accessToken, accessTokenExpiresAt)
    }

    /** A client for the given credentials, on the sandbox or live host, with an empty cache. */
    constructor (clientId: string, secret: string, useSandbox: bool)
      ensures this.clientId == clientId && this.secret == secret && this.useSandbox == useSandbox
      ensures baseUrl == BaseUrl(useSandbox)
      ensures Cache() == EmptyCache && fetches == 0
    {
      this.clientId := clientId;
      this.secret := secret;
      this.useSandbox := useSandbox;
      accessToken := None;
      accessTokenExpiresAt := 0;
      baseUrl := BaseUrl(useSandbox);
      fetches := 0;
    }

    /**
      * `getAccessToken`: returns the token request it sends (none on a hit)
      * and the token, or the error it throws.
      */
    method GetAccessToken(now: int, later: int, response: TokenResponse)
      returns (request: Option<Request>, result: Result<string, string>)
      modifies this
      ensures var r := Refresh(old(Cache()), now, later, response);
        Cache() == r.cache && result == r.result &&
        request == (if r.fetched then Some(TokenRequest(baseUrl, clientId, secret)) else None) &&
        fetches == old(fetches) + (if r.fetched then 1 else 0)
    {
      if accessToken.Some? && accessTokenExpiresAt > now {
        return None, Success(accessToken.value);
      }
      request := Some(TokenRequest(baseUrl, clientId, secret));
      fetches := fetches + 1;
      match response {
        case Rejected(_, _) =>
          result := Failure(AccessTokenError);
        case Granted(token, expiresIn) =>
          accessToken := Some(token);
          accessTokenExpiresAt := later + expiresIn;
          result := Success(token);
      }
    }
  }
}
