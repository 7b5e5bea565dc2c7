/** The cache of the access token that is attached to every handle the pool hands out. */
module AccessTokens {
  import opened Wrappers
  import opened PoolOptions

  /** How long a fetched token is reused: 5 minutes. */
  const TokenLifetime: int := 5 * TicksPerMinute

  /** The exception the application-default credential lookup or the token request raises. */
  datatype CredentialError = CredentialError

  /**
   * A token cache with a fixed time to live. The credential fetch is foreign; each call
   * receives what that fetch would answer if it were made.
   */
  class AccessTokenProvider {
    var CachedAccessToken: Option<string>
    var TokenExpiry: int

    /** Nothing cached; the expiry is DateTime.MinValue, tick 0. */
    constructor ()
      ensures CachedAccessToken == None && TokenExpiry == 0
    {
      CachedAccessToken := None;
      TokenExpiry := 0;
    }

    /** A call at now fetches a new token: nothing is cached yet, or the expiry has been reached (inclusive). */
    predicate NeedsRefresh(now: int)
      reads this
    {
      CachedAccessToken.None? || now >= TokenExpiry
    }

    /** What the cache holds after a call at now whose fetch, if made, would answer fetch. */
    function StateAfter(now: int, fetch: Result<string, CredentialError>): (Option<string>, int)
      reads this
    {
      if NeedsRefresh(now) && fetch.Success? then (Some(fetch.value), now + TokenLifetime)
      else (CachedAccessToken, TokenExpiry)
    }

    method GetAccessToken(now: int, fetch: Result<string, CredentialError>)
      returns (r: Result<string, CredentialError>)
      modifies this
      // a fetch is made exactly when the cache is empty or expired; its answer is cached for TokenLifetime
      ensures old(NeedsRefresh(now)) && fetch.Success? ==>
                r == fetch && CachedAccessToken == Some(fetch.value) && TokenExpiry == now + TokenLifetime
      // a failed fetch propagates and leaves the cache as it was
      ensures old(NeedsRefresh(now)) && fetch.Failure? ==> r == fetch && unchanged(this)
      // before expiry the cached token is returned and nothing is fetched
      ensures !old(NeedsRefresh(now)) ==> r == Success(old(CachedAccessToken).value) && unchanged(this)
      // whatever is returned is what the cache now holds
      ensures r.Success? ==> CachedAccessToken == Some(r.value)
      ensures (CachedAccessToken, TokenExpiry) == old(StateAfter(now, fetch))
    {
      if CachedAccessToken.None? || now >= TokenExpiry {
        if fetch.Failure? {
          return fetch;
        }
        CachedAccessToken := Some(fetch.value);
        TokenExpiry := now + TokenLifetime;
      }
      r := Success(CachedAccessToken.value);
    }
  }
}
