/** QuickBooks OAuth: token expiry, token encryption at rest, the callback that carries the
    authorization code, and the checks the authorization-code grant makes before exchanging
    the code (section 4.1.2 of RFC 6749, with `state` guarding against cross-site request
    forgery as in section 10.12). The identity provider, the browser, the clock and the
    random state token are parameters. */
module Auth {
  import opened Wrappers
  import opened Models

  const TOKEN_EXPIRY_BUFFER_SECONDS: int := 300

  // ---------------------------------------------------------------------------------------
  // expiry

  /** `is_token_expired`: the token counts as expired from five minutes before its expiry. */
  predicate IsTokenExpired(token: Token, now: Instant)
    ensures IsTokenExpired(token, now) <==> token.expiresAt - now <= TOKEN_EXPIRY_BUFFER_SECONDS
    ensures token.expiresAt <= now ==> IsTokenExpired(token, now)
  {
    now >= token.expiresAt - TOKEN_EXPIRY_BUFFER_SECONDS
  }

  /** A token is expired exactly when less than the buffer remains: an expiry in the past or
      within the buffer counts, one an hour out does not. */
  lemma TokenExpiryWindow(token: Token, now: Instant)
    ensures IsTokenExpired(token, now) <==> token.expiresAt - now <= TOKEN_EXPIRY_BUFFER_SECONDS
    ensures token.expiresAt <= now ==> IsTokenExpired(token, now)
    ensures token.expiresAt - now == 3600 ==> !IsTokenExpired(token, now)
  {
  }

  /** Once expired, a token stays expired. */
  lemma TokenExpiryMonotone(token: Token, now: Instant, later: Instant)
    requires now <= later
    requires IsTokenExpired(token, now)
    ensures IsTokenExpired(token, later)
  {
  }

  // ---------------------------------------------------------------------------------------
  // encryption at rest

  /** A symmetric cipher on token text (Fernet in the application). */
  datatype Cipher = Cipher(encrypt: string -> string, decrypt: string -> string)

  /** `TokenEncryption`: a cipher only when a non-empty key is configured. */
  datatype TokenEncryption = TokenEncryption(cipher: Option<Cipher>) {
    /** `encrypt`. */
    function Encrypt(value: string): (r: string)
      ensures cipher.None? ==> r == value
    {
      if cipher.Some? then cipher.value.encrypt(value) else value
    }

    /** `decrypt`. */
    function Decrypt(value: string): (r: string)
      ensures cipher.None? ==> r == value
    {
      if cipher.Some? then cipher.value.decrypt(value) else value
    }
  }

  /** `TokenEncryption(key)`: `fernet` builds the cipher of a key. */
  function NewTokenEncryption(key: Option<string>, fernet: string -> Cipher): (e: TokenEncryption)
    ensures e.cipher.Some? <==> key.Some? && key.value != ""
    ensures e.cipher.Some? ==> e.cipher.value == fernet(key.value)
  {
    if key.Some? && key.value != "" then TokenEncryption(Some(fernet(key.value))) else TokenEncryption(None)
  }

  /** Without a key (none configured, or the empty one) encrypting and decrypting both leave a
      token as it is. */
  lemma NoKeyIsIdentity(key: Option<string>, fernet: string -> Cipher, value: string)
    requires key.None? || key.value == ""
    ensures NewTokenEncryption(key, fernet).Encrypt(value) == value
    ensures NewTokenEncryption(key, fernet).Decrypt(value) == value
  {
  }

  /** Decrypting undoes encrypting, with or without a key, when the cipher is a true inverse. */
  lemma EncryptionRoundTrip(e: TokenEncryption, value: string)
    requires e.cipher.Some? ==> e.cipher.value.decrypt(e.cipher.value.encrypt(value)) == value
    ensures e.Decrypt(e.Encrypt(value)) == value
  {
  }

  // ---------------------------------------------------------------------------------------
  // the callback

  /** `params.get(key, [None])[0]` over the result of `parse_qs`, whose lists are never empty. */
  function FirstValue(params: map<string, seq<string>>, key: string): (r: Option<string>)
    requires forall k :: k in params ==> params[k] != []
    ensures r.None? <==> key !in params
    ensures r.Some? ==> r.value == params[key][0]
  {
    if key in params then Some(params[key][0]) else None
  }

  /** `CallbackServer` with the `CallbackHandler` fields it reads: the values the callback
      request carried, and whether the listener is up. */
  class CallbackServer {
    var authCode: Option<string>
    var realmId: Option<string>
    var state: Option<string>
    var error: Option<string>
    var listening: bool

    constructor()
      ensures authCode.None? && realmId.None? && state.None? && error.None? && !listening
    {
      authCode, realmId, state, error := None, None, None, None;
      listening := false;
    }

    /** `start`: the values of an earlier callback are cleared before listening. */
    method Start()
      modifies this
      ensures authCode.None? && realmId.None? && state.None? && error.None?
      ensures listening
    {
      authCode, realmId, state, error := None, None, None, None;
      listening := true;
    }

    /** `do_GET`: the first value of each query parameter, None for an absent one. */
    method HandleRequest(params: map<string, seq<string>>)
      requires forall k :: k in params ==> params[k] != []
      modifies this`authCode, this`realmId, this`state, this`error
      ensures authCode == FirstValue(params, "code")
      ensures realmId == FirstValue(params, "realmId")
      ensures state == FirstValue(params, "state")
      ensures error == FirstValue(params, "error")
    {
      authCode := FirstValue(params, "code");
      realmId := FirstValue(params, "realmId");
      state := FirstValue(params, "state");
      error := FirstValue(params, "error");
    }

    /** `stop`. */
    method Stop()
      modifies this`listening
      ensures !listening
    {
      listening := false;
    }
  }

  // ---------------------------------------------------------------------------------------
  // the grant

  /** What the identity provider answers to a code exchange or a refresh. */
  datatype Grant = Grant(accessToken: string, refreshToken: string, expiresIn: int, realmId: Option<string>)

  /** `OAuthResult`. */
  datatype OAuthResult = OAuthResult(realmId: string, accessToken: string, refreshToken: string, expiresAt: Instant)

  /** Python's `x or ""` on an optional string. */
  function OrEmpty(s: Option<string>): (r: string)
    ensures s.Some? ==> r == s.value
    ensures s.None? ==> r == ""
  {
    if s.Some? then s.value else ""
  }

  /** `_exchange_code`: the tokens granted for the code, for the company of the callback. */
  function ExchangeCode(grant: Grant, realmId: Option<string>, now: Instant): (r: OAuthResult)
    ensures r.realmId == "" <==> realmId.None? || realmId.value == ""
    ensures realmId.Some? ==> r.realmId == realmId.value
    ensures r.accessToken == grant.accessToken && r.refreshToken == grant.refreshToken
    ensures r.expiresAt == now + grant.expiresIn
  {
    OAuthResult(OrEmpty(realmId), grant.accessToken, grant.refreshToken, now + grant.expiresIn)
  }

  /** `refresh_token`: the stored refresh token is decrypted before it is sent, and the
      company is the one the provider reports. */
  function RefreshToken(encryption: TokenEncryption, refreshToken: string, refresh: string -> Grant, now: Instant): (r: OAuthResult)
    ensures var grant := refresh(encryption.Decrypt(refreshToken));
            && (r.realmId == "" <==> grant.realmId.None? || grant.realmId.value == "")
            && (grant.realmId.Some? ==> r.realmId == grant.realmId.value)
            && r.accessToken == grant.accessToken && r.refreshToken == grant.refreshToken
            && r.expiresAt == now + grant.expiresIn
  {
    var grant := refresh(encryption.Decrypt(refreshToken));
    OAuthResult(OrEmpty(grant.realmId), grant.accessToken, grant.refreshToken, now + grant.expiresIn)
  }

  /** Python's truth value of an optional string. */
  predicate Truthy(s: Option<string>) {
    s.Some? && s.value != ""
  }

  /** The checks `authorize` makes on the callback, in order: an error reported by the
      provider, then a missing code, then a state other than the one sent. The result is the
      code to exchange, or the message of the `OAuthError`. */
  function CallbackCheck(error: Option<string>, authCode: Option<string>, state: Option<string>, expected: Option<string>): (r: Result<string, string>)
    ensures Truthy(error) ==> r == Err("Authorization failed: " + error.value)
    ensures !Truthy(error) && !Truthy(authCode) ==> r == Err("No authorization code received")
    ensures !Truthy(error) && Truthy(authCode) && state != expected ==> r == Err("State mismatch - possible CSRF attack")
    ensures r.Ok? <==> !Truthy(error) && Truthy(authCode) && state == expected
    ensures r.Ok? ==> r.value == authCode.value
  {
    if Truthy(error) then Err("Authorization failed: " + error.value)
    else if !Truthy(authCode) then Err("No authorization code received")
    else if state != expected then Err("State mismatch - possible CSRF attack")
    else Ok(authCode.value)
  }

  /** `OAuthClient`: the state token of the last authorization URL. */
  class OAuthClient {
    const encryption: TokenEncryption
    var state: Option<string>

    constructor(encryption: TokenEncryption)
      ensures this.encryption == encryption && state.None?
    {
      this.encryption := encryption;
      state := None;
    }

    /** `get_authorization_url`: a fresh state token is remembered and sent with the request
        (`stateToken` is the value `secrets.token_urlsafe` produced, `urlFor` the provider's
        URL builder). */
    method GetAuthorizationUrl(stateToken: string, urlFor: string -> string) returns (url: string)
      modifies this`state
      ensures state == Some(stateToken)
      ensures url == urlFor(stateToken)
    {
      state := Some(stateToken);
      url := urlFor(stateToken);
    }

    /** `authorize`: the callback server is started, the authorization URL issued, the
        callback (None when none arrives before the time-out) captured and checked, the code
        exchanged, and the server stopped whatever the outcome. */
    method Authorize(server: CallbackServer, stateToken: string, urlFor: string -> string,
                     callback: Option<map<string, seq<string>>>, exchange: (string, Option<string>) -> Grant,
                     now: Instant) returns (r: Result<OAuthResult, string>)
      requires callback.Some? ==> forall k :: k in callback.value ==> callback.value[k] != []
      modifies this`state, server
      ensures state == Some(stateToken)
      ensures !server.listening
      ensures var p := if callback.Some? then callback.value else map[];
              && server.authCode == FirstValue(p, "code") && server.realmId == FirstValue(p, "realmId")
              && server.state == FirstValue(p, "state") && server.error == FirstValue(p, "error")
              && r == AuthorizeOutcome(p, stateToken, exchange, now)
    {
      server.Start();
      var url := GetAuthorizationUrl(stateToken, urlFor);
      if callback.Some? {
        server.HandleRequest(callback.value);
      }
      var checked := CallbackCheck(server.error, server.authCode, server.state, state);
      if checked.Err? {
        r := Err(checked.error);
      } else {
        r := Ok(ExchangeCode(exchange(checked.value, server.realmId), server.realmId, now));
      }
      server.Stop();
    }
  }

  /** What `authorize` returns for the callback parameters `p` (empty when no callback came). */
  function AuthorizeOutcome(p: map<string, seq<string>>, stateToken: string, exchange: (string, Option<string>) -> Grant,
                            now: Instant): (r: Result<OAuthResult, string>)
    requires forall k :: k in p ==> p[k] != []
    ensures r.Ok? <==> CallbackCheck(FirstValue(p, "error"), FirstValue(p, "code"), FirstValue(p, "state"), Some(stateToken)).Ok?
  {
    match CallbackCheck(FirstValue(p, "error"), FirstValue(p, "code"), FirstValue(p, "state"), Some(stateToken))
    case Err(e) => Err(e)
    case Ok(code) => Ok(ExchangeCode(exchange(code, FirstValue(p, "realmId")), FirstValue(p, "realmId"), now))
  }

  /** The code is exchanged only for a callback that reports no error, carries a code and
      returns the state sent; the tokens are then for the callback's company, or "" without
      one. With no callback the flow fails for lack of a code. */
  lemma AuthorizeExchangesOnlyChecked(p: map<string, seq<string>>, stateToken: string,
                                      exchange: (string, Option<string>) -> Grant, now: Instant)
    requires forall k :: k in p ==> p[k] != []
    ensures AuthorizeOutcome(p, stateToken, exchange, now).Ok? ==>
              !Truthy(FirstValue(p, "error")) && "code" in p && p["code"][0] != ""
              && "state" in p && p["state"][0] == stateToken
              && AuthorizeOutcome(p, stateToken, exchange, now).value.realmId == OrEmpty(FirstValue(p, "realmId"))
    ensures AuthorizeOutcome(map[], stateToken, exchange, now) == Err("No authorization code received")
  {
  }
}
