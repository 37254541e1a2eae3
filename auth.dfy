/** The bearer-token cache of the client-credentials grant (section 4.4 of
    RFC 6749). The token endpoint's reply and the clock, in whole seconds,
    are parameters; the HTTP request itself is not modelled. */
module Auth {
  import opened Wrappers
  import opened Text
  import opened JsonValue
  import opened Config

  /** Lifetime assumed when the reply names none, in seconds. */
  const DefaultExpiresIn := 3600

  /** What the token request came back with: an HTTP error status, a
      transport failure, or a body, `None` when the body is not JSON. */
  datatype TokenReply =
    | StatusError(status: int, text: string)
    | RequestError(reason: string)
    | Body(data: Option<Json>)

  /** The exceptions `_fetch_token` lets escape: its own `AuthError`, and the
      decoding, attribute and type errors of a malformed reply. */
  datatype Raised =
    | AuthError(message: string)
    | DecodeError
    | AttributeError
    | TypeError

  /** The token manager's two fields. */
  datatype TokenState = TokenState(accessToken: Option<Json>, expiresAt: int)

  /** The cached token is usable at `now`: there is one, and `now` is more
      than `buffer` seconds before it expires. */
  predicate ValidAt(s: TokenState, buffer: int, now: int) {
    s.accessToken.Some? && now < s.expiresAt - buffer
  }

  /** `data.get("access_token")`; JSON `null` is Python's `None`. */
  function TokenOf(data: seq<(string, Json)>): (r: Option<Json>)
    ensures r.Some? ==> Get(data, "access_token") == Some(r.value) && r.value != JNull
    ensures r.None? ==> Get(data, "access_token") in {None, Some(JNull)}
  {
    match Get(data, "access_token")
    case None => None
    case Some(JNull) => None
    case Some(v) => Some(v)
  }

  /** `data.get("expires_in", 3600)` added to a number: an int as it is, a
      bool as 0 or 1; anything else is a `TypeError`. */
  function ExpiresIn(data: seq<(string, Json)>): (r: Option<int>)
    ensures Get(data, "expires_in").None? ==> r == Some(DefaultExpiresIn)
    ensures Get(data, "expires_in") == Some(JNull) ==> r.None?
  {
    match Get(data, "expires_in")
    case None => Some(DefaultExpiresIn)
    case Some(JNum(n)) => Some(n)
    case Some(JBool(b)) => Some(if b then 1 else 0)
    case Some(_) => None
  }

  /** The fields after `_fetch_token` at `now`, and what it raised. A failed
      request changes nothing; a reply is stored token first, so a reply
      whose token is missing or empty leaves that value in place and the
      expiry as it was. */
  function Refresh(s: TokenState, reply: TokenReply, now: int): (TokenState, Option<Raised>) {
    match reply
    case StatusError(status, text) =>
      (s, Some(AuthError("Authentication failed (HTTP " + IntToString(status) + "): " + text)))
    case RequestError(reason) =>
      (s, Some(AuthError("Authentication request failed: " + reason)))
    case Body(None) => (s, Some(DecodeError))
    case Body(Some(data)) =>
      if !data.JObj? then (s, Some(AttributeError))
      else
        var token := TokenOf(data.fields);
        var s1 := s.(accessToken := token);
        if token.None? || !Truthy(token.value) then
          (s1, Some(AuthError("Authentication response did not contain an access_token. Response: " + PyStr(data))))
        else
          match ExpiresIn(data.fields)
          case None => (s1, Some(TypeError))
          case Some(n) => (s1.(expiresAt := now + n), None)
  }

  /** A refresh that raises nothing leaves a non-empty token that expires
      the reply's lifetime after now; a reply without a lifetime gives an
      hour. */
  lemma RefreshSucceeds(s: TokenState, reply: TokenReply, now: int)
    requires Refresh(s, reply, now).1.None?
    ensures reply.Body? && reply.data.Some? && reply.data.value.JObj?
    ensures var (t, _) := Refresh(s, reply, now);
      var data := reply.data.value.fields;
      && t.accessToken == TokenOf(data) && t.accessToken.Some? && Truthy(t.accessToken.value)
      && ExpiresIn(data).Some? && t.expiresAt == now + ExpiresIn(data).value
      && (Get(data, "expires_in").None? ==> t.expiresAt == now + 3600)
  {
  }

  /** With the default lifetime and the default five-minute buffer, a fresh
      token is used for 3300 seconds and refreshed after that. */
  lemma DefaultLifetimeWithBuffer(s: TokenState, reply: TokenReply, now: int, later: int)
    requires Refresh(s, reply, now).1.None?
    requires Get(reply.data.value.fields, "expires_in").None?
    ensures ValidAt(Refresh(s, reply, now).0, DefaultTokenRefreshBufferSeconds, later) <==> later < now + 3300
  {
    RefreshSucceeds(s, reply, now);
  }

  /** A reply without a usable token is an `AuthError` and the expiry stays
      as it was; a failed request changes nothing at all. */
  lemma RefreshFailures(s: TokenState, reply: TokenReply, now: int)
    ensures reply.StatusError? || reply.RequestError? ==>
      Refresh(s, reply, now).0 == s && Refresh(s, reply, now).1.value.AuthError?
    ensures
      (&& reply.Body? && reply.data.Some? && reply.data.value.JObj?
       && (TokenOf(reply.data.value.fields).None? || !Truthy(TokenOf(reply.data.value.fields).value)))
      ==> Refresh(s, reply, now).1.value.AuthError? && Refresh(s, reply, now).0.expiresAt == s.expiresAt
  {
  }

  /** An empty token text counts as missing. */
  lemma EmptyTokenRejected(s: TokenState, now: int)
    ensures Refresh(s, Body(Some(JObj([("access_token", JStr(""))]))), now).1.value.AuthError?
  {
  }

  /** `TokenManager` */
  class TokenManager {
    const buffer: int
    var accessToken: Option<Json>
    var expiresAt: int

    function State(): TokenState
      reads this
    {
      TokenState(accessToken, expiresAt)
    }

    constructor (settings: Settings)
      ensures State() == TokenState(None, 0) && buffer == settings.tokenRefreshBufferSeconds
    {
      buffer := settings.tokenRefreshBufferSeconds;
      accessToken := None;
      expiresAt := 0;
    }

    /** `is_token_valid`; never true without a token. */
    predicate IsTokenValid(now: int)
      reads this
      ensures IsTokenValid(now) ==> accessToken.Some?
    {
      ValidAt(State(), buffer, now)
    }

    /** `_fetch_token` */
    method FetchToken(reply: TokenReply, now: int) returns (raised: Option<Raised>)
      modifies this
      ensures (State(), raised) == Refresh(old(State()), reply, now)
    {
      match reply
      case StatusError(status, text) =>
        raised := Some(AuthError("Authentication failed (HTTP " + IntToString(status) + "): " + text));
      case RequestError(reason) =>
        raised := Some(AuthError("Authentication request failed: " + reason));
      case Body(body) =>
        if body.None? {
          return Some(DecodeError);
        }
        var data := body.value;
        if !data.JObj? {
          return Some(AttributeError);
        }
        accessToken := TokenOf(data.fields);
        if accessToken.None? || !Truthy(accessToken.value) {
          return Some(AuthError("Authentication response did not contain an access_token. Response: " + PyStr(data)));
        }
        var expiresIn := ExpiresIn(data.fields);
        if expiresIn.None? {
          return Some(TypeError);
        }
        expiresAt := now + expiresIn.value;
        raised := None;
    }

    /** `get_token`: the cached token while it is valid, without a request;
        otherwise a refresh first. One `now` stands for both readings of the
        clock. */
    method GetToken(reply: TokenReply, now: int) returns (token: Option<Json>, raised: Option<Raised>)
      modifies this
      ensures old(IsTokenValid(now)) ==> token == old(accessToken) && raised.None? && State() == old(State())
      ensures !old(IsTokenValid(now)) ==>
        && (State(), raised) == Refresh(old(State()), reply, now)
        && (raised.None? ==> token == accessToken && Truthy(token.value))
      ensures raised.None? ==> token.Some?
    {
      if IsTokenValid(now) {
        return accessToken, None;
      }
      raised := FetchToken(reply, now);
      token := accessToken;
    }

    /** `invalidate`: forget the token, so that the next `get_token`
        refreshes. */
    method Invalidate()
      modifies this
      ensures State() == TokenState(None, 0)
      ensures forall now :: !IsTokenValid(now)
    {
      accessToken := None;
      expiresAt := 0;
    }
  }
}
