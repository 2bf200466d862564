/**
 * `createApiClient().fetchWithAuth` and `refreshToken`: the authenticated
 * transport. Each call is a pure function of the credential store and of the
 * scripted replies the network gives it; it returns the outcome, the new
 * store, the requests it sent in order, and whether it sent the browser to
 * `/login`.
 */
module ApiClient {
  import opened Wrappers
  import opened Http
  import opened CredentialStore
  import opened JsText

  /** The `detail.code` that marks an expired access token. */
  const TokenExpired: string := "token_expired"
  const RefreshUrl: string := AuthBase + "/refresh"

  /** What `response.json()` gives for a 401: not JSON at all, or JSON with an optional `detail.code`. */
  datatype ErrorJson = Unparsable | Parsed(detailCode: Option<string>)

  /** The refresh endpoint's JSON: `access_token` and `refresh_token`, each possibly missing. */
  datatype TokenJson = TokenJson(accessToken: Option<string>, refreshToken: Option<string>)

  /** Scripted network: the reply to the first request, to the refresh call and to the retry.
      Each is consumed at most once. A refresh body of None is one whose JSON cannot be read. */
  datatype Script = Script(first: Reply<ErrorJson>, refresh: Reply<Option<TokenJson>>, retry: Reply<ErrorJson>)

  /** One request on the wire, tagged with its destination: the caller's URL or the refresh endpoint. */
  datatype Sent = ToTarget(request: Request) | ToRefresh(request: Request)

  /** How a `fetchWithAuth` promise settles: with a response, or rejected. */
  datatype Outcome = Returned(response: Response<ErrorJson>) | Threw

  /** Result of `refreshToken`: the value it resolves to, the new store, what it sent. */
  datatype Refreshed = Refreshed(token: Option<string>, store: Store, sent: seq<Sent>)

  /** Result of `fetchWithAuth`; `redirect` is the assignment of `/login` to `window.location`. */
  datatype Call = Call(outcome: Outcome, store: Store, sent: seq<Sent>, redirect: bool)

  function Bearer(token: string): string {
    "Bearer " + token
  }

  /** Headers of the first attempt: JSON content type unless the body is a form, then the
      caller's headers, then the bearer token when it is truthy, later entries winning. */
  function MergeHeaders(options: Options, token: Option<string>): (h: Headers)
    ensures Truthy(token) ==> AuthorizationHeader in h && h[AuthorizationHeader] == Bearer(token.value)
    ensures !Truthy(token) ==> (AuthorizationHeader in h <==> AuthorizationHeader in options.headers)
    ensures forall k | k in options.headers && !(k == AuthorizationHeader && Truthy(token)) ::
      k in h && h[k] == options.headers[k]
    ensures ContentTypeHeader in h <==> !options.body.Form? || ContentTypeHeader in options.headers
    ensures !options.body.Form? && ContentTypeHeader !in options.headers ==> h[ContentTypeHeader] == ApplicationJson
    ensures forall k | k in h ::
      k in options.headers || k == ContentTypeHeader || (k == AuthorizationHeader && Truthy(token))
  {
    (if options.body.Form? then map[] else map[ContentTypeHeader := ApplicationJson])
    + options.headers
    + (if Truthy(token) then map[AuthorizationHeader := Bearer(token.value)] else map[])
  }

  /** The POST `refreshToken` sends, carrying the stored refresh token. */
  function RefreshRequest(refreshToken: string): Request {
    Request(RefreshUrl, Options("POST", map[ContentTypeHeader := ApplicationJson], Json(map[RefreshKey := refreshToken])))
  }

  /** A refresh reply that `refreshToken` accepts: ok status and a readable JSON body. */
  predicate RefreshAccepted(reply: Reply<Option<TokenJson>>) {
    reply.Responded? && IsOk(reply.response.status) && reply.response.body.Some?
  }

  /** `refreshToken()`: no truthy refresh token (absent or "") means no call and no change;
      an accepted reply rotates the access token (and the refresh token only when a new one
      came back); any other reply, or a network error, removes both tokens. */
  function Refresh(store: Store, reply: Reply<Option<TokenJson>>): (r: Refreshed)
    ensures !Truthy(Get(store, RefreshKey)) ==> r == Refreshed(None, store, [])
    ensures Truthy(Get(store, RefreshKey)) ==> r.sent == [ToRefresh(RefreshRequest(store[RefreshKey]))]
    ensures Truthy(Get(store, RefreshKey)) && !RefreshAccepted(reply) ==>
      r.token == None && AccessKey !in r.store && RefreshKey !in r.store
    ensures Truthy(Get(store, RefreshKey)) && RefreshAccepted(reply) ==>
      var data := reply.response.body.value;
      && r.token == data.accessToken
      && AccessKey in r.store && r.store[AccessKey] == JsString(data.accessToken)
      && RefreshKey in r.store
      && r.store[RefreshKey] == (if Truthy(data.refreshToken) then data.refreshToken.value else store[RefreshKey])
    ensures OnlyCredentialsChanged(store, r.store)
    ensures Truthy(Get(store, RefreshKey)) ==> Paired(r.store)
  {
    var stored := Get(store, RefreshKey);
    if !Truthy(stored) then Refreshed(None, store, [])
    else
      var sent := [ToRefresh(RefreshRequest(stored.value))];
      if !RefreshAccepted(reply) then Refreshed(None, Clear(store), sent)
      else
        var data := reply.response.body.value;
        var rotated := store[AccessKey := JsString(data.accessToken)];
        var stored' := if Truthy(data.refreshToken) then rotated[RefreshKey := data.refreshToken.value] else rotated;
        Refreshed(data.accessToken, stored', sent)
  }

  /** A first reply that `fetchWithAuth` hands back untouched: any response but a 401. */
  predicate PassesThrough(reply: Reply<ErrorJson>) {
    reply.Responded? && (IsOk(reply.response.status) || reply.response.status != 401)
  }

  /** A 401 whose body parses and says `detail.code == "token_expired"`. */
  predicate TokenExpiredReply(reply: Reply<ErrorJson>) {
    && reply.Responded?
    && !IsOk(reply.response.status) && reply.response.status == 401
    && reply.response.body == Parsed(Some(TokenExpired))
  }

  /** How a reply settles the promise that `fetch` returned. */
  function Settle(reply: Reply<ErrorJson>): Outcome {
    match reply
    case NetworkError => Threw
    case Responded(response) => Returned(response)
  }

  /** The first attempt: the caller's options with the merged headers. */
  function FirstRequest(store: Store, url: string, options: Options): Request {
    Request(url, options.(headers := MergeHeaders(options, Get(store, AccessKey))))
  }

  /** The retry: the first attempt's headers with `Authorization` replaced by the new token. */
  function RetryRequest(store: Store, url: string, options: Options, newToken: string): Request {
    var headers := MergeHeaders(options, Get(store, AccessKey));
    Request(url, options.(headers := headers[AuthorizationHeader := Bearer(newToken)]))
  }

  /** `fetchWithAuth(url, options)` against the scripted network. */
  function FetchWithAuth(store: Store, url: string, options: Options, script: Script): (c: Call)
    ensures |c.sent| >= 1 && c.sent[0] == ToTarget(FirstRequest(store, url, options))
    ensures script.first.NetworkError? ==> c == Call(Threw, store, c.sent[..1], false)
    ensures PassesThrough(script.first) ==> c == Call(Returned(script.first.response), store, c.sent[..1], false)
    ensures script.first.Responded? && script.first.response.status == 401 && !TokenExpiredReply(script.first) ==>
      c == Call(Returned(script.first.response), store, c.sent[..1], true)
    ensures TokenExpiredReply(script.first) ==>
      var rf := Refresh(store, script.refresh);
      && c.store == rf.store
      && c.sent[1..] == rf.sent + (if Truthy(rf.token) then [ToTarget(RetryRequest(store, url, options, rf.token.value))] else [])
      && c.outcome == (if Truthy(rf.token) then Settle(script.retry) else Returned(script.first.response))
      && c.redirect == !Truthy(rf.token)
  {
    var first := FirstRequest(store, url, options);
    match script.first
    case NetworkError => Call(Threw, store, [ToTarget(first)], false)
    case Responded(response) =>
      if IsOk(response.status) || response.status != 401 then
        Call(Returned(response), store, [ToTarget(first)], false)
      else if response.body.Parsed? && response.body.detailCode == Some(TokenExpired) then
        var rf := Refresh(store, script.refresh);
        if Truthy(rf.token) then
          var retry := RetryRequest(store, url, options, rf.token.value);
          Call(Settle(script.retry), rf.store, [ToTarget(first)] + rf.sent + [ToTarget(retry)], false)
        else
          Call(Returned(response), rf.store, [ToTarget(first)] + rf.sent, true)
      else
        Call(Returned(response), store, [ToTarget(first)], true)
  }

  function CountTargets(sent: seq<Sent>): nat {
    if sent == [] then 0 else (if sent[0].ToTarget? then 1 else 0) + CountTargets(sent[1..])
  }

  function CountRefreshes(sent: seq<Sent>): nat {
    if sent == [] then 0 else (if sent[0].ToRefresh? then 1 else 0) + CountRefreshes(sent[1..])
  }

  /** Per call: at most two requests to the caller's URL and at most one refresh; the
      only change to the store is the one the refresh made. */
  lemma AtMostOneRetry(store: Store, url: string, options: Options, script: Script)
    ensures var c := FetchWithAuth(store, url, options, script);
      && CountTargets(c.sent) <= 2
      && CountRefreshes(c.sent) <= 1
      && (c.store == store || c.store == Refresh(store, script.refresh).store)
      && OnlyCredentialsChanged(store, c.store)
  {
    var c := FetchWithAuth(store, url, options, script);
    var rf := Refresh(store, script.refresh);
    var first := ToTarget(FirstRequest(store, url, options));
    if TokenExpiredReply(script.first) && Truthy(rf.token) {
      var retry := ToTarget(RetryRequest(store, url, options, rf.token.value));
      assert c.sent == [first, rf.sent[0], retry];
      CountShape(first, rf.sent[0], retry);
    } else if TokenExpiredReply(script.first) && rf.sent != [] {
      assert c.sent == [first, rf.sent[0]];
      CountShapeUnrecovered(first, rf.sent[0]);
    } else {
      assert c.sent == [first];
    }
  }

  /** Counts of the longest exchange: request, refresh, retry. */
  lemma CountShape(a: Sent, b: Sent, d: Sent)
    requires a.ToTarget? && b.ToRefresh? && d.ToTarget?
    ensures CountTargets([a, b, d]) == 2 && CountRefreshes([a, b, d]) == 1
  {
    assert [d][1..] == [];
    assert CountTargets([d]) == 1 + CountTargets([]) == 1;
    assert CountRefreshes([d]) == 0 + CountRefreshes([]) == 0;
    assert [b, d][1..] == [d];
    assert CountTargets([b, d]) == 0 + CountTargets([d]);
    assert CountRefreshes([b, d]) == 1 + CountRefreshes([d]);
    assert [a, b, d][1..] == [b, d];
    assert CountTargets([a, b, d]) == 1 + CountTargets([b, d]);
    assert CountRefreshes([a, b, d]) == 0 + CountRefreshes([b, d]);
  }

  /** Counts of an exchange whose refresh brought no token: request, refresh. */
  lemma CountShapeUnrecovered(a: Sent, b: Sent)
    requires a.ToTarget? && b.ToRefresh?
    ensures CountTargets([a, b]) == 1 && CountRefreshes([a, b]) == 1
  {
    assert [b][1..] == [];
    assert CountTargets([b]) == 0 + CountTargets([]) == 0;
    assert CountRefreshes([b]) == 1 + CountRefreshes([]) == 1;
    assert [a, b][1..] == [b];
    assert CountTargets([a, b]) == 1 + CountTargets([b]);
    assert CountRefreshes([a, b]) == 0 + CountRefreshes([b]);
  }

  /** The retry is the first request again with only `Authorization` changed, to the new token. */
  lemma RetryDiffersOnlyInAuthorization(store: Store, url: string, options: Options, newToken: string)
    ensures var first := FirstRequest(store, url, options);
      var retry := RetryRequest(store, url, options, newToken);
      && retry.url == first.url
      && retry.options.verb == first.options.verb
      && retry.options.body == first.options.body
      && retry.options.headers.Keys == first.options.headers.Keys + {AuthorizationHeader}
      && retry.options.headers[AuthorizationHeader] == Bearer(newToken)
      && forall k | k in first.options.headers && k != AuthorizationHeader ::
           retry.options.headers[k] == first.options.headers[k]
  {
  }

  /** A retried request is returned as it comes back, even another expired-token 401:
      there is no second refresh. */
  lemma NoSecondRefresh(store: Store, url: string, options: Options, script: Script)
    requires TokenExpiredReply(script.first) && TokenExpiredReply(script.retry)
    requires Truthy(Refresh(store, script.refresh).token)
    ensures var c := FetchWithAuth(store, url, options, script);
      && c.outcome == Returned(script.retry.response)
      && !c.redirect
      && CountRefreshes(c.sent) == 1
  {
    var c := FetchWithAuth(store, url, options, script);
    var rf := Refresh(store, script.refresh);
    var retry := ToTarget(RetryRequest(store, url, options, rf.token.value));
    assert c.sent == [ToTarget(FirstRequest(store, url, options)), rf.sent[0], retry];
    CountShape(c.sent[0], rf.sent[0], retry);
  }

  /** The redirect to `/login` happens exactly on a 401 that is not recovered by a refresh,
      and then the original 401 is returned and the store is only what the refresh left. */
  lemma RedirectExactlyOnUnrecovered401(store: Store, url: string, options: Options, script: Script)
    ensures var c := FetchWithAuth(store, url, options, script);
      var recovered := TokenExpiredReply(script.first) && Truthy(Refresh(store, script.refresh).token);
      && (c.redirect <==> script.first.Responded? && script.first.response.status == 401 && !recovered)
      && (c.redirect ==>
            && c.outcome == Returned(script.first.response)
            && c.store == (if TokenExpiredReply(script.first) then Refresh(store, script.refresh).store else store))
  {
  }

  /** A refresh never breaks the pairing of the two tokens. */
  lemma FetchKeepsPaired(store: Store, url: string, options: Options, script: Script)
    requires Paired(store)
    ensures Paired(FetchWithAuth(store, url, options, script).store)
  {
  }

  /** A refresh accepted with an empty access token stores it: both keys stay stored, but
      the access token is not truthy and no retry follows. */
  lemma RefreshCanPairAnEmptyAccessToken()
    ensures var store := map[AccessKey := "a", RefreshKey := "r"];
      var reply := Responded(Response(200, Some(TokenJson(Some(""), None))));
      var rf := Refresh(store, reply);
      && Paired(rf.store)
      && !Truthy(Get(rf.store, AccessKey))
      && !Truthy(rf.token)
  {
  }

  /** With an access token but no refresh token stored, a refresh changes nothing, so a
      store that was not paired stays unpaired. */
  lemma RefreshWithoutRefreshTokenKeepsUnpaired()
    ensures var store := map[AccessKey := "a"];
      var rf := Refresh(store, NetworkError);
      && rf.store == store
      && !Paired(rf.store)
  {
  }

  /** A refresh token stored as the empty string is not truthy: no refresh is sent and the
      store, paired or not, is left as it was. */
  lemma RefreshWithEmptyRefreshTokenSendsNothing()
    ensures var store := map[RefreshKey := ""];
      var reply := Responded(Response(200, Some(TokenJson(Some("a"), None))));
      var rf := Refresh(store, reply);
      && rf.sent == []
      && rf.store == store
      && rf.token == None
      && !Paired(rf.store)
  {
  }
}
