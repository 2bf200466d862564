/**
 * The `AuthProvider`'s actions `login`, `register` and `logout` as transitions
 * on the credential store and the signed-in user, and a session of such
 * actions interleaved with authenticated requests.
 */
module AuthContext {
  import opened Wrappers
  import opened Http
  import opened CredentialStore
  import opened JsText
  import ApiClient

  datatype User = User(uid: string, email: string, firstName: string, lastName: string, isVerified: bool)

  /** The credential store together with the React `user` state. */
  datatype AuthState = AuthState(store: Store, user: Option<User>)

  /** The login endpoint's JSON: the two tokens and the user, each possibly missing. */
  datatype LoginJson = LoginJson(accessToken: Option<string>, refreshToken: Option<string>, user: Option<User>)

  /** One action's effect: whether its promise resolved (false: it threw), the new state,
      the requests it sent and the toast it showed. */
  datatype Step = Step(resolved: bool, state: AuthState, sent: seq<Request>, toast: Toast)

  const LoginUrl: string := AuthBase + "/login"
  const RegisterUrl: string := AuthBase + "/register"
  const LogoutUrl: string := AuthBase + "/logout"

  function LoginRequest(email: string, password: string): Request {
    Request(LoginUrl, Options("POST", map[], Form(map["username" := email, "password" := password])))
  }

  /** A login reply that `login` accepts: ok status and a readable JSON object. */
  predicate LoginAccepted(reply: Reply<Option<LoginJson>>) {
    reply.Responded? && IsOk(reply.response.status) && reply.response.body.Some?
  }

  /** `login(email, password)`: on an accepted reply both tokens are written from the
      response and the user is set; otherwise it throws and nothing changes. */
  function Login(state: AuthState, email: string, password: string, reply: Reply<Option<LoginJson>>): (r: Step)
    ensures r.sent == [LoginRequest(email, password)]
    ensures r.resolved <==> LoginAccepted(reply)
    ensures !LoginAccepted(reply) ==> r.state == state && r.toast.destructive
    ensures LoginAccepted(reply) ==>
      var data := reply.response.body.value;
      && AccessKey in r.state.store && r.state.store[AccessKey] == JsString(data.accessToken)
      && RefreshKey in r.state.store && r.state.store[RefreshKey] == JsString(data.refreshToken)
      && r.state.user == data.user
      && !r.toast.destructive
    ensures Paired(r.state.store) || r.state == state
    ensures OnlyCredentialsChanged(state.store, r.state.store)
  {
    var sent := [LoginRequest(email, password)];
    if !LoginAccepted(reply) then
      Step(false, state, sent, Toast("Login failed", "Please check your credentials and try again.", true))
    else
      var data := reply.response.body.value;
      var store := state.store[AccessKey := JsString(data.accessToken)][RefreshKey := JsString(data.refreshToken)];
      Step(true, AuthState(store, data.user), sent, Toast("Login successful", "Welcome back!", false))
  }

  function RegisterRequest(email: string, password: string, firstName: string, lastName: string): Request {
    Request(RegisterUrl, Options("POST", map[ContentTypeHeader := ApplicationJson],
      Json(map["email" := email, "password" := password, "first_name" := firstName, "last_name" := lastName])))
  }

  /** `register(...)`: one POST; it resolves on an ok status and throws otherwise, and in
      neither case touches the store or the user. */
  function Register(state: AuthState, email: string, password: string, firstName: string, lastName: string,
                    reply: Reply<()>): (r: Step)
    ensures r.sent == [RegisterRequest(email, password, firstName, lastName)]
    ensures r.resolved <==> reply.Responded? && IsOk(reply.response.status)
    ensures r.state == state
    ensures r.toast.destructive <==> !r.resolved
  {
    var sent := [RegisterRequest(email, password, firstName, lastName)];
    if reply.Responded? && IsOk(reply.response.status) then
      Step(true, state, sent, Toast("Registration successful", "Please check your email to verify your account.", false))
    else
      Step(false, state, sent, Toast("Registration failed", "Please try again with different credentials.", true))
  }

  function LogoutRequest(refreshToken: string): Request {
    Request(LogoutUrl, Options("POST", map[ContentTypeHeader := ApplicationJson], Json(map[RefreshKey := refreshToken])))
  }

  /** `logout()`: tells the server only when the stored refresh token is truthy; whatever
      the server does (its reply is never read and a network error is swallowed) both
      tokens are removed, the user is cleared and the promise resolves. */
  function Logout(state: AuthState): (r: Step)
    ensures r.resolved
    ensures AccessKey !in r.state.store && RefreshKey !in r.state.store && r.state.user == None
    ensures OnlyCredentialsChanged(state.store, r.state.store)
    ensures |r.sent| <= 1
    ensures r.sent != [] <==> Truthy(Get(state.store, RefreshKey))
    ensures r.sent != [] ==> r.sent[0] == LogoutRequest(state.store[RefreshKey])
  {
    var stored := Get(state.store, RefreshKey);
    var sent := if Truthy(stored) then [LogoutRequest(stored.value)] else [];
    Step(true, AuthState(Clear(state.store), None), sent, Toast("Logged out", "You have been successfully logged out.", false))
  }

  /** Everything that can touch the credential store during a session. */
  datatype Action =
    | LoginAction(email: string, password: string, loginReply: Reply<Option<LoginJson>>)
    | RegisterAction(regEmail: string, regPassword: string, firstName: string, lastName: string, registerReply: Reply<()>)
    | LogoutAction
    | RequestAction(url: string, options: Options, script: ApiClient.Script)

  function Apply(state: AuthState, action: Action): AuthState {
    match action
    case LoginAction(email, password, reply) => Login(state, email, password, reply).state
    case RegisterAction(email, password, first, last, reply) => Register(state, email, password, first, last, reply).state
    case LogoutAction => Logout(state).state
    case RequestAction(url, options, script) => state.(store := ApiClient.FetchWithAuth(state.store, url, options, script).store)
  }

  function Run(state: AuthState, actions: seq<Action>): AuthState
    decreases |actions|
  {
    if actions == [] then state else Run(Apply(state, actions[0]), actions[1..])
  }

  /** One action keeps the two tokens paired and touches no other key. */
  lemma ApplyKeepsPaired(state: AuthState, action: Action)
    requires Paired(state.store)
    ensures Paired(Apply(state, action).store)
    ensures OnlyCredentialsChanged(state.store, Apply(state, action).store)
  {
    if action.RequestAction? {
      ApiClient.FetchKeepsPaired(state.store, action.url, action.options, action.script);
      ApiClient.AtMostOneRetry(state.store, action.url, action.options, action.script);
    }
  }

  /** Over any session, starting with both tokens or neither, every state has both or
      neither, and no other stored key ever changes. */
  lemma {:induction false} SessionKeepsPaired(state: AuthState, actions: seq<Action>)
    requires Paired(state.store)
    ensures Paired(Run(state, actions).store)
    ensures OnlyCredentialsChanged(state.store, Run(state, actions).store)
    decreases |actions|
  {
    if actions != [] {
      var next := Apply(state, actions[0]);
      ApplyKeepsPaired(state, actions[0]);
      SessionKeepsPaired(next, actions[1..]);
      OnlyCredentialsChangedTransitive(state.store, next.store, Run(next, actions[1..]).store);
    }
  }

  /** A session that ends with a logout ends signed out, whatever came before. */
  lemma {:induction false} LogoutEndsSession(state: AuthState, actions: seq<Action>)
    ensures var final := Run(state, actions + [LogoutAction]);
      AccessKey !in final.store && RefreshKey !in final.store && final.user == None
    decreases |actions|
  {
    if actions == [] {
      assert Run(state, [LogoutAction]) == Run(Logout(state).state, []);
    } else {
      assert (actions + [LogoutAction])[1..] == actions[1..] + [LogoutAction];
      LogoutEndsSession(Apply(state, actions[0]), actions[1..]);
    }
  }

  /** Pairing is about storage, not truthiness: a login reply whose access token is the
      empty string leaves both keys stored, yet only the refresh token is truthy. */
  lemma LoginCanPairAnEmptyAccessToken()
    ensures var reply := Responded(Response(200, Some(LoginJson(Some(""), Some("r"), None))));
      var r := Login(AuthState(map[], None), "e", "p", reply);
      && r.resolved
      && Paired(r.state.store)
      && !Truthy(Get(r.state.store, AccessKey))
      && Truthy(Get(r.state.store, RefreshKey))
  {
  }
}
