/**
 * The authentication client: the two form validators, the header merge
 * and guards of authenticated requests, and the `authState` record that
 * `checkAuthentication`, `login` and `logout` update.
 */
module Auth {
  import opened Wrappers
  import opened Lists

  const EmailError := "Veuillez entrer une adresse email valide"
  const UsernameError := "Le nom d'utilisateur doit contenir au moins 3 caractères"
  const PasswordError := "Le mot de passe doit contenir au moins 6 caractères"
  const MismatchError := "Les mots de passe ne correspondent pas"

  const LoginRefused := "Identifiants incorrects"
  const NotAuthenticated := "Non authentifié"
  const SessionExpired := "Session expirée"

  /** The part of a server's user record the client keeps. */
  datatype User = User(id: int, username: string, email: string)

  /**
   * A form field as the validators receive it: `None` is `undefined` or
   * `null`, and `Some("")` is the empty string, which is falsy too.
   */
  type Field = Option<string>

  datatype Validation = Validation(isValid: bool, errors: seq<string>)

  predicate EmailOk(email: Field) {
    email.Some? && '@' in email.value
  }

  predicate UsernameOk(username: Field) {
    username.Some? && |username.value| >= 3
  }

  predicate PasswordOk(password: Field) {
    password.Some? && |password.value| >= 6
  }

  /** The four form messages differ from one another. */
  lemma MessagesDistinct()
    ensures EmailError != UsernameError && EmailError != PasswordError && EmailError != MismatchError
    ensures UsernameError != PasswordError && UsernameError != MismatchError && PasswordError != MismatchError
  {
    assert |EmailError| == 40 && |UsernameError| == 56 && |PasswordError| == 51 && |MismatchError| == 38;
  }

  /** `validateLoginForm(email, password)`. */
  function ValidateLoginForm(email: Field, password: Field): (r: Validation)
    ensures r.isValid <==> r.errors == []
    ensures r.isValid <==> EmailOk(email) && PasswordOk(password)
    ensures EmailError in r.errors <==> !EmailOk(email)
    ensures PasswordError in r.errors <==> !PasswordOk(password)
    ensures forall e :: e in r.errors ==> e == EmailError || e == PasswordError
    ensures NoDup(r.errors)
    ensures !EmailOk(email) ==> r.errors[0] == EmailError
  {
    MessagesDistinct();
    var errors :=
      (if !EmailOk(email) then [EmailError] else []) +
      (if !PasswordOk(password) then [PasswordError] else []);
    Validation(|errors| == 0, errors)
  }

  /** Where each register-form message sits in the fixed order of the checks. */
  function CheckRank(e: string): nat {
    if e == EmailError then 0
    else if e == UsernameError then 1
    else if e == PasswordError then 2
    else 3
  }

  /** The register form's checks, each pushing its message when it fails. */
  function RegisterErrors(email: Field, username: Field, password: Field, confirmPassword: Field): seq<string> {
    (if !EmailOk(email) then [EmailError] else []) +
    ((if !UsernameOk(username) then [UsernameError] else []) +
     ((if !PasswordOk(password) then [PasswordError] else []) +
      (if password != confirmPassword then [MismatchError] else [])))
  }

  /** `validateRegisterForm(email, username, password, confirmPassword)`. */
  function ValidateRegisterForm(email: Field, username: Field, password: Field, confirmPassword: Field): (r: Validation)
    ensures r.isValid <==> r.errors == []
    ensures r.isValid <==> EmailOk(email) && UsernameOk(username) && PasswordOk(password) && password == confirmPassword
    ensures EmailError in r.errors <==> !EmailOk(email)
    ensures UsernameError in r.errors <==> !UsernameOk(username)
    ensures PasswordError in r.errors <==> !PasswordOk(password)
    ensures MismatchError in r.errors <==> password != confirmPassword
    ensures forall e :: e in r.errors ==> e in [EmailError, UsernameError, PasswordError, MismatchError]
    ensures |r.errors| <= 4
  {
    MessagesDistinct();
    var errors := RegisterErrors(email, username, password, confirmPassword);
    Validation(|errors| == 0, errors)
  }

  predicate RankOrdered(errors: seq<string>) {
    forall i, j :: 0 <= i < j < |errors| ==> CheckRank(errors[i]) < CheckRank(errors[j])
  }

  /** The register form reports its errors in the order email, username, password, confirmation. */
  lemma RegisterErrorsOrdered(email: Field, username: Field, password: Field, confirmPassword: Field)
    ensures RankOrdered(ValidateRegisterForm(email, username, password, confirmPassword).errors)
  {
    MessagesDistinct();
    var a := if !EmailOk(email) then [EmailError] else [];
    var b := if !UsernameOk(username) then [UsernameError] else [];
    var c := if !PasswordOk(password) then [PasswordError] else [];
    var d := if password != confirmPassword then [MismatchError] else [];
    PrependRanked(c, d, 2);
    PrependRanked(b, c + d, 1);
    PrependRanked(a, b + (c + d), 0);
  }

  lemma PrependRanked(head: seq<string>, tail: seq<string>, rank: nat)
    requires |head| <= 1 && forall e :: e in head ==> CheckRank(e) == rank
    requires forall e :: e in tail ==> CheckRank(e) > rank
    requires RankOrdered(tail)
    ensures RankOrdered(head + tail)
  {
    var s := head + tail;
    forall i, j | 0 <= i < j < |s|
      ensures CheckRank(s[i]) < CheckRank(s[j])
    {
      if i < |head| {
        assert s[j] == tail[j - |head|];
      } else {
        assert s[i] == tail[i - |head|] && s[j] == tail[j - |head|];
      }
    }
  }

  /**
   * Once the username is long enough and the confirmation repeats the
   * password, the register form reports exactly what the login form does.
   */
  lemma RegisterAgreesWithLogin(email: Field, username: Field, password: Field)
    requires UsernameOk(username)
    ensures ValidateRegisterForm(email, username, password, password) == ValidateLoginForm(email, password)
  {
  }

  /** A JSON value, as `JSON.stringify` receives it. */
  datatype Json = JNull | JInt(n: int) | JString(text: string) | JObject(members: seq<(string, Json)>)

  /**
   * A request's options: the headers object, the body (kept as the value
   * given to `JSON.stringify`), and every other field (`method`, ...).
   */
  datatype Options = Options(fields: map<string, string>, body: Option<Json>, headers: Option<map<string, string>>)

  /** What spreading `options.headers` contributes: nothing when it is absent. */
  function CallerHeaders(options: Options): map<string, string> {
    if options.headers.Some? then options.headers.value else map[]
  }

  function DefaultHeaders(token: string): map<string, string> {
    map["Authorization" := "Bearer " + token, "Content-Type" := "application/json"]
  }

  /** `{...defaultOptions.headers, ...options.headers}`: the caller's value wins for a name both give. */
  function FinalHeaders(token: string, caller: map<string, string>): (h: map<string, string>)
    ensures forall k :: k in h <==> k in caller || k == "Authorization" || k == "Content-Type"
    ensures forall k :: k in caller ==> h[k] == caller[k]
    ensures "Authorization" !in caller ==> h["Authorization"] == "Bearer " + token
    ensures "Content-Type" !in caller ==> h["Content-Type"] == "application/json"
  {
    DefaultHeaders(token) + caller
  }

  /**
   * `{...defaultOptions, ...options, headers: {...}}`: every field the
   * caller gives is kept, and the merged headers replace whatever headers
   * object either side had.
   */
  function FinalOptions(token: string, options: Options): (r: Options)
    ensures r.fields == options.fields && r.body == options.body
    ensures r.headers.Some?
    ensures "Authorization" in r.headers.value && "Content-Type" in r.headers.value
    ensures forall k :: k in CallerHeaders(options) ==> k in r.headers.value && r.headers.value[k] == CallerHeaders(options)[k]
    ensures "Authorization" !in CallerHeaders(options) ==> r.headers.value["Authorization"] == "Bearer " + token
    ensures "Content-Type" !in CallerHeaders(options) ==> r.headers.value["Content-Type"] == "application/json"
    ensures r.headers == Some(FinalHeaders(token, CallerHeaders(options)))
  {
    Options(options.fields, options.body, Some(FinalHeaders(token, CallerHeaders(options))))
  }

  /** Without caller headers, the request carries exactly the two default headers. */
  lemma NoCallerHeadersMeansDefaults(token: string, options: Options)
    requires options.headers == None
    ensures FinalOptions(token, options).headers == Some(DefaultHeaders(token))
  {
    var h := FinalOptions(token, options).headers.value;
    assert CallerHeaders(options) == map[];
    assert h.Keys == DefaultHeaders(token).Keys;
    assert forall k :: k in h ==> h[k] == DefaultHeaders(token)[k];
    assert h == DefaultHeaders(token);
  }

  /** A caller header is never lost, and a default is overridden only by a header of the same name. */
  lemma MergeKeepsBoth(token: string, options: Options, name: string)
    requires name in CallerHeaders(options) || name in DefaultHeaders(token)
    ensures name in FinalOptions(token, options).headers.value
    ensures name !in CallerHeaders(options) ==> FinalOptions(token, options).headers.value[name] == DefaultHeaders(token)[name]
  {
  }

  datatype Response = Response(status: int, body: string) {
    /** `response.ok`. */
    predicate Ok() {
      200 <= status <= 299
    }
  }

  /** What `fetchWithAuth` settles to: a thrown error, the network's own failure, or the response. */
  datatype FetchOutcome = Rejected(message: string) | NetworkFailed | Returned(response: Response)

  datatype Request = Request(url: string, options: Options)

  /** Whether `fetchWithAuth` ends the session: a 401 whose logout dialog is confirmed. */
  predicate LogsOut(hasToken: bool, answer: Option<Response>, confirmLogout: bool) {
    hasToken && answer.Some? && answer.value.status == 401 && confirmLogout
  }

  /**
   * How `fetchWithAuth` settles, given whether a token is present and what
   * the network answers (`None` when `fetch` itself rejects).
   */
  function Fetched(hasToken: bool, answer: Option<Response>): FetchOutcome {
    if !hasToken then Rejected(NotAuthenticated)
    else match answer
      case None => NetworkFailed
      case Some(response) => if response.status == 401 then Rejected(SessionExpired) else Returned(response)
  }

  /** How the server answers `POST /auth/login`. */
  datatype LoginAnswer =
    | Accepted(token: string, user: User)
    | Refused(serverMessage: Option<string>)  // not ok, with the body's `message` if any
    | Unreachable(reason: string)             // fetch or JSON decoding threw

  /**
   * `authState` together with the two storage entries it writes,
   * `authToken` and `userData`, and the requests `fetchWithAuth` has sent.
   */
  class AuthState {
    var isAuthenticated: bool
    var currentUser: Option<User>
    var token: Option<string>
    var storedToken: Option<string>
    var storedUser: Option<User>
    var sent: seq<Request>

    /** The page loads with the stored token and no user yet. */
    constructor (storedToken: Option<string>, storedUser: Option<User>)
      ensures !isAuthenticated && currentUser == None && token == storedToken
      ensures this.storedToken == storedToken && this.storedUser == storedUser && sent == []
    {
      isAuthenticated := false;
      currentUser := None;
      token := storedToken;
      this.storedToken := storedToken;
      this.storedUser := storedUser;
      sent := [];
    }

    /** `!authState.token` is false: a token is present and not the empty string. */
    predicate HasToken()
      reads this
    {
      token.Some? && token.value != ""
    }

    /** `checkAuthentication()` with the answer of `GET /auth/verify`. */
    method CheckAuthentication(reply: Reply<User>)
      modifies this
      ensures !old(HasToken()) ==> unchanged(this)
      ensures old(HasToken()) && reply.Ok? ==>
        isAuthenticated && currentUser == Some(reply.payload) && token == old(token) && storedToken == old(storedToken)
      ensures old(HasToken()) && !reply.Ok? ==>
        token == None && storedToken == None && isAuthenticated == old(isAuthenticated) && currentUser == old(currentUser)
      ensures storedUser == old(storedUser) && sent == old(sent)
    {
      if !HasToken() {
        return;
      }
      match reply {
        case Ok(user) =>
          isAuthenticated := true;
          currentUser := Some(user);
        case _ =>
          storedToken := None;
          token := None;
      }
    }

    /** `login(email, password)`: returns `success` and, on failure, the message shown. */
    method Login(answer: LoginAnswer) returns (success: bool, error: Option<string>)
      modifies this
      ensures success <==> answer.Accepted?
      ensures answer.Accepted? ==>
        token == Some(answer.token) && isAuthenticated && currentUser == Some(answer.user) &&
        storedToken == Some(answer.token) && storedUser == Some(answer.user) && error == None
      ensures !answer.Accepted? ==> unchanged(this)
      ensures answer.Refused? ==>
        error == Some(if answer.serverMessage.Some? && answer.serverMessage.value != "" then answer.serverMessage.value else LoginRefused)
      ensures answer.Unreachable? ==> error == Some(answer.reason)
      ensures sent == old(sent)
    {
      match answer {
        case Accepted(t, user) =>
          token := Some(t);
          isAuthenticated := true;
          currentUser := Some(user);
          storedToken := Some(t);
          storedUser := Some(user);
          success, error := true, None;
        case Refused(serverMessage) =>
          var shown := if serverMessage.Some? && serverMessage.value != "" then serverMessage.value else LoginRefused;
          success, error := false, Some(shown);
        case Unreachable(reason) =>
          success, error := false, Some(reason);
      }
    }

    /** `logout()`, with the answer to its confirmation dialog. */
    method Logout(confirmed: bool)
      modifies this
      ensures !confirmed ==> unchanged(this)
      ensures confirmed ==>
        !isAuthenticated && currentUser == None && token == None && storedToken == None && storedUser == None
      ensures sent == old(sent)
    {
      if !confirmed {
        return;
      }
      isAuthenticated := false;
      currentUser := None;
      token := None;
      storedToken := None;
      storedUser := None;
    }

    /**
     * `fetchWithAuth(url, options)`. `answer` is what the network gives
     * back (`None` when `fetch` itself rejects), and `confirmLogout` the
     * answer to the dialog `logout` opens on a 401.
     */
    method FetchWithAuth(url: string, options: Options, answer: Option<Response>, confirmLogout: bool)
      returns (outcome: FetchOutcome)
      modifies this
      ensures !old(HasToken()) ==> outcome == Rejected(NotAuthenticated) && unchanged(this)
      ensures old(HasToken()) ==> sent == old(sent) + [Request(url, FinalOptions(old(token).value, options))]
      ensures outcome == Fetched(old(HasToken()), answer)
      ensures old(HasToken()) && answer == None ==> outcome == NetworkFailed
      ensures old(HasToken()) && answer.Some? && answer.value.status == 401 ==> outcome == Rejected(SessionExpired)
      ensures old(HasToken()) && answer.Some? && answer.value.status != 401 ==> outcome == Returned(answer.value)
      ensures LogsOut(old(HasToken()), answer, confirmLogout) ==>
        !isAuthenticated && token == None && currentUser == None && storedToken == None && storedUser == None
      ensures !LogsOut(old(HasToken()), answer, confirmLogout) ==>
        isAuthenticated == old(isAuthenticated) && token == old(token) && currentUser == old(currentUser) &&
        storedToken == old(storedToken) && storedUser == old(storedUser)
    {
      if !HasToken() {
        return Rejected(NotAuthenticated);
      }
      var finalOptions := FinalOptions(token.value, options);
      sent := sent + [Request(url, finalOptions)];
      match answer {
        case None =>
          outcome := NetworkFailed;
        case Some(response) =>
          if response.status == 401 {
            Logout(confirmLogout);
            outcome := Rejected(SessionExpired);
          } else {
            outcome := Returned(response);
          }
      }
    }
  }

  /** A login followed by a confirmed logout leaves nothing behind: no later request goes out. */
  method LoginThenLogout(t: string, user: User, url: string, options: Options, answer: Option<Response>)
    returns (loggedIn: bool, outcome: FetchOutcome, requests: nat)
    ensures loggedIn
    ensures outcome == Rejected(NotAuthenticated)
    ensures requests == 0
  {
    var auth := new AuthState(None, None);
    var success, _ := auth.Login(Accepted(t, user));
    loggedIn := auth.isAuthenticated;
    auth.Logout(true);
    outcome := auth.FetchWithAuth(url, options, answer, true);
    requests := |auth.sent|;
  }

  /**
   * A 401 whose logout dialog is declined still rejects with
   * `'Session expirée'`, yet the session stays as it was.
   */
  method ExpiredButDeclined(t: string, user: User, url: string, options: Options)
    returns (outcome: FetchOutcome, stillAuthenticated: bool, tokenKept: Option<string>)
    requires t != ""
    ensures outcome == Rejected(SessionExpired)
    ensures stillAuthenticated && tokenKept == Some(t)
  {
    var auth := new AuthState(None, None);
    var success, _ := auth.Login(Accepted(t, user));
    outcome := auth.FetchWithAuth(url, options, Some(Response(401, "")), false);
    stillAuthenticated := auth.isAuthenticated;
    tokenKept := auth.token;
  }

  /** A stored token the server rejects is dropped, and the page stays signed out. */
  method RejectedStoredToken(t: string, reply: Reply<User>)
    returns (authenticated: bool, stored: Option<string>)
    requires !reply.Ok?
    ensures !authenticated
    ensures t != "" ==> stored == None
    ensures t == "" ==> stored == Some("")
  {
    var auth := new AuthState(Some(t), None);
    auth.CheckAuthentication(reply);
    authenticated := auth.isAuthenticated;
    stored := auth.storedToken;
  }
}
