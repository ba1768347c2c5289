/** The login page of the client: a form of named fields, an error message and
    a loading flag. Submitting sends the credentials; the outcome of that
    request is an input. A reply with a token and a username signs the visitor
    in through the session store and goes to the home page; anything else shows
    a message picked from what went wrong. */
module LoginPage {
  import opened Common
  import opened Ledger
  import Auth

  const UsernameField: string := "username"
  const PasswordField: string := "password"

  const InvalidResponse: string := "Invalid response from server. Please try again."
  const CannotConnect: string := "Cannot connect to backend server. Please check if backend is running."
  const LoginFailed: string := "Login failed. Please try again."

  /** The message for a server reply that carries neither `error` nor `detail`. */
  function StatusMessage(status: int): (m: string)
    ensures StartsWith(m, "Login failed (") && EndsWith(m, "). Please check your credentials.")
    ensures |m| == |"Login failed ("| + |Auth.IntString(status)| + |"). Please check your credentials."|
    ensures m[|"Login failed ("|..|m| - |"). Please check your credentials."|] == Auth.IntString(status)
  {
    var m := "Login failed (" + Auth.IntString(status) + "). Please check your credentials.";
    assert m[..|"Login failed ("|] == "Login failed (";
    m
  }

  /** The body of a successful reply, as far as the page reads it; a field the
      JSON lacks is `None`. */
  datatype Reply = Reply(token: Option<string>, username: Option<string>, userId: int)

  /** A server reply with an error status: its status and the `error` and
      `detail` fields of its body, each absent when the body lacks it. */
  datatype ErrorReply = ErrorReply(status: int, error: Option<string>, detail: Option<string>)

  /** What axios rejected with: the server's reply if one came, whether a
      request went out at all, and the error's own message. */
  datatype Failure = Failure(response: Option<ErrorReply>, request: bool, message: Option<string>)

  /** How `loginUser` settled. */
  datatype Outcome = Answered(reply: Reply) | Rejected(failure: Failure)

  /** The error message the `catch` block shows, in its priority order: the
      server's `error`, its `detail`, a message naming the status; with no
      reply but a request, the connection message; otherwise the error's own
      message or a default. */
  function ErrorMessage(f: Failure): (m: string)
    ensures f.response.Some? && Present(f.response.value.error) ==> m == f.response.value.error.value
    ensures f.response.Some? && !Present(f.response.value.error) && Present(f.response.value.detail) ==>
              m == f.response.value.detail.value
    ensures f.response.Some? && !Present(f.response.value.error) && !Present(f.response.value.detail) ==>
              m == StatusMessage(f.response.value.status)
    ensures f.response.None? && f.request ==> m == CannotConnect
    ensures f.response.None? && !f.request ==> m == if Present(f.message) then f.message.value else LoginFailed
  {
    match f.response
    case Some(reply) =>
      if Present(reply.error) then reply.error.value
      else if Present(reply.detail) then reply.detail.value
      else StatusMessage(reply.status)
    case None =>
      if f.request then CannotConnect
      else if Present(f.message) then f.message.value
      else LoginFailed
  }

  /** Whatever went wrong, the page shows a message: the error box is never empty. */
  lemma ErrorMessageShown(f: Failure)
    ensures ErrorMessage(f) != ""
  {
  }

  /** A reply signs the visitor in only when both its token and its username are truthy. */
  predicate Accepted(reply: Reply) {
    Present(reply.token) && Present(reply.username)
  }

  /** The page's state: the form fields, the error shown, the loading flag,
      where it navigated, and the session store it signs in through. */
  datatype Page = Page(form: map<string, string>, error: string, loading: bool,
                       location: Option<string>, session: Auth.AuthState)

  /** The first render: both fields empty, no error, not loading. */
  function Initial(session: Auth.AuthState): (p: Page)
    ensures p.form.Keys == {UsernameField, PasswordField}
    ensures p.form[UsernameField] == "" && p.form[PasswordField] == ""
    ensures p.error == "" && !p.loading && p.location.None? && p.session == session
  {
    Page(map[UsernameField := "", PasswordField := ""], "", false, None, session)
  }

  /** `handleChange`: the field the input names takes the typed value, every
      other field keeps its value, and the error is cleared. */
  function Change(p: Page, name: string, value: string): (r: Page)
    ensures r.form.Keys == p.form.Keys + {name} && r.form[name] == value
    ensures forall k :: k in p.form && k != name ==> r.form[k] == p.form[k]
    ensures r.error == "" && r.loading == p.loading && r.location == p.location && r.session == p.session
  {
    p.(form := p.form[name := value], error := "")
  }

  /** `handleSubmit` once the request has settled: an accepted reply calls
      `login` and goes home, any other reply shows the invalid-response
      message, a rejection shows the message for it; loading is over in every
      case. */
  function Submit(p: Page, outcome: Outcome): (r: Page)
    ensures r.form == p.form && !r.loading
    ensures r.session != p.session || r.location != p.location ==> outcome.Answered? && Accepted(outcome.reply)
    ensures outcome.Answered? && Accepted(outcome.reply) ==>
              && r.error == "" && r.location == Some("/")
              && r.session == Auth.AfterLogin(p.session, outcome.reply.token.value, outcome.reply.username.value,
                                              outcome.reply.userId)
    ensures outcome.Answered? && !Accepted(outcome.reply) ==> r.error == InvalidResponse
    ensures outcome.Rejected? ==> r.error == ErrorMessage(outcome.failure)
  {
    var p := p.(error := "", loading := true);
    match outcome
    case Answered(reply) =>
      if Accepted(reply) then
        p.(session := Auth.AfterLogin(p.session, reply.token.value, reply.username.value, reply.userId),
           location := Some("/"), loading := false)
      else p.(error := InvalidResponse, loading := false)
    case Rejected(f) => p.(error := ErrorMessage(f), loading := false)
  }

  /** A submit shows an error exactly when it did not sign the visitor in. */
  lemma SubmitErrorIffNotSignedIn(p: Page, outcome: Outcome)
    ensures Submit(p, outcome).error != "" <==> !(outcome.Answered? && Accepted(outcome.reply))
  {
    if outcome.Rejected? {
      ErrorMessageShown(outcome.failure);
    }
  }

  /** The backend's own replies, read by the page: a successful login with a
      token signs in as the user the backend named, with the id it sent; a
      refusal shows the backend's message. */
  lemma BackendRepliesUnderstood(p: Page, username: Option<string>, password: Option<string>,
                                 authenticated: Option<Account>)
    requires authenticated.Some? ==> authenticated.value.token != "" && Some(authenticated.value.username) == username
    ensures var reply := LoginUser(username, password, authenticated);
            && (reply.LoginOk? ==>
                  Submit(p, Answered(Reply(Some(reply.token), Some(reply.username), reply.userId))).session
                    == Auth.AfterLogin(p.session, authenticated.value.token, authenticated.value.username,
                                       authenticated.value.id))
            && (reply.LoginRefused? ==>
                  Submit(p, Rejected(Failure(Some(ErrorReply(reply.status, Some(reply.error), None)), true, None))).error
                    == reply.error)
  {
  }

  /** The page as a stateful component over the session store it shares. */
  class LoginScreen {
    var form: map<string, string>
    var error: string
    var loading: bool
    var location: Option<string>
    const auth: Auth.AuthProvider

    function State(): Page
      reads this, auth
    {
      Page(form, error, loading, location, auth.State())
    }

    constructor (auth0: Auth.AuthProvider)
      ensures State() == Initial(auth0.State())
    {
      form := map[UsernameField := "", PasswordField := ""];
      error, loading, location := "", false, None;
      auth := auth0;
    }

    method HandleChange(name: string, value: string)
      modifies this
      ensures State() == Change(old(State()), name, value)
    {
      form := form[name := value];
      error := "";
    }

    method HandleSubmit(outcome: Outcome)
      modifies this, auth
      ensures State() == Submit(old(State()), outcome)
    {
      error := "";
      loading := true;
      match outcome {
        case Answered(reply) =>
          if Present(reply.token) && Present(reply.username) {
            auth.Login(reply.token.value, reply.username.value, reply.userId);
            location := Some("/");
          } else {
            error := InvalidResponse;
          }
        case Rejected(f) =>
          error := ErrorMessage(f);
      }
      loading := false;
    }
  }
}
