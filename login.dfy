/** The login screen: the checks on the two fields, the request, which replies count as a
    response (every status below 500) and how a failed request is explained to the user. */
module Login {
  import opened Text
  import opened Wire
  import opened Http
  import opened Validation

  const USERNAME_REQUIRED := "Username is required"
  const USERNAME_SHORT := "Username must be at least 3 characters long"
  const PASSWORD_REQUIRED := "Password is required"
  const PASSWORD_SHORT := "Password must be at least 6 characters long"
  const LOGIN_FAILED := "Login failed"
  const TIMEOUT := "Connection timeout. Please check your network and try again."
  const REFUSED := "Cannot connect to server. Please make sure the backend is running."
  const UNRESOLVED := "Network error. Please check your internet connection."
  const NO_DETAIL := "Network error. Please check your connection and backend server."

  datatype LoginForm = LoginForm(username: string, password: string)

  /** `handleLogin`'s checks, in order. */
  function LoginChecks(f: LoginForm): seq<Check> {
    [ Check(Trim(f.username) != "", USERNAME_REQUIRED),
      Check(|Trim(f.username)| >= 3, USERNAME_SHORT),
      Check(Trim(f.password) != "", PASSWORD_REQUIRED),
      Check(|f.password| >= 6, PASSWORD_SHORT) ]
  }

  /** The forms the screen sends: a username of three characters after trimming, and a
      password of six characters before trimming that is not blank. */
  predicate LoginAcceptable(f: LoginForm) {
    |Trim(f.username)| >= 3 && Trim(f.password) != "" && |f.password| >= 6
  }

  lemma LoginAcceptedIff(f: LoginForm)
    ensures FirstFailure(LoginChecks(f)) == None <==> LoginAcceptable(f)
  {
    var cs := LoginChecks(f);
    FirstFailureNone(cs);
    if FirstFailure(cs) == None {
      assert cs[1].passes && cs[2].passes && cs[3].passes;
    }
  }

  /** The JSON body posted to `/api/auth/login`: both fields trimmed. */
  datatype LoginRequest = LoginRequest(username: string, password: string)

  function LoginPayload(f: LoginForm): LoginRequest {
    LoginRequest(Trim(f.username), Trim(f.password))
  }

  /** The request's `validateStatus`: every status below 500 resolves. */
  predicate LoginAccepts(status: nat) {
    status < 500
  }

  /** The `catch` block's choice of message. */
  function ClassifyLoginError(err: AxiosError): string {
    if err.code == Some("ECONNABORTED") || Contains(err.message, "timeout") then TIMEOUT
    else if err.code == Some("ECONNREFUSED") then REFUSED
    else if err.code == Some("ENOTFOUND") || err.code == Some("EAI_AGAIN") then UNRESOLVED
    else if err.response.Some? && OrElse(MessageField(err.response.value), "") != "" then
      MessageField(err.response.value).value
    else if err.message != "" then "Connection error: " + err.message
    else NO_DETAIL
  }

  datatype LoginResult =
    | LoggedIn(user: Option<UserView>)   // `router.replace` to the forum with `JSON.stringify(user)`
    | Shown(message: string)             // the error line

  /** What the screen does once the request has settled. */
  function LoginOutcome(s: Settled): LoginResult {
    match s
    case Resolved(_, data) =>
      if SuccessField(data) == Some(true) then LoggedIn(UserField(data))
      else Shown(OrElse(MessageField(data), LOGIN_FAILED))
    case Thrown(err) => Shown(ClassifyLoginError(err))
  }

  /** Every failure is explained with a non-empty line. */
  lemma LoginFailureExplained(s: Settled)
    ensures LoginOutcome(s).Shown? ==> LoginOutcome(s).message != ""
    ensures LoginOutcome(s).LoggedIn? <==> s.Resolved? && SuccessField(s.data) == Some(true)
  {
  }

  /** A reply below 500 is never an exception: a body without `success: true` is explained by
      its own message or by "Login failed". */
  lemma ReplyBelow500(r: Reply)
    requires r.status < 500
    ensures var o := LoginOutcome(Settle(Delivered(r), LoginAccepts));
      && (o.LoggedIn? <==> SuccessField(r.body) == Some(true))
      && (o.Shown? ==> o.message == OrElse(MessageField(r.body), LOGIN_FAILED))
  {
  }

  /** A reply of 500 or more is thrown with a status message that mentions no timeout, so the
      user sees the server's message when it sent one and otherwise "Connection error: " and the
      status message. */
  lemma ReplyFrom500(r: Reply)
    requires r.status >= 500
    ensures var o := LoginOutcome(Settle(Delivered(r), LoginAccepts));
      && o.Shown?
      && (OrElse(MessageField(r.body), "") != "" ==> o.message == MessageField(r.body).value)
      && (OrElse(MessageField(r.body), "") == "" ==>
            o.message == "Connection error: " + StatusMessage(r.status))
  {
    var err := AxiosError(StatusErrorCode(r.status), StatusMessage(r.status), Some(r.body));
    assert Settle(Delivered(r), LoginAccepts) == Thrown(err);
    NoTimeoutInStatusMessage(r.status);
    StatusErrorClassified(err);
  }

  /** An error without a transport code and without "timeout" in its message is explained by
      the server's message, or else by its own. */
  lemma StatusErrorClassified(err: AxiosError)
    requires err.code == None || err.code == Some("ERR_BAD_RESPONSE")
    requires !Contains(err.message, "timeout") && err.message != ""
    requires err.response.Some?
    ensures OrElse(MessageField(err.response.value), "") != "" ==>
              ClassifyLoginError(err) == MessageField(err.response.value).value
    ensures OrElse(MessageField(err.response.value), "") == "" ==>
              ClassifyLoginError(err) == "Connection error: " + err.message
  {
  }

  /** "Request failed with status code N" never contains "timeout": it has no `m`. */
  lemma NoTimeoutInStatusMessage(status: nat)
    ensures !Contains(StatusMessage(status), "timeout") && StatusMessage(status) != ""
  {
    var prefix := "Request failed with status code ";
    var digits := NatToString(status);
    var m := prefix + digits;
    assert 'm' !in prefix;
    assert 'm' !in digits by {
      assert forall i :: 0 <= i < |digits| ==> IsDigit(digits[i]);
    }
    assert 'm' !in m by {
      assert forall i :: 0 <= i < |m| ==> m[i] == if i < |prefix| then prefix[i] else digits[i - |prefix|];
    }
    assert "timeout"[2] == 'm';
    CharAbsentNotContains(m, "timeout", 2);
  }

  /** A timeout is reported as one whatever else the error carries. */
  lemma TimeoutFirst(err: AxiosError)
    requires err.code == Some("ECONNABORTED")
    ensures ClassifyLoginError(err) == TIMEOUT
  {
  }

  /** The text inputs. */
  datatype Field = Username | Password

  class LoginScreen {
    var username: string
    var password: string
    var error: string
    var isLoading: bool

    function Form(): LoginForm
      reads this`username, this`password
    {
      LoginForm(username, password)
    }

    constructor()
      ensures Form() == LoginForm("", "") && error == "" && !isLoading
    {
      username, password, error, isLoading := "", "", "", false;
    }

    /** Typing stores the text; the error line is cleared only by text that is not blank. */
    method Edit(field: Field, text: string)
      modifies this`username, this`password, this`error
      ensures Form() == (match field
                         case Username => old(Form()).(username := text)
                         case Password => old(Form()).(password := text))
      ensures error == (if Trim(text) != "" then "" else old(error))
    {
      match field {
        case Username => username := text;
        case Password => password := text;
      }
      if error != "" && Trim(text) != "" {
        error := "";
      }
    }

    /** `handleLogin` up to the request: the first failing check is shown; a form that passes
        starts loading and yields the trimmed body to post. The button is disabled while
        loading. */
    method SubmitLogin() returns (request: Option<LoginRequest>)
      requires !isLoading
      modifies this`error, this`isLoading
      ensures request.Some? <==> LoginAcceptable(Form())
      ensures request.Some? ==> request.value == LoginPayload(Form())
      ensures isLoading <==> request.Some?
      ensures error == FirstFailure(LoginChecks(Form())).GetOr("")
    {
      var cs := LoginChecks(Form());
      LoginAcceptedIff(Form());
      error := "";
      if Trim(username) == "" {
        error := USERNAME_REQUIRED; FirstFailureAt(cs, 0); return None;
      }
      if |Trim(username)| < 3 {
        error := USERNAME_SHORT; FirstFailureAt(cs, 1); return None;
      }
      if Trim(password) == "" {
        error := PASSWORD_REQUIRED; FirstFailureAt(cs, 2); return None;
      }
      if |password| < 6 {
        error := PASSWORD_SHORT; FirstFailureAt(cs, 3); return None;
      }
      FirstFailureNone(cs);
      isLoading := true;
      request := Some(LoginPayload(Form()));
    }

    /** The rest of `handleLogin`: navigate or explain, then stop loading. */
    method CompleteLogin(d: Delivery) returns (result: LoginResult)
      modifies this`error, this`isLoading
      ensures result == LoginOutcome(Settle(d, LoginAccepts))
      ensures !isLoading
      ensures error == (if result.Shown? then result.message else old(error))
    {
      result := LoginOutcome(Settle(d, LoginAccepts));
      if result.Shown? {
        error := result.message;
      }
      isLoading := false;
    }
  }
}
