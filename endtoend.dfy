/** The screens and the backend together: what the backend makes of the bodies the screens
    post, and what the screens then show. */
module EndToEnd {
  import opened Text
  import opened Wire
  import opened Http
  import Backend
  import CreatePost
  import Login
  import Signup

  /** The create-post body as the route reads it: every key present, `cookingTime` `null`
      when `parseInt` gave `NaN`. */
  function CreateBodyOf(p: CreatePost.RecipeData): Backend.CreateBody {
    Backend.CreateBody(Some(p.title), Some(p.description), Some(p.ingredients),
                       Some(p.instructions), p.cookingTime, Some(p.difficulty),
                       Some(p.category), Some(p.author), Some(p.authorEmail))
  }

  /** What the create route answers before storing anything, or `None` when it stores. */
  function CreateRejection(p: CreatePost.RecipeData): Option<Reply> {
    match Backend.Admit(CreateBodyOf(p))
    case Rejected(reply) => Some(reply)
    case Accepted(_, _, _, _, _, _, _, _, _) => None
  }

  /** The one validation message the create route can produce for a difficulty in the enum. */
  const TITLE_ONLY_DETAILS := Backend.ValidationMessage([Backend.TITLE_REQUIRED])

  /** A blank title with a difficulty in the enum: the save fails on the title alone. */
  lemma BlankTitleRejection(b: Backend.CreateBody)
    requires !Backend.MissingRequired(b) && InEnum(Backend.RequestedDifficulty(b))
    requires Trim(b.title.value) == ""
    ensures Backend.Admit(b) == Backend.Rejected(Reply(500, Failure(Backend.POST_FAILED, TITLE_ONLY_DETAILS)))
  {
    assert Backend.SchemaErrors(b.title.value, Backend.RequestedDifficulty(b)) == [Backend.TITLE_REQUIRED];
  }

  /** That message does not name the difficulty: it has no `y`. */
  lemma TitleOnlyDetailsNoDifficulty()
    ensures !Contains(TITLE_ONLY_DETAILS, "difficulty")
  {
    TitleOnlyDetailsNoY();
    assert "difficulty"[9] == 'y';
    CharAbsentNotContains(TITLE_ONLY_DETAILS, "difficulty", 9);
  }

  /** Helper of `TitleOnlyDetailsNoDifficulty`: the message has no letter `y`, and the last
      letter of "difficulty" is `y`. */
  lemma TitleOnlyDetailsNoY()
    ensures 'y' !in TITLE_ONLY_DETAILS
  {
    var t := Backend.TITLE_REQUIRED;
    TitleRequiredNoY();
    NoYIn("Recipe validation failed: ");
    assert Backend.JoinErrors([t]) == t;
    assert TITLE_ONLY_DETAILS == "Recipe validation failed: " + t;
  }

  /** Helper of `TitleOnlyDetailsNoY`: the title's path error has no `y`. */
  lemma TitleRequiredNoY()
    ensures 'y' !in Backend.TITLE_REQUIRED
  {
    NoYIn("title: ");
    NoYIn("Path `title` is required.");
    assert Backend.TITLE_REQUIRED == "title: " + "Path `title` is required.";
  }

  /** Helper of the two above: each literal piece of the message has no `y`, checked one
      literal at a time. */
  lemma NoYIn(s: string)
    requires s == "Recipe validation failed: " || s == "title: " || s == "Path `title` is required."
    ensures 'y' !in s
  {
  }

  /** A body from a screen whose difficulty came from its buttons is never turned away for its
      difficulty: the only 500 it can get is for a blank title, and the screen then shows the
      route's error, not the difficulty alert. */
  lemma ScreenNeverGetsDifficultyError(f: CreatePost.PostForm)
    requires InEnum(f.difficulty)
    ensures var rej := CreateRejection(CreatePost.RecipePayload(f));
      && (rej.Some? && rej.value.status == 500 ==>
            rej.value == Reply(500, Failure(Backend.POST_FAILED, TITLE_ONLY_DETAILS)))
      && (rej.Some? ==>
            CreatePost.PostOutcome(Delivered(rej.value), f.difficulty).title != "Difficulty Error")
  {
    var b := CreateBodyOf(CreatePost.RecipePayload(f));
    assert Backend.RequestedDifficulty(b) == f.difficulty;
    EnumDifficultyRejection(b, f.difficulty);
  }

  /** A create body whose difficulty is in the enum is rejected with either the 400 or the
      title-only 500, and neither leads to the difficulty alert. */
  lemma EnumDifficultyRejection(b: Backend.CreateBody, difficulty: string)
    requires InEnum(Backend.RequestedDifficulty(b))
    ensures Backend.Admit(b).Rejected? && Backend.Admit(b).reply.status == 500 ==>
      Backend.Admit(b).reply == Reply(500, Failure(Backend.POST_FAILED, TITLE_ONLY_DETAILS))
    ensures Backend.Admit(b).Rejected? ==>
      CreatePost.PostOutcome(Delivered(Backend.Admit(b).reply), difficulty).title != "Difficulty Error"
  {
    if Backend.MissingRequired(b) {
      assert Backend.Admit(b) == Backend.Rejected(Reply(400, MissingFields(Backend.MISSING_FIELDS)));
    } else if Trim(b.title.value) == "" {
      BlankTitleRejection(b);
      TitleOnlyDetailsNoDifficulty();
    } else {
      assert Backend.Admit(b).Accepted?;
    }
  }

  /** A title of spaces passes the screen's check but not the schema's `trim` and `required`:
      the post fails with a 500 and the screen shows "Failed to post recipe". */
  lemma BlankTitleFailsOnServer(f: CreatePost.PostForm)
    requires InEnum(f.difficulty) && !CreatePost.MissingField(f) && AllSpaces(f.title)
    requires f.author != "" && f.authorEmail != ""
    requires ParseInt(f.cookingTime).Some? && ParseInt(f.cookingTime).value != 0
    requires FiniteNumber(ParseInt(f.cookingTime).value)
    ensures var rej := CreateRejection(CreatePost.RecipePayload(f));
      && rej == Some(Reply(500, Failure(Backend.POST_FAILED, TITLE_ONLY_DETAILS)))
      && CreatePost.PostOutcome(Delivered(rej.value), f.difficulty) == CreatePost.Alert("Error", CreatePost.POST_FAILED)
  {
    TrimEmptyIff(f.title);
    var b := CreateBodyOf(CreatePost.RecipePayload(f));
    assert b.cookingTime == ParseInt(f.cookingTime);
    assert !Backend.MissingRequired(b);
    assert Backend.RequestedDifficulty(b) == f.difficulty;
    BlankTitleShown(b, f.difficulty);
  }

  /** The title-only 500 is shown as the failed-post alert, whichever difficulty was chosen. */
  lemma BlankTitleShown(b: Backend.CreateBody, difficulty: string)
    requires !Backend.MissingRequired(b) && InEnum(Backend.RequestedDifficulty(b))
    requires Trim(b.title.value) == ""
    ensures Backend.Admit(b) == Backend.Rejected(Reply(500, Failure(Backend.POST_FAILED, TITLE_ONLY_DETAILS)))
    ensures CreatePost.PostOutcome(Delivered(Reply(500, Failure(Backend.POST_FAILED, TITLE_ONLY_DETAILS))), difficulty)
              == CreatePost.Alert("Error", CreatePost.POST_FAILED)
  {
    BlankTitleRejection(b);
    TitleOnlyDetailsNoDifficulty();
  }

  /** A cooking time that `parseInt` reads as `NaN` or as a value too large for a double
      (both sent as `null`), or as 0, passes the screen's non-empty check but is a missing
      field to the route: 400, and the screen shows the route's list of required fields. */
  lemma CookingTimeNotANumber(f: CreatePost.PostForm)
    requires !CreatePost.MissingField(f)
    requires || ParseInt(f.cookingTime).None? || ParseInt(f.cookingTime) == Some(0)
             || (ParseInt(f.cookingTime).Some? && !FiniteNumber(ParseInt(f.cookingTime).value))
    ensures var rej := CreateRejection(CreatePost.RecipePayload(f));
      && rej == Some(Reply(400, MissingFields(Backend.MISSING_FIELDS)))
      && CreatePost.PostOutcome(Delivered(rej.value), f.difficulty) == CreatePost.Alert("Error", Backend.MISSING_FIELDS)
  {
    var b := CreateBodyOf(CreatePost.RecipePayload(f));
    assert b.cookingTime == JsonNumber(ParseInt(f.cookingTime));
    assert Backend.FalsyNumber(b.cookingTime);
    MissingFieldsShown(b, f.difficulty);
  }

  /** A body with a missing field gets the 400, and the screen shows its message. */
  lemma MissingFieldsShown(b: Backend.CreateBody, difficulty: string)
    requires Backend.MissingRequired(b)
    ensures Backend.Admit(b) == Backend.Rejected(Reply(400, MissingFields(Backend.MISSING_FIELDS)))
    ensures CreatePost.PostOutcome(Delivered(Reply(400, MissingFields(Backend.MISSING_FIELDS))), difficulty)
              == CreatePost.Alert("Error", Backend.MISSING_FIELDS)
  {
  }

  /** "abc" is such a cooking time. */
  lemma LettersAreNotACookingTime()
    ensures ParseInt("abc").None?
  {
    var s := "abc";
    assert LeadingSpaces(s) == 0 by { assert !IsSpace(s[0]); }
    assert UnsignedPart(TrimStart(s)) == s;
    assert !HasHexPrefix(s);
    assert DigitRun(s, false) == 0 by { assert !IsDigit(s[0]); }
  }

  /** A complete form from a logged-in user is stored as typed, with the title trimmed, the
      screen's difficulty, the user as author, and no ingredients or steps; the screen then
      shows its success alert. */
  lemma CompleteFormIsStored(f: CreatePost.PostForm, user: UserView, nextId: nat,
                              created: int, updated: int)
    requires InEnum(f.difficulty) && !CreatePost.MissingField(f)
    requires f.author == user.username && f.authorEmail == user.email
    requires user.username != "" && user.email != "" && Trim(f.title) != ""
    requires ParseInt(f.cookingTime).Some? && ParseInt(f.cookingTime).value != 0
    requires SafeInteger(ParseInt(f.cookingTime).value)
    ensures var a := Backend.Admit(CreateBodyOf(CreatePost.RecipePayload(f)));
      && a.Accepted?
      && var r := Backend.Stored(a, nextId, created, updated);
      && r.title == Trim(f.title) && r.description == f.description
      && r.cookingTime == ParseInt(f.cookingTime).value
      && DifficultyName(r.difficulty) == f.difficulty
      && r.author == user.username && r.authorEmail == user.email
      && r.ingredients == [] && r.instructions == [] && r.likes == 0
      && CreatePost.PostOutcome(Delivered(Reply(201, RecipePosted(Backend.POSTED, r))), f.difficulty)
           == CreatePost.Alert(CreatePost.SUCCESS_TITLE, CreatePost.SUCCESS_MESSAGE)
  {
    assert Backend.RequestedDifficulty(CreateBodyOf(CreatePost.RecipePayload(f))) == f.difficulty;
  }

  /** The login body as the route reads it. */
  function LoginBodyOf(r: Login.LoginRequest): Backend.LoginBody {
    Backend.LoginBody(r.username, r.password)
  }

  /** Whatever the table holds, a login the screen sends either logs in with the profile the
      route returns or shows "Invalid username or password". */
  lemma LoginRoundTrip(users: seq<Backend.UserRow>, f: Login.LoginForm)
    ensures var reply := Backend.LoginReply(users, LoginBodyOf(Login.LoginPayload(f)));
      var o := Login.LoginOutcome(Settle(Delivered(reply), Login.LoginAccepts));
      && (o.LoggedIn? <==> reply.status == 200)
      && (o.LoggedIn? ==> o.user == reply.body.user && o.user.Some?)
      && (o.Shown? ==> o.message == Backend.INVALID_LOGIN)
  {
    var b := LoginBodyOf(Login.LoginPayload(f));
    Backend.LoginFailureIsUniform(users, b);
    if Backend.LoginReply(users, b).status == 200 {
      Backend.LoginSuccessShape(users, b);
    }
  }

  /** The signup body as the route reads it: `points` is always sent. */
  function SignupBodyOf(r: Signup.SignupRequest): Backend.SignupBody {
    Backend.SignupBody(r.username, r.email, r.password, r.dateOfBirth, r.phone, Some(r.points))
  }

  /** What the sign-up screen shows for the route's answer to the body it posted: a taken
      username or email is thrown by axios as the 400 and shown with the route's message;
      otherwise the account-created alert follows. */
  lemma SignupClashShown(users: seq<Backend.UserRow>, f: Signup.SignupForm, id: nat, salt: nat, now: int)
    ensures var b := SignupBodyOf(Signup.SignupPayload(f));
      var o := Signup.SignupOutcome(Settle(Delivered(Backend.SignupReply(users, b, id, salt, now)), DefaultAccepts));
      && (Backend.Clash(users, b) ==> o == Some(Backend.ACCOUNT_EXISTS))
      && (o.None? <==> !Backend.Clash(users, b))
  {
    var b := SignupBodyOf(Signup.SignupPayload(f));
    Backend.SignupReplyShape(users, b, id, salt, now);
  }

  /** Signing up on the screen and then logging in on the login screen with the same typed
      username and password logs in, with the new profile, whose `dob` is the text sent, and with no points. */
  lemma SignupThenLoginOnScreens(users: seq<Backend.UserRow>, nextId: nat, f: Signup.SignupForm,
                                 salt: nat, now: int)
    requires Backend.UsersWellFormed(users, nextId)
    requires !Backend.Clash(users, SignupBodyOf(Signup.SignupPayload(f)))
    ensures var b := SignupBodyOf(Signup.SignupPayload(f));
      var u := Backend.NewUser(b, nextId, salt, now);
      var reply := Backend.LoginReply(users + [u],
                     LoginBodyOf(Login.LoginPayload(Login.LoginForm(f.username, f.password))));
      var o := Login.LoginOutcome(Settle(Delivered(reply), Login.LoginAccepts));
      && o == Login.LoggedIn(Some(Backend.LoginView(u)))
      && o.user.value.username == Trim(f.username)
      && o.user.value.dateOfBirth == Some(Signup.ConvertDateForBackend(Trim(f.dateOfBirth)))
      && o.user.value.points == Some(0)
  {
    var b := SignupBodyOf(Signup.SignupPayload(f));
    Backend.SignupThenLogin(users, nextId, b, salt, now);
  }
}
