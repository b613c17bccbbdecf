/** The create-post screen: the form, the author taken from the logged-in user, the checks
    before posting, the body it posts with `fetch`, and the alert it shows for the reply. */
module CreatePost {
  import opened Text
  import opened Wire
  import opened Http

  const FILL_REQUIRED := "Please fill in all required fields"
  const NO_USER := "User information not available. Please login again."
  const LOAD_FAILED := "Failed to load user data. Please try again."
  const NETWORK := "Network error. Please check your connection and try again."
  const POST_FAILED := "Failed to post recipe"
  const SUCCESS_TITLE := "Success! \U{1F389}"
  const SUCCESS_MESSAGE := "Your recipe has been posted successfully!"

  datatype PostForm = PostForm(
    title: string,
    description: string,
    cookingTime: string,
    difficulty: string,
    category: string,
    author: string,
    authorEmail: string)

  datatype Alert = Alert(title: string, message: string)

  /** The `userData` route parameter: absent, parsed, or not JSON. */
  datatype UserParam = NoParam | Parsed(user: UserView) | Malformed

  /** The body `handlePostData` posts to `/api/recipes`. `cookingTime` is `parseInt` of the
      field as `JSON.stringify` writes it: `None` (`null`) for `NaN` and for a value too large
      for a double. */
  datatype RecipeData = RecipeData(
    title: string,
    description: string,
    cookingTime: Option<int>,
    difficulty: string,
    category: string,
    author: string,
    authorEmail: string,
    ingredients: seq<Ingredient>,
    instructions: seq<Instruction>)

  function RecipePayload(f: PostForm): RecipeData {
    RecipeData(f.title, f.description, JsonNumber(ParseInt(f.cookingTime)), f.difficulty, f.category,
               f.author, f.authorEmail, [], [])
  }

  /** One of the four fields the screen requires is empty. Author and email are not checked
      here; they come from the user. */
  predicate MissingField(f: PostForm) {
    f.title == "" || f.description == "" || f.cookingTime == "" || f.category == ""
  }

  datatype PostStart = Refused(alert: Alert) | Send(payload: RecipeData)

  /** The checks of `handlePostData` before the request. */
  function StartPost(f: PostForm, user: Option<UserView>): PostStart {
    if MissingField(f) then Refused(Alert("Error", FILL_REQUIRED))
    else if user.None? then Refused(Alert("Error", NO_USER))
    else Send(RecipePayload(f))
  }

  /** A post is sent exactly when the four fields are filled in and a user is loaded, and it
      carries the form as typed, with empty ingredient and instruction lists. */
  lemma StartPostSends(f: PostForm, user: Option<UserView>)
    ensures StartPost(f, user).Send? <==> !MissingField(f) && user.Some?
    ensures StartPost(f, user).Send? ==>
      var p := StartPost(f, user).payload;
      && p.title == f.title && p.description == f.description && p.category == f.category
      && p.difficulty == f.difficulty && p.author == f.author && p.authorEmail == f.authorEmail
      && p.cookingTime == JsonNumber(ParseInt(f.cookingTime)) && p.ingredients == [] && p.instructions == []
    ensures MissingField(f) ==> StartPost(f, user) == Refused(Alert("Error", FILL_REQUIRED))
  {
  }

  /** The "Difficulty Error" text for a rejected difficulty. */
  function DifficultyAlert(difficulty: string, details: string): Alert {
    Alert("Difficulty Error",
          "The difficulty value \"" + difficulty + "\" is not accepted by the server. " + details)
  }

  /** The alert for what `fetch` delivered (every status is a response), given the difficulty
      in the form. */
  function PostOutcome(d: Delivery, difficulty: string): Alert {
    match d
    case NoReply(_, _) => Alert("Error", NETWORK)
    case Delivered(r) =>
      if SuccessField(r.body) == Some(true) then Alert(SUCCESS_TITLE, SUCCESS_MESSAGE)
      else if DetailsField(r.body).Some? && Contains(DetailsField(r.body).value, "difficulty") then
        DifficultyAlert(difficulty, DetailsField(r.body).value)
      else Alert("Error", OrElse(ErrorField(r.body), POST_FAILED))
  }

  /** The three kinds of alert, and when each one is shown. */
  lemma PostOutcomeKinds(d: Delivery, difficulty: string)
    ensures PostOutcome(d, difficulty).title == SUCCESS_TITLE <==> d.Delivered? && SuccessField(d.reply.body) == Some(true)
    ensures PostOutcome(d, difficulty).title == "Difficulty Error" <==>
      d.Delivered? && SuccessField(d.reply.body) != Some(true) && DetailsField(d.reply.body).Some?
      && Contains(DetailsField(d.reply.body).value, "difficulty")
    ensures PostOutcome(d, difficulty).message != ""
  {
    var a := PostOutcome(d, difficulty);
    assert SUCCESS_TITLE != "Error" && SUCCESS_TITLE != "Difficulty Error" by {
      assert SUCCESS_TITLE[0] == 'S';
      assert SUCCESS_TITLE[1] == 'u';
    }
    assert "Difficulty Error" != "Error" by {
      assert "Difficulty Error"[0] == 'D';
    }
  }

  /** The text inputs. */
  datatype Field = Title | Description | CookingTime | Category

  function WithField(f: PostForm, field: Field, text: string): PostForm {
    match field
    case Title => f.(title := text)
    case Description => f.(description := text)
    case CookingTime => f.(cookingTime := text)
    case Category => f.(category := text)
  }

  class CreatePostScreen {
    var form: PostForm
    var user: Option<UserView>
    var isPosting: bool

    /** The difficulty is always one the schema accepts, and once a user is loaded the author
        fields are that user's. */
    ghost predicate Valid()
      reads this
    {
      InEnum(form.difficulty)
      && (user.Some? ==> form.author == user.value.username && form.authorEmail == user.value.email)
    }

    constructor()
      ensures Valid()
      ensures form == PostForm("", "", "", "Easy", "", "", "") && user.None? && !isPosting
    {
      form := PostForm("", "", "", "Easy", "", "", "");
      user := None;
      isPosting := false;
    }

    /** The effect on the route parameter: a parsed user becomes the author of the post; a
        parameter that is not JSON raises an alert and changes nothing. */
    method LoadUser(param: UserParam) returns (alert: Option<Alert>)
      requires Valid()
      modifies this`form, this`user
      ensures Valid()
      ensures param.Parsed? ==>
        user == Some(param.user)
        && form == old(form).(author := param.user.username, authorEmail := param.user.email)
      ensures !param.Parsed? ==> user == old(user) && form == old(form)
      ensures alert.Some? <==> param.Malformed?
      ensures alert.Some? ==> alert.value == Alert("Error", LOAD_FAILED)
    {
      match param {
        case NoParam =>
          alert := None;
        case Parsed(u) =>
          user := Some(u);
          form := form.(author := u.username, authorEmail := u.email);
          alert := None;
        case Malformed =>
          alert := Some(Alert("Error", LOAD_FAILED));
      }
    }

    method Edit(field: Field, text: string)
      requires Valid()
      modifies this`form
      ensures Valid()
      ensures form == WithField(old(form), field, text)
    {
      form := WithField(form, field, text);
    }

    /** The three difficulty buttons. */
    method SelectDifficulty(d: Difficulty)
      requires Valid()
      modifies this`form
      ensures Valid()
      ensures form == old(form).(difficulty := DifficultyName(d))
    {
      form := form.(difficulty := DifficultyName(d));
    }

    /** `handlePostData` up to the request. The `finally` block ends posting at once when the
        post is refused. The button is disabled while posting. */
    method BeginPost() returns (start: PostStart)
      requires Valid() && !isPosting
      modifies this`isPosting
      ensures start == StartPost(form, user)
      ensures isPosting <==> start.Send?
      ensures start.Send? ==> InEnum(start.payload.difficulty)
      ensures start.Send? ==> start.payload.author == user.value.username
                              && start.payload.authorEmail == user.value.email
    {
      isPosting := true;
      start := StartPost(form, user);
      if start.Refused? {
        isPosting := false;
      }
    }

    /** The rest of `handlePostData`: the alert, then posting ends. `sent` is the body
        `BeginPost` handed over: the closure still sees the form as it was then, although the
        difficulty buttons stay live while posting. Returns whether the alert's OK leads back
        to the forum. */
    method FinishPost(sent: RecipeData, d: Delivery) returns (alert: Alert, backToForum: bool)
      modifies this`isPosting
      ensures alert == PostOutcome(d, sent.difficulty)
      ensures backToForum <==> d.Delivered? && SuccessField(d.reply.body) == Some(true)
      ensures !isPosting
    {
      alert := PostOutcome(d, sent.difficulty);
      backToForum := d.Delivered? && SuccessField(d.reply.body) == Some(true);
      isPosting := false;
    }
  }
}
