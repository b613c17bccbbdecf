/** The REST backend: the recipe routes over the document store and the signup and login
    routes over the user table. Both stores are sequences held by one `Server` object; the
    database drivers are replaced by those sequences and bcrypt by `Bcrypt`. */
module Backend {
  import opened Text
  import opened Wire
  import Bcrypt

  // ---------------------------------------------------------------- recipe creation

  /** The body of `POST /api/recipes`; `None` is a key that is absent or `null`. */
  datatype CreateBody = CreateBody(
    title: Option<string>,
    description: Option<string>,
    ingredients: Option<seq<Ingredient>>,
    instructions: Option<seq<Instruction>>,
    cookingTime: Option<int>,
    difficulty: Option<string>,
    category: Option<string>,
    author: Option<string>,
    authorEmail: Option<string>)

  predicate Falsy(s: Option<string>) {
    s.None? || s.value == ""
  }

  predicate FalsyNumber(n: Option<int>) {
    n.None? || n.value == 0
  }

  const MISSING_FIELDS := "Missing required fields: title, description, cookingTime, category, author, authorEmail"
  const POST_FAILED := "Failed to post recipe"
  const POSTED := "Recipe posted successfully!"
  const FETCH_FAILED := "Failed to fetch recipe"
  const LIKE_FAILED := "Failed to like recipe"
  const RECIPE_NOT_FOUND := "Recipe not found"
  const LIKED := "Recipe liked!"

  /** The handler's guard: one of the six required keys is falsy. */
  predicate MissingRequired(b: CreateBody) {
    Falsy(b.title) || Falsy(b.description) || FalsyNumber(b.cookingTime)
    || Falsy(b.category) || Falsy(b.author) || Falsy(b.authorEmail)
  }

  /** `difficulty || 'Easy'`. */
  function RequestedDifficulty(b: CreateBody): string {
    OrElse(b.difficulty, "Easy")
  }

  /** What the schema checks when the document is saved: `trim` on the title is applied
      first, so a title of white space fails `required`; the difficulty must be in the enum.
      Each failure is reported under its path, in schema order. */
  function SchemaErrors(title: string, difficulty: string): (errs: seq<string>)
    ensures errs == [] <==> Trim(title) != "" && InEnum(difficulty)
  {
    (if Trim(title) == "" then [TITLE_REQUIRED] else [])
    + (if InEnum(difficulty) then [] else [EnumError(difficulty)])
  }

  const TITLE_REQUIRED := "title: Path `title` is required."

  function EnumError(difficulty: string): string {
    "difficulty: `" + difficulty + "` is not a valid enum value for path `difficulty`."
  }

  /** The message of the ValidationError that `save` rejects with. */
  function ValidationMessage(errs: seq<string>): string {
    "Recipe validation failed: " + JoinErrors(errs)
  }

  function JoinErrors(errs: seq<string>): string {
    if errs == [] then ""
    else if |errs| == 1 then errs[0]
    else errs[0] + ", " + JoinErrors(errs[1..])
  }

  lemma {:induction false} JoinErrorsKeepsLast(errs: seq<string>, sub: string)
    requires |errs| > 0 && Contains(errs[|errs| - 1], sub)
    ensures Contains(JoinErrors(errs), sub)
  {
    if |errs| > 1 {
      assert errs[1..][|errs[1..]| - 1] == errs[|errs| - 1];
      JoinErrorsKeepsLast(errs[1..], sub);
      ContainsInRight(errs[0] + ", ", JoinErrors(errs[1..]), sub);
    }
  }

  /** A rejected difficulty is reported in the error's message under its path name, whatever
      else fails beside it. */
  lemma DifficultyRejectionNamed(title: string, difficulty: string)
    requires !InEnum(difficulty)
    ensures Contains(ValidationMessage(SchemaErrors(title, difficulty)), "difficulty")
  {
    var errs := SchemaErrors(title, difficulty);
    assert errs[|errs| - 1] == EnumError(difficulty);
    assert IsPrefix("difficulty", EnumError(difficulty));
    JoinErrorsKeepsLast(errs, "difficulty");
    ContainsInRight("Recipe validation failed: ", JoinErrors(errs), "difficulty");
  }

  /** How a create request ends before anything is stored, or the fields to store. */
  datatype Admission =
    | Rejected(reply: Reply)
    | Accepted(title: string, description: string, ingredients: seq<Ingredient>,
               instructions: seq<Instruction>, cookingTime: int, difficulty: Difficulty,
               category: string, author: string, authorEmail: string)

  /** The create route up to `save` (backend/index.js:242-260): the required-field guard, the
      defaults, and the schema's validation. */
  function Admit(b: CreateBody): (r: Admission)
    ensures r.Rejected? && r.reply == Reply(400, MissingFields(MISSING_FIELDS)) <==> MissingRequired(b)
    ensures r.Rejected? && !MissingRequired(b) ==>
      r.reply.status == 500 && r.reply.body.Failure? && r.reply.body.error == POST_FAILED
    ensures r.Rejected? <==>
      MissingRequired(b) || Trim(b.title.value) == "" || !InEnum(RequestedDifficulty(b))
    ensures !MissingRequired(b) && !InEnum(RequestedDifficulty(b)) ==>
      r.Rejected? && Contains(r.reply.body.details, "difficulty")
    ensures r.Accepted? ==>
      && r.title == Trim(b.title.value) && r.title != ""
      && r.description == b.description.value && r.description != ""
      && r.ingredients == b.ingredients.GetOr([])
      && r.instructions == b.instructions.GetOr([])
      && r.cookingTime == b.cookingTime.value && r.cookingTime != 0
      && DifficultyName(r.difficulty) == RequestedDifficulty(b)
      && (Falsy(b.difficulty) ==> r.difficulty == Easy)
      && r.category == b.category.value && r.category != ""
      && r.author == b.author.value && r.author != ""
      && r.authorEmail == b.authorEmail.value && r.authorEmail != ""
  {
    if MissingRequired(b) then
      Rejected(Reply(400, MissingFields(MISSING_FIELDS)))
    else
      var difficulty := RequestedDifficulty(b);
      var errs := SchemaErrors(b.title.value, difficulty);
      if errs != [] then
        var details := ValidationMessage(errs);
        if !InEnum(difficulty) then
          DifficultyRejectionNamed(b.title.value, difficulty);
          Rejected(Reply(500, Failure(POST_FAILED, details)))
        else
          Rejected(Reply(500, Failure(POST_FAILED, details)))
      else
        Accepted(Trim(b.title.value), b.description.value, b.ingredients.GetOr([]),
                 b.instructions.GetOr([]), b.cookingTime.value,
                 ParseDifficulty(difficulty).value, b.category.value, b.author.value,
                 b.authorEmail.value)
  }

  /** The document `save` stores: the schema's default `likes: 0`, and each timestamp the
      clock reading its own `Date.now` default takes (`created`, then `updated`). */
  function Stored(a: Admission, id: nat, created: int, updated: int): Recipe
    requires a.Accepted?
  {
    Recipe(id, a.title, a.description, a.ingredients, a.instructions, a.cookingTime,
           a.difficulty, a.category, a.author, a.authorEmail, 0, created, updated)
  }

  // ---------------------------------------------------------------- recipe store invariant

  /** What every stored document satisfies, given how it can be created and changed. */
  predicate RecipeOk(r: Recipe) {
    && r.title != "" && Trimmed(r.title)
    && r.description != "" && r.cookingTime != 0 && r.category != ""
    && r.author != "" && r.authorEmail != ""
  }

  predicate RecipesWellFormed(rs: seq<Recipe>, nextId: nat) {
    && (forall i :: 0 <= i < |rs| ==> rs[i].id < nextId && RecipeOk(rs[i]))
    && (forall i, j :: 0 <= i < j < |rs| ==> rs[i].id != rs[j].id)
  }

  lemma AppendKeepsWellFormed(rs: seq<Recipe>, nextId: nat, r: Recipe)
    requires RecipesWellFormed(rs, nextId) && RecipeOk(r) && r.id == nextId
    ensures RecipesWellFormed(rs + [r], nextId + 1)
  {
    var t := rs + [r];
    forall i | 0 <= i < |t| ensures t[i].id < nextId + 1 && RecipeOk(t[i]) {
      if i < |rs| { assert t[i] == rs[i]; }
    }
  }

  lemma LikeKeepsWellFormed(rs: seq<Recipe>, nextId: nat, k: nat)
    requires RecipesWellFormed(rs, nextId) && k < |rs|
    ensures RecipesWellFormed(rs[k := rs[k].(likes := rs[k].likes + 1)], nextId)
  {
    var t := rs[k := rs[k].(likes := rs[k].likes + 1)];
    assert forall i :: 0 <= i < |t| ==> t[i].id == rs[i].id;
    assert RecipeOk(t[k]);
  }

  // ---------------------------------------------------------------- listing

  /** `sort({ createdAt: -1 })`: newest first. */
  predicate NewestFirst(s: seq<Recipe>) {
    forall i, j :: 0 <= i < j < |s| ==> s[i].createdAt >= s[j].createdAt
  }

  /** A recipe no older than any of a newest-first list can stand in front of it. */
  lemma NewestFirstCons(x: Recipe, rest: seq<Recipe>)
    requires NewestFirst(rest)
    requires forall k :: 0 <= k < |rest| ==> x.createdAt >= rest[k].createdAt
    ensures NewestFirst([x] + rest)
  {
  }

  /** Inserting an older recipe behind the head of a newest-first list keeps the head newest. */
  lemma HeadStaysNewest(r: Recipe, s: seq<Recipe>, rest: seq<Recipe>)
    requires NewestFirst(s) && |s| > 0 && r.createdAt < s[0].createdAt
    requires multiset(rest) == multiset(s[1..]) + multiset{r}
    ensures forall k :: 0 <= k < |rest| ==> s[0].createdAt >= rest[k].createdAt
  {
    forall k | 0 <= k < |rest| ensures s[0].createdAt >= rest[k].createdAt {
      assert rest[k] in multiset(rest);
      assert rest[k] == r || rest[k] in multiset(s[1..]);
    }
  }

  function InsertNewestFirst(r: Recipe, s: seq<Recipe>): (t: seq<Recipe>)
    requires NewestFirst(s)
    ensures NewestFirst(t)
    ensures multiset(t) == multiset(s) + multiset{r}
    ensures |t| == |s| + 1
  {
    if s == [] then [r]
    else if r.createdAt >= s[0].createdAt then [r] + s
    else
      var rest := InsertNewestFirst(r, s[1..]);
      assert s == [s[0]] + s[1..];
      HeadStaysNewest(r, s, rest);
      NewestFirstCons(s[0], rest);
      [s[0]] + rest
  }

  /** The list the find-and-sort query yields. MongoDB leaves the order of documents with
      equal `createdAt` open; this model keeps them in store order. */
  function SortNewestFirst(rs: seq<Recipe>): (t: seq<Recipe>)
    ensures NewestFirst(t)
    ensures multiset(t) == multiset(rs)
    ensures |t| == |rs|
  {
    if rs == [] then []
    else
      assert rs == [rs[0]] + rs[1..];
      InsertNewestFirst(rs[0], SortNewestFirst(rs[1..]))
  }

  // ---------------------------------------------------------------- lookup by id

  /** Mongoose's cast of a route parameter to an ObjectId: 24 hexadecimal digits. Anything
      else throws a CastError. */
  function CastObjectId(s: string): Option<nat>
  {
    if |s| == 24 && forall i :: 0 <= i < |s| ==> IsHexDigit(s[i]) then Some(HexValue(s)) else None
  }

  /** An id written as its 24 lower-case hexadecimal digits casts back to itself. */
  lemma CastObjectIdRoundTrip(id: nat)
    requires id < Pow16(24)
    ensures CastObjectId(HexString(id, 24)) == Some(id)
  {
    HexStringValue(id, 24);
  }

  /** The cast ignores the letter case of the hexadecimal digits. */
  lemma CastObjectIdIgnoresCase(s: string, t: string)
    requires |s| == |t| && forall i :: 0 <= i < |s| ==> LowerChar(s[i]) == LowerChar(t[i])
    ensures CastObjectId(s) == CastObjectId(t)
  {
    if CastObjectId(s).Some? {
      HexValueIgnoresCase(s, t);
    } else if CastObjectId(t).Some? {
      HexValueIgnoresCase(t, s);
    }
  }

  function CastErrorMessage(s: string): string {
    "Cast to ObjectId failed for value \"" + s + "\" (type string) at path \"_id\" for model \"Recipe\""
  }

  /** The position of the document with this id. */
  function FindRecipe(rs: seq<Recipe>, id: nat): (k: Option<nat>)
    ensures k.Some? ==> k.value < |rs| && rs[k.value].id == id
    ensures k.None? <==> forall j :: 0 <= j < |rs| ==> rs[j].id != id
  {
    if rs == [] then None
    else if rs[0].id == id then Some(0)
    else
      match FindRecipe(rs[1..], id)
      case None => None
      case Some(k) => Some(k + 1)
  }

  // ---------------------------------------------------------------- users

  /** A row of the `users` table. `dob` is held as the text sent and read back unchanged, and
      `point` as an integer. */
  datatype UserRow = UserRow(
    userId: nat,
    username: string,
    email: string,
    password: Bcrypt.Digest,
    dob: string,
    phone: string,
    point: int,
    createdAt: int)

  /** The body of `POST /api/auth/signup`; `points` is `None` when the key is absent. */
  datatype SignupBody = SignupBody(
    username: string,
    email: string,
    password: string,
    dateOfBirth: string,
    phone: string,
    points: Option<int>)

  datatype LoginBody = LoginBody(username: string, password: string)

  const ACCOUNT_EXISTS := "Username or email already exists"
  const USER_CREATED := "User created successfully"
  const INVALID_LOGIN := "Invalid username or password"
  const LOGIN_OK := "Login successful"

  /** `SELECT * FROM users WHERE username = $1 OR email = $2` finds a row. */
  predicate Clash(users: seq<UserRow>, b: SignupBody) {
    exists i :: 0 <= i < |users| && (users[i].username == b.username || users[i].email == b.email)
  }

  /** The inserted row: the password hashed, `points` defaulting to 0. */
  function NewUser(b: SignupBody, id: nat, salt: nat, now: int): (u: UserRow)
    ensures Bcrypt.Compare(b.password, u.password)
    ensures b.points.None? ==> u.point == 0
  {
    UserRow(id, b.username, b.email, Bcrypt.Hash(b.password, salt), b.dateOfBirth, b.phone,
            b.points.GetOr(0), now)
  }

  /** The `RETURNING user_id, username, email, dob, phone, point, created_at` row. */
  function SignupView(u: UserRow): UserView {
    UserView(u.userId, u.username, u.email, u.dob, u.phone, u.point, u.createdAt, None, None)
  }

  /** The reply of `POST /api/auth/signup` against the given table; the new row gets `id`. */
  function SignupReply(users: seq<UserRow>, b: SignupBody, id: nat, salt: nat, now: int): Reply {
    if Clash(users, b) then Reply(400, Auth(false, ACCOUNT_EXISTS, None))
    else Reply(201, Auth(true, USER_CREATED, Some(SignupView(NewUser(b, id, salt, now)))))
  }

  /** A clash is answered with 400 and the one message; otherwise 201 with the new row's
      columns, its username, email and date of birth as sent and its hash left out. */
  lemma SignupReplyShape(users: seq<UserRow>, b: SignupBody, id: nat, salt: nat, now: int)
    ensures var r := SignupReply(users, b, id, salt, now);
      && (r.status == 400 <==> Clash(users, b))
      && (r.status == 400 || r.status == 201)
      && r.body.Auth? && (r.body.success <==> r.status == 201)
      && (r.status == 400 ==> r.body.message == ACCOUNT_EXISTS && r.body.user.None?)
      && (r.status == 201 ==>
            && r.body.user.Some? && r.body.user.value.userId == id
            && r.body.user.value.username == b.username && r.body.user.value.email == b.email
            && r.body.user.value.dob == b.dateOfBirth && r.body.user.value.points.None?)
  {
  }

  /** The login reply's user: every column but `password`, plus `dateOfBirth = dob` and
      `points = point`. */
  function LoginView(u: UserRow): (v: UserView)
    ensures v.dateOfBirth == Some(u.dob) && v.points == Some(u.point)
    ensures v.userId == u.userId && v.username == u.username && v.email == u.email
  {
    UserView(u.userId, u.username, u.email, u.dob, u.phone, u.point, u.createdAt,
             Some(u.dob), Some(u.point))
  }

  /** The first row with this username, as `rows[0]` of the login query. */
  function FindUser(users: seq<UserRow>, username: string): (k: Option<nat>)
    ensures k.Some? ==> k.value < |users| && users[k.value].username == username
    ensures k.Some? ==> forall j :: 0 <= j < k.value ==> users[j].username != username
    ensures k.None? <==> forall j :: 0 <= j < |users| ==> users[j].username != username
  {
    if users == [] then None
    else if users[0].username == username then Some(0)
    else
      match FindUser(users[1..], username)
      case None => None
      case Some(k) => Some(k + 1)
  }

  /** The reply of `POST /api/auth/login` against the given table. */
  function LoginReply(users: seq<UserRow>, b: LoginBody): Reply {
    match FindUser(users, b.username)
    case None => Reply(401, Auth(false, INVALID_LOGIN, None))
    case Some(k) =>
      if Bcrypt.Compare(b.password, users[k].password)
      then Reply(200, Auth(true, LOGIN_OK, Some(LoginView(users[k]))))
      else Reply(401, Auth(false, INVALID_LOGIN, None))
  }

  /** No two rows share a username or an email; ids are distinct and below the next one. */
  predicate UsersWellFormed(users: seq<UserRow>, nextId: nat) {
    && (forall i :: 0 <= i < |users| ==> users[i].userId < nextId)
    && (forall i, j :: 0 <= i < j < |users| ==>
          users[i].userId != users[j].userId
          && users[i].username != users[j].username
          && users[i].email != users[j].email)
  }

  /** An unknown username and a wrong password get the very same reply. */
  lemma LoginFailureIsUniform(users: seq<UserRow>, b: LoginBody)
    ensures LoginReply(users, b).status != 200 ==>
      LoginReply(users, b) == Reply(401, Auth(false, INVALID_LOGIN, None))
    ensures LoginReply(users, b).status == 200 <==>
      exists k :: 0 <= k < |users| && users[k].username == b.username
                  && (forall j :: 0 <= j < k ==> users[j].username != b.username)
                  && Bcrypt.Compare(b.password, users[k].password)
  {
    match FindUser(users, b.username)
    case None =>
    case Some(k) =>
      if Bcrypt.Compare(b.password, users[k].password) {
      } else {
        forall k' | 0 <= k' < |users| && users[k'].username == b.username
                    && (forall j :: 0 <= j < k' ==> users[j].username != b.username)
          ensures !Bcrypt.Compare(b.password, users[k'].password)
        {
          assert k' == k;
        }
      }
  }

  /** A successful login never carries the password digest, and carries the profile under
      both the column names and the client's names. */
  lemma LoginSuccessShape(users: seq<UserRow>, b: LoginBody)
    requires LoginReply(users, b).status == 200
    ensures var r := LoginReply(users, b);
      && r.body.Auth? && r.body.success && r.body.user.Some?
      && (exists k :: 0 <= k < |users| && users[k].username == b.username
            && Bcrypt.Compare(b.password, users[k].password)
            && r.body.user.value == LoginView(users[k])
            && r.body.user.value.dateOfBirth == Some(users[k].dob)
            && r.body.user.value.points == Some(users[k].point))
  {
    var k := FindUser(users, b.username).value;
    assert users[k].username == b.username;
  }

  /** Signing up and then logging in with the same credentials succeeds and returns the new
      account's profile. */
  lemma SignupThenLogin(users: seq<UserRow>, nextId: nat, b: SignupBody, salt: nat, now: int)
    requires UsersWellFormed(users, nextId) && !Clash(users, b)
    ensures var u := NewUser(b, nextId, salt, now);
      LoginReply(users + [u], LoginBody(b.username, b.password))
        == Reply(200, Auth(true, LOGIN_OK, Some(LoginView(u))))
    ensures var v := LoginView(NewUser(b, nextId, salt, now));
      v.dateOfBirth == Some(b.dateOfBirth) && v.points == Some(b.points.GetOr(0))
  {
    var u := NewUser(b, nextId, salt, now);
    var us := users + [u];
    var k := FindUser(us, b.username);
    assert us[|users|].username == b.username;
    assert k.Some?;
  }

  // ---------------------------------------------------------------- the server

  class Server {
    /** The `recipes` collection, in insertion order. */
    var recipes: seq<Recipe>
    /** The `users` table, in insertion order. */
    var users: seq<UserRow>
    /** The store's fresh id sources: ObjectId generation and the `user_id` serial. */
    var nextRecipeId: nat
    var nextUserId: nat

    ghost predicate Valid()
      reads this
    {
      RecipesWellFormed(recipes, nextRecipeId) && UsersWellFormed(users, nextUserId)
    }

    constructor ()
      ensures Valid()
      ensures recipes == [] && users == []
    {
      recipes, users := [], [];
      nextRecipeId, nextUserId := 0, 0;
    }

    /** `POST /api/recipes`. `created` and `updated` are the clock readings of the two
        `Date.now` defaults. */
    method CreateRecipe(body: CreateBody, created: int, updated: int) returns (reply: Reply)
      requires Valid()
      modifies this
      ensures Valid()
      ensures users == old(users) && nextUserId == old(nextUserId)
      ensures Admit(body).Rejected? ==>
        reply == Admit(body).reply && recipes == old(recipes) && nextRecipeId == old(nextRecipeId)
      ensures Admit(body).Accepted? ==>
        && reply == Reply(201, RecipePosted(POSTED, Stored(Admit(body), old(nextRecipeId), created, updated)))
        && recipes == old(recipes) + [reply.body.recipe]
        && reply.body.recipe.likes == 0
        && reply.body.recipe.createdAt == created && reply.body.recipe.updatedAt == updated
        && (forall i :: 0 <= i < |old(recipes)| ==> old(recipes)[i].id != reply.body.recipe.id)
    {
      var admission := Admit(body);
      if admission.Rejected? {
        reply := admission.reply;
        return;
      }
      var saved := Stored(admission, nextRecipeId, created, updated);
      assert RecipeOk(saved);
      AppendKeepsWellFormed(recipes, nextRecipeId, saved);
      recipes := recipes + [saved];
      nextRecipeId := nextRecipeId + 1;
      reply := Reply(201, RecipePosted(POSTED, saved));
    }

    /** `GET /api/recipes`: every document, newest first, and their number. */
    method ListRecipes() returns (reply: Reply)
      ensures reply.status == 200 && reply.body.RecipeList?
      ensures reply.body.count == |reply.body.recipes| == |recipes|
      ensures multiset(reply.body.recipes) == multiset(recipes)
      ensures NewestFirst(reply.body.recipes)
    {
      var sorted := SortNewestFirst(recipes);
      reply := Reply(200, RecipeList(|sorted|, sorted));
    }

    /** `GET /api/recipes/:id`. Ids are unique, so the document found is the one with that id. */
    method GetRecipe(id: string) returns (reply: Reply)
      requires Valid()
      ensures CastObjectId(id).None? ==>
        reply == Reply(500, Failure(FETCH_FAILED, CastErrorMessage(id)))
      ensures CastObjectId(id).Some? ==>
        if exists i :: 0 <= i < |recipes| && recipes[i].id == CastObjectId(id).value
        then reply.status == 200 && reply.body.RecipeFound?
             && reply.body.recipe.id == CastObjectId(id).value
             && (forall i :: 0 <= i < |recipes| && recipes[i].id == CastObjectId(id).value ==>
                   reply.body.recipe == recipes[i])
        else reply == Reply(404, NotFound(RECIPE_NOT_FOUND))
    {
      var oid := CastObjectId(id);
      if oid.None? {
        reply := Reply(500, Failure(FETCH_FAILED, CastErrorMessage(id)));
        return;
      }
      var k := FindRecipe(recipes, oid.value);
      if k.None? {
        reply := Reply(404, NotFound(RECIPE_NOT_FOUND));
      } else {
        reply := Reply(200, RecipeFound(recipes[k.value]));
      }
    }

    /** `POST /api/recipes/:id/like`: one `$inc` of one counter. */
    method LikeRecipe(id: string) returns (reply: Reply)
      requires Valid()
      modifies this
      ensures Valid()
      ensures users == old(users) && nextUserId == old(nextUserId) && nextRecipeId == old(nextRecipeId)
      ensures |recipes| == |old(recipes)|
      ensures CastObjectId(id).None? ==>
        reply == Reply(500, Failure(LIKE_FAILED, CastErrorMessage(id))) && recipes == old(recipes)
      ensures CastObjectId(id).Some? && FindRecipe(old(recipes), CastObjectId(id).value).None? ==>
        reply == Reply(404, NotFound(RECIPE_NOT_FOUND)) && recipes == old(recipes)
      ensures CastObjectId(id).Some? && FindRecipe(old(recipes), CastObjectId(id).value).Some? ==>
        var k := FindRecipe(old(recipes), CastObjectId(id).value).value;
        && recipes == old(recipes)[k := old(recipes)[k].(likes := old(recipes)[k].likes + 1)]
        && reply == Reply(200, Liked(LIKED, recipes[k].likes))
    {
      var oid := CastObjectId(id);
      if oid.None? {
        reply := Reply(500, Failure(LIKE_FAILED, CastErrorMessage(id)));
        return;
      }
      var k := FindRecipe(recipes, oid.value);
      if k.None? {
        reply := Reply(404, NotFound(RECIPE_NOT_FOUND));
        return;
      }
      var i := k.value;
      var liked := recipes[i].(likes := recipes[i].likes + 1);
      LikeKeepsWellFormed(recipes, nextRecipeId, i);
      recipes := recipes[i := liked];
      reply := Reply(200, Liked(LIKED, liked.likes));
    }

    /** `POST /api/auth/signup`; `salt` stands for bcrypt's random salt. */
    method Signup(body: SignupBody, salt: nat, now: int) returns (reply: Reply)
      requires Valid()
      modifies this
      ensures Valid()
      ensures recipes == old(recipes) && nextRecipeId == old(nextRecipeId)
      ensures reply == SignupReply(old(users), body, old(nextUserId), salt, now)
      ensures Clash(old(users), body) ==>
        reply == Reply(400, Auth(false, ACCOUNT_EXISTS, None))
        && users == old(users) && nextUserId == old(nextUserId)
      ensures !Clash(old(users), body) ==>
        && users == old(users) + [NewUser(body, old(nextUserId), salt, now)]
        && nextUserId == old(nextUserId) + 1
        && reply == Reply(201, Auth(true, USER_CREATED, Some(SignupView(users[|users| - 1]))))
    {
      if exists i :: 0 <= i < |users| && (users[i].username == body.username || users[i].email == body.email) {
        reply := Reply(400, Auth(false, ACCOUNT_EXISTS, None));
        return;
      }
      var row := NewUser(body, nextUserId, salt, now);
      users := users + [row];
      nextUserId := nextUserId + 1;
      reply := Reply(201, Auth(true, USER_CREATED, Some(SignupView(row))));
    }

    /** `POST /api/auth/login`. */
    method Login(body: LoginBody) returns (reply: Reply)
      ensures reply == LoginReply(users, body)
      ensures reply.status == 200 || reply == Reply(401, Auth(false, INVALID_LOGIN, None))
      ensures reply.body.Auth? && (reply.body.success <==> reply.status == 200)
    {
      var k := FindUser(users, body.username);
      if k.None? {
        reply := Reply(401, Auth(false, INVALID_LOGIN, None));
        return;
      }
      var user := users[k.value];
      if !Bcrypt.Compare(body.password, user.password) {
        reply := Reply(401, Auth(false, INVALID_LOGIN, None));
        return;
      }
      reply := Reply(200, Auth(true, LOGIN_OK, Some(LoginView(user))));
    }
  }
}
