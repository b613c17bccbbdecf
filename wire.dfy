/** The JSON shapes that travel between the backend and the client screens: recipe documents,
    the user object of the auth routes, and the response bodies of every modelled route. */
module Wire {
  import opened Text

  /** The `enum` of the recipe schema's `difficulty` path. */
  datatype Difficulty = Easy | Medium | Hard

  function DifficultyName(d: Difficulty): string {
    match d
    case Easy => "Easy"
    case Medium => "Medium"
    case Hard => "Hard"
  }

  predicate InEnum(s: string) {
    s == "Easy" || s == "Medium" || s == "Hard"
  }

  /** The enum check: exactly the three names, spelled as in the schema, are accepted. */
  function ParseDifficulty(s: string): (r: Option<Difficulty>)
    ensures r.Some? <==> InEnum(s)
    ensures r.Some? ==> DifficultyName(r.value) == s
  {
    if s == "Easy" then Some(Easy)
    else if s == "Medium" then Some(Medium)
    else if s == "Hard" then Some(Hard)
    else None
  }

  datatype Ingredient = Ingredient(name: string, amount: string, unit: string)

  datatype Instruction = Instruction(step: int, description: string)

  /** A stored recipe document. `id` stands for the ObjectId the store assigns. */
  datatype Recipe = Recipe(
    id: nat,
    title: string,
    description: string,
    ingredients: seq<Ingredient>,
    instructions: seq<Instruction>,
    cookingTime: int,
    difficulty: Difficulty,
    category: string,
    author: string,
    authorEmail: string,
    likes: nat,
    createdAt: int,
    updatedAt: int)

  /** The `user` object of the auth replies. Signup returns the `RETURNING` columns only
      (`dateOfBirth` and `points` absent); login adds those two keys. No variant has a
      password. */
  datatype UserView = UserView(
    userId: nat,
    username: string,
    email: string,
    dob: string,
    phone: string,
    point: int,
    createdAt: int,
    dateOfBirth: Option<string>,
    points: Option<int>)

  /** The JSON body of a reply, one variant per shape the routes write. */
  datatype Body =
    | MissingFields(error: string)                      // `{ error }`, no `success` key
    | RecipePosted(message: string, recipe: Recipe)     // `{ success: true, message, recipe }`
    | Failure(error: string, details: string)           // `{ success: false, error, details }`
    | RecipeList(count: nat, recipes: seq<Recipe>)      // `{ success: true, count, recipes }`
    | RecipeFound(recipe: Recipe)                       // `{ success: true, recipe }`
    | NotFound(error: string)                           // `{ success: false, error }`
    | Liked(message: string, likes: nat)                // `{ success: true, message, likes }`
    | Auth(success: bool, message: string, user: Option<UserView>)

  datatype Reply = Reply(status: nat, body: Body)

  /** `body.success` as a client reads it; `None` is `undefined`. */
  function SuccessField(b: Body): (r: Option<bool>)
    ensures r == Some(true) <==> (b.RecipePosted? || b.RecipeList? || b.RecipeFound? || b.Liked? || (b.Auth? && b.success))
  {
    match b
    case MissingFields(_) => None
    case RecipePosted(_, _) => Some(true)
    case Failure(_, _) => Some(false)
    case RecipeList(_, _) => Some(true)
    case RecipeFound(_) => Some(true)
    case NotFound(_) => Some(false)
    case Liked(_, _) => Some(true)
    case Auth(s, _, _) => Some(s)
  }

  /** `body.message`. */
  function MessageField(b: Body): Option<string> {
    match b
    case RecipePosted(m, _) => Some(m)
    case Liked(m, _) => Some(m)
    case Auth(_, m, _) => Some(m)
    case _ => None
  }

  /** `body.error`. */
  function ErrorField(b: Body): Option<string> {
    match b
    case MissingFields(e) => Some(e)
    case Failure(e, _) => Some(e)
    case NotFound(e) => Some(e)
    case _ => None
  }

  /** `body.details`. */
  function DetailsField(b: Body): Option<string> {
    match b
    case Failure(_, d) => Some(d)
    case _ => None
  }

  /** `body.user`. */
  function UserField(b: Body): Option<UserView> {
    match b
    case Auth(_, _, u) => u
    case _ => None
  }

  /** A JavaScript `||` fallback on an optional string: the value when it is a non-empty
      string, the default otherwise. */
  function OrElse(s: Option<string>, default: string): string
  {
    if s.Some? && s.value != "" then s.value else default
  }

  // ----- Numbers in a JSON body -----

  /** The smallest integer magnitude that a JavaScript number cannot hold: 2^1024 - 2^970,
      halfway between the largest finite double (2^1024 - 2^971) and 2^1024. By section
      6.1.6.1 of ECMA-262 a value that far out rounds to an infinity, since the tie goes to the
      even significand and 2^1024 counts as even. */
  const DOUBLE_OVERFLOW: nat := 179_769_313_486_231_580_793_728_971_405_303_415_079_934_132_710_037_826_936_173_778_980_444_968_292_764_750_946_649_017_977_587_207_096_330_286_416_692_887_910_946_555_547_851_940_402_630_657_488_671_505_820_681_908_902_000_708_383_676_273_854_845_817_711_531_764_475_730_270_069_855_571_366_959_622_842_914_819_860_834_936_475_292_719_074_168_444_365_510_704_342_711_559_699_508_093_042_880_177_904_174_497_792

  /** `Number.MAX_SAFE_INTEGER`, 2^53 - 1: every integer up to it is held exactly. */
  const MAX_SAFE_INTEGER: nat := 9_007_199_254_740_991

  /** The integer becomes a finite number (possibly rounded), not an infinity. */
  predicate FiniteNumber(n: int) {
    -(DOUBLE_OVERFLOW as int) < n < DOUBLE_OVERFLOW
  }

  /** `Number.isSafeInteger`: the number holds the integer exactly. */
  predicate SafeInteger(n: int) {
    -(MAX_SAFE_INTEGER as int) <= n <= MAX_SAFE_INTEGER
  }

  /** `JSON.stringify` of a number that came from `parseInt`: `NaN` (`None`) and the two
      infinities are written as `null`; every other value stays a number. */
  function JsonNumber(v: Option<int>): Option<int> {
    if v.Some? && FiniteNumber(v.value) then v else None
  }

  /** A safe integer goes out as itself, and `null` goes out exactly for `NaN` and the values
      too large for a double. */
  lemma JsonNumberCases(v: Option<int>)
    ensures JsonNumber(v).None? <==> v.None? || v.value <= -(DOUBLE_OVERFLOW as int) || DOUBLE_OVERFLOW <= v.value
    ensures v.Some? && SafeInteger(v.value) ==> JsonNumber(v) == v
  {
  }
}
