/** The two read-only detail screens, post detail and recipe detail: the colour of the
    difficulty, the date line, which rows are shown, and on the post detail screen the
    ownership check that shows the delete button and guards the delete confirmation. */
module Presentation {
  import opened Text
  import opened Wire

  const GREEN := "#4CAF50"
  const ORANGE := "#ff6b35"
  const RED := "#F44336"
  const UNKNOWN_DATE := "Unknown date"
  const POST_NOT_FOUND := "Post not found"
  const RECIPE_NOT_FOUND := "Recipe not found"

  /** `getDifficultyColor`: a switch on the lower-cased name, medium's orange by default. */
  function DifficultyColor(difficulty: string): string {
    var key := ToLower(difficulty);
    if key == "easy" then GREEN
    else if key == "medium" then ORANGE
    else if key == "hard" then RED
    else ORANGE
  }

  /** Green is exactly the spellings of "easy", red exactly those of "hard", and everything
      else, "medium" included, is orange. */
  lemma DifficultyColorCases(difficulty: string)
    ensures DifficultyColor(difficulty) == GREEN <==> ToLower(difficulty) == "easy"
    ensures DifficultyColor(difficulty) == RED <==> ToLower(difficulty) == "hard"
    ensures DifficultyColor(difficulty) == ORANGE <==>
              ToLower(difficulty) != "easy" && ToLower(difficulty) != "hard"
  {
    assert GREEN[1] == '4' && ORANGE[1] == 'f' && RED[1] == 'F';
  }

  function ColorOf(d: Difficulty): string {
    match d
    case Easy => GREEN
    case Medium => ORANGE
    case Hard => RED
  }

  /** The comparison ignores case: any spelling whose letters lower-case to one of the schema's
      names gets that difficulty's colour. */
  lemma DifficultyColorIgnoresCase(difficulty: string, d: Difficulty)
    requires ToLower(difficulty) == ToLower(DifficultyName(d))
    ensures DifficultyColor(difficulty) == ColorOf(d)
  {
    var name := DifficultyName(d);
    match d {
      case Easy =>
        assert ToLower(name) == "easy" by {
          assert forall i :: 0 <= i < |name| ==> ToLower(name)[i] == "easy"[i];
        }
      case Medium =>
        assert ToLower(name) == "medium" by {
          assert forall i :: 0 <= i < |name| ==> ToLower(name)[i] == "medium"[i];
        }
      case Hard =>
        assert ToLower(name) == "hard" by {
          assert forall i :: 0 <= i < |name| ==> ToLower(name)[i] == "hard"[i];
        }
    }
  }

  /** What a valid `Date` shows: `getDate()`, the short month name, `getFullYear()` and the
      24-hour time. The month name and the time come from the locale. */
  datatype DateParts = DateParts(day: nat, month: string, year: int, time: string)

  function YearString(y: int): string {
    if y < 0 then "-" + NatToString(-y) else NatToString(y)
  }

  function ShowDate(p: DateParts): string {
    NatToString(p.day) + " " + p.month + " " + YearString(p.year) + " | " + p.time
  }

  /** `formatDate`. `parse` stands for `new Date(...)`: `None` is a date whose time is `NaN`. */
  function FormatDate(dateString: Option<string>, parse: string -> Option<DateParts>): string {
    if dateString.None? || dateString.value == "" then UNKNOWN_DATE
    else match parse(dateString.value)
      case None => UNKNOWN_DATE
      case Some(p) => ShowDate(p)
  }

  /** "Unknown date" is shown exactly for a missing, empty or unparseable date: a shown date
      starts with the digits of the day. */
  lemma FormatDateUnknownIff(dateString: Option<string>, parse: string -> Option<DateParts>)
    ensures FormatDate(dateString, parse) == UNKNOWN_DATE <==>
      dateString.None? || dateString.value == "" || parse(dateString.value).None?
    ensures dateString.Some? && dateString.value != "" && parse(dateString.value).Some? ==>
      FormatDate(dateString, parse) == ShowDate(parse(dateString.value).value)
  {
    if dateString.Some? && dateString.value != "" && parse(dateString.value).Some? {
      var p := parse(dateString.value).value;
      var day := NatToString(p.day);
      assert ShowDate(p)[0] == day[0];
      assert IsDigit(day[0]);
      assert UNKNOWN_DATE[0] == 'U';
    }
  }

  /** The recipe object a detail screen gets as its `recipe` parameter; `createdAt` is its
      `created_at` key. `None` stands for an absent parameter or one that is not JSON. */
  datatype DetailRecipe = DetailRecipe(
    id: nat,
    title: string,
    description: string,
    cookingTime: string,
    category: string,
    difficulty: Option<string>,
    author: string,
    authorEmail: string,
    createdAt: Option<string>)

  /** `isOwner`: both objects are there and the emails are the same string, case included. */
  predicate IsOwner(user: Option<UserView>, recipe: Option<DetailRecipe>) {
    user.Some? && recipe.Some? && user.value.email == recipe.value.authorEmail
  }

  /** `recipe.difficulty &&`: the difficulty row needs a non-empty string. */
  predicate ShowsDifficulty(r: DetailRecipe) {
    r.difficulty.Some? && r.difficulty.value != ""
  }

  /** A difficulty row: the text and its colour. */
  datatype DifficultyRow = DifficultyRow(text: string, color: string)

  /** The recipe card, row by row. */
  datatype Card = Card(
    title: string,
    category: string,
    cookingTime: string,
    difficulty: Option<DifficultyRow>,
    author: string,
    posted: string,
    description: string,
    deleteButton: bool)

  datatype View = NotFoundView(message: string) | CardView(card: Card)

  function RecipeCard(r: DetailRecipe, parse: string -> Option<DateParts>, deleteButton: bool): Card {
    Card(r.title, r.category, r.cookingTime + " minutes",
         if ShowsDifficulty(r) then Some(DifficultyRow(r.difficulty.value, DifficultyColor(r.difficulty.value)))
         else None,
         r.author, FormatDate(r.createdAt, parse), r.description, deleteButton)
  }

  /** What the post detail screen renders. */
  function PostDetailView(recipe: Option<DetailRecipe>, user: Option<UserView>,
                          parse: string -> Option<DateParts>): View {
    if recipe.None? then NotFoundView(POST_NOT_FOUND)
    else CardView(RecipeCard(recipe.value, parse, IsOwner(user, recipe)))
  }

  /** What the recipe detail screen renders: the same card, never with a delete button. */
  function RecipeDetailView(recipe: Option<DetailRecipe>, parse: string -> Option<DateParts>): View {
    if recipe.None? then NotFoundView(RECIPE_NOT_FOUND)
    else CardView(RecipeCard(recipe.value, parse, false))
  }

  /** The post detail screen: "Post not found" without a recipe; otherwise a card whose delete
      button is there exactly for the owner and whose difficulty row is there exactly for a
      non-empty difficulty, in its colour. */
  lemma PostDetailShape(recipe: Option<DetailRecipe>, user: Option<UserView>,
                        parse: string -> Option<DateParts>)
    ensures PostDetailView(recipe, user, parse).NotFoundView? <==> recipe.None?
    ensures recipe.None? ==> PostDetailView(recipe, user, parse).message == POST_NOT_FOUND
    ensures recipe.Some? ==>
      var c := PostDetailView(recipe, user, parse).card;
      && (c.deleteButton <==> user.Some? && user.value.email == recipe.value.authorEmail)
      && (c.difficulty.Some? <==> ShowsDifficulty(recipe.value))
      && (c.difficulty.Some? ==> c.difficulty.value.text == recipe.value.difficulty.value
                                 && c.difficulty.value.color == DifficultyColor(recipe.value.difficulty.value))
      && c.title == recipe.value.title && c.author == recipe.value.author
      && c.posted == FormatDate(recipe.value.createdAt, parse)
  {
  }

  /** The two screens show the same card for the same recipe; only the delete button and the
      not-found text differ. */
  lemma DetailViewsAgree(recipe: Option<DetailRecipe>, user: Option<UserView>,
                         parse: string -> Option<DateParts>)
    ensures PostDetailView(recipe, user, parse).NotFoundView? == RecipeDetailView(recipe, parse).NotFoundView?
    ensures recipe.Some? ==>
      PostDetailView(recipe, user, parse).card ==
        RecipeDetailView(recipe, parse).card.(deleteButton := IsOwner(user, recipe))
    ensures recipe.Some? ==> !RecipeDetailView(recipe, parse).card.deleteButton
    ensures recipe.None? ==> RecipeDetailView(recipe, parse).message == RECIPE_NOT_FOUND
  {
  }

  /** The ownership check is case-sensitive: the same address in other letters is not the
      owner's. */
  lemma OwnerEmailIsCaseSensitive(u: UserView, r: DetailRecipe)
    requires u.email == "Cook@example.com" && r.authorEmail == "cook@example.com"
    ensures !IsOwner(Some(u), Some(r))
    ensures PostDetailView(Some(r), Some(u), (s: string) => None).card.deleteButton == false
  {
    assert u.email[0] != r.authorEmail[0];
  }

  /** The confirmation `handleDelete` raises. */
  datatype Confirm = Confirm(title: string, message: string)

  function DeletePrompt(recipe: Option<DetailRecipe>, user: Option<UserView>): Option<Confirm> {
    if recipe.None? || user.None? then None
    else Some(Confirm("Delete Post",
                      "Are you sure you want to delete \"" + recipe.value.title
                      + "\"? This action cannot be undone."))
  }

  /** `handleDelete` does nothing without both objects, and the button that calls it is only
      there when it asks for confirmation, naming the post. */
  lemma DeletePromptGuarded(recipe: Option<DetailRecipe>, user: Option<UserView>,
                            parse: string -> Option<DateParts>)
    ensures DeletePrompt(recipe, user).Some? <==> recipe.Some? && user.Some?
    ensures PostDetailView(recipe, user, parse).CardView?
            && PostDetailView(recipe, user, parse).card.deleteButton ==>
              DeletePrompt(recipe, user).Some?
    ensures DeletePrompt(recipe, user).Some? ==>
      Contains(DeletePrompt(recipe, user).value.message, recipe.value.title)
  {
    if recipe.Some? && user.Some? {
      var t := recipe.value.title;
      var before := "Are you sure you want to delete \"";
      var after := "\"? This action cannot be undone.";
      assert DeletePrompt(recipe, user).value.message == before + t + after;
      ContainsInfix(before, t, after);
    }
  }
}
