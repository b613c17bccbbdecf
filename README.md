# RecipeForum: a verified model of the recipe backend and its client screens

RecipeForum is a recipe-sharing app. An Express backend keeps users in a PostgreSQL table and
recipes in a MongoDB collection. A React Native client has sign-up, login, create-post and
detail screens, and a build script writes the client's API address. This project models the
rules of that core in Dafny and proves properties of them:

- **Backend** (`backend.dfy`, module `Backend`). The recipe schema (trimmed required title,
  difficulty enum with default `Easy`, `likes` 0, timestamps) and the routes to create, list,
  get and like recipes. The sign-up duplicate check and insert, and the login lookup with its
  reply shaping. Both stores are sequences held by one `Server` object whose methods update
  them. The invariant `Server.Valid` (titles trimmed and non-empty, required fields set, ids
  unique; usernames, emails and user ids unique) holds after every route.
- **Sign-up screen** (`signup.dfy`). The date field that inserts its own dashes, the
  15-step validation that reports the first failure, the body it posts, and how it reports
  the axios outcome.
- **Login screen** (`login.dfy`). The four checks, the `validateStatus` rule (every status
  below 500 is a response) and the classification of failures.
- **Create-post screen** (`createpost.dfy`). The form, the author taken from the logged-in
  user, the checks, the `parseInt` of the cooking time, and the alert shown for the reply.
- **Detail screens** (`presentation.dfy`). The difficulty colour, the "Unknown date" guard,
  which rows are shown, and the ownership check that gates the delete button.
- **API configuration script** (`apiconfig.dfy`). The interface search (priority names
  first, then every interface, then `localhost`), the URLs, and `getApiUrl`'s override.
- **Shared parts.** `wire.dfy` holds the JSON shapes that cross the network. `http.dfy` holds
  how axios turns a reply into a resolved response or a thrown error. `validation.dfy` holds
  the "first failing check" chain. `text.dfy` holds JavaScript string semantics: `trim`'s
  white-space set, `parseInt` with sign and `0x` prefix, `split`, and regex-like predicates.
  `bcrypt.dfy` is an abstract hash: `compare(p, hash(p))` holds, and for no other password.
- **End to end** (`endtoend.dfy`). What the backend makes of the bodies the screens send, and
  what the screens then show.

Some behaviour the model makes explicit:

- **Password length.** Sign-up and login check the password's length before trimming but
  send the trimmed password (`Signup.PasswordCheckedBeforeTrim`). A sign-up password of five
  spaces and `x` is accepted, and the account gets the one-character password `x`
  (`Signup.PasswordLengthCheckedBeforeTrim`).
- **Deleted-dash rule.** The date field's text never ends in `-`. So `formatDateInput`'s
  deleted-dash branch never runs on this screen (`Signup.DashRuleUnreachable`).
- **Difficulty Error alert.** The create-post screen only ever sends one of the three enum
  names. So its "Difficulty Error" alert cannot be caused by the backend modelled here
  (`EndToEnd.ScreenNeverGetsDifficultyError`).
- **Blank title.** A title of spaces passes the screen's check but fails the schema's
  trim-then-required rule with a 500 (`EndToEnd.BlankTitleFailsOnServer`).
- **Bad cooking time.** A cooking time `parseInt` reads as `NaN` (for example `"abc"`), as 0,
  or as a value too large for a double (an infinity, which `JSON.stringify` sends as `null`)
  is a missing field to the route: 400 (`EndToEnd.CookingTimeNotANumber`).

Inputs the source takes from its environment become parameters:

- the current date or instant (`today`, `now`, and the two readings `created` and `updated`
  that a recipe's two `Date.now` defaults take);
- bcrypt's salt;
- the network interface table;
- `process.env.PORT`;
- the date parser and locale of the detail screens;
- what the network delivered (`Http.Delivery`).

Three facts of the code shape what is modelled:

- **No delete route.** The backend defines no `DELETE /api/recipes/:id`. The post detail
  screen sends that request, but no route answers it, so the model has no delete route.
- **Schema failures are 500s.** Schema validation failures on create (blank title, unknown
  difficulty) come back as 500 with `details`. Only the handler's own falsy-field
  check gives 400, and that reply has no `details`.
- **No feed loader.** The code has no feed loader and no relative-time formatter. The forum
  screen is static text, so neither is modelled.

## Model

| member | source | states |
|---|---|---|
| `Text.Trim` | app/screens/LoginScreen.tsx:27-39 | `trim()` leaves no JavaScript white space at either end |
| `Text.TrimIsTrimStartThenEnd` | app/screens/LoginScreen.tsx:27-39 | `trim` is the same as removing the leading white space and then the trailing white space |
| `Text.TrimEmptyIff` | app/screens/SignupScreen.tsx:71-102 | `!s.trim()` holds exactly when `s` is all white space |
| `Text.Digits` | app/screens/SignupScreen.tsx:21 | `replace(/\D/g, '')` keeps only digits, no more than were there; a digit string is unchanged and a text without digits gives `""` (with `DigitsAppend`, the digits in order) |
| `Text.DigitsAppend` | app/screens/SignupScreen.tsx:21 | removing non-digits distributes over concatenation |
| `Text.WithoutSpaces` | app/screens/SignupScreen.tsx:146 | `replace(/\s/g, '')` leaves no white space; space-free text is unchanged and all-space text gives `""` |
| `Text.WithoutSpacesAppend` | app/screens/SignupScreen.tsx:146 | removing white space distributes over concatenation, so exactly the other characters are kept, in order |
| `Text.Split` | app/screens/SignupScreen.tsx:62 | `split('-')` gives at least one part and no part contains the separator |
| `Text.JoinSplit` | app/screens/SignupScreen.tsx:62 | joining the parts of a split with the separator gives the text back |
| `Text.ToLowerIdempotent` | app/screens/PostDetailScreen.tsx:88 | lower-casing twice is lower-casing once |
| `Text.ToLowerUnchanged` | app/screens/PostDetailScreen.tsx:88 | `toLowerCase` changes a text exactly when it holds a capital letter, and keeps every other character in place |
| `Text.ParseIntSigned` | app/screens/CreatePostScreen.tsx:72 | `parseInt` reads a leading `-` or `+` and then the unsigned number, negating it for `-`; no digits is `NaN` |
| `Text.ParseIntDecimalPrefix` | app/screens/CreatePostScreen.tsx:72 | a signed decimal numeral followed by anything that does not continue it parses to the numeral's value; the rest is ignored |
| `Text.ParseIntHexPrefix` | app/screens/CreatePostScreen.tsx:72 | `0x`/`0X` and hexadecimal digits, signed, parse to their base-16 value; the rest is ignored |
| `Text.ParseIntSkipsSpaces` | app/screens/CreatePostScreen.tsx:72 | leading white space does not change `parseInt`'s result |
| `Text.ParseIntDecimal` | app/screens/CreatePostScreen.tsx:72 | a plain digit string parses to its decimal value |
| `Wire.ParseDifficulty` | backend/index.js:48-52 | the enum accepts exactly `Easy`, `Medium`, `Hard`, and the accepted value names itself |
| `Wire.JsonNumberCases` | app/screens/CreatePostScreen.tsx:72 | the number sent is `null` exactly when `parseInt` gave `NaN` or a magnitude of at least 2^1024 - 2^970 (a double's infinity); a safe integer is sent unchanged |
| `Wire.SuccessField` | app/screens/LoginScreen.tsx:68 | `data.success` is true exactly for the success bodies of the routes (created, list, found, liked, successful auth) |
| `Http.Settle` | app/screens/LoginScreen.tsx:49-64 | a reply resolves exactly when `validateStatus` accepts its status; otherwise it is thrown with the reply attached; no reply is thrown with nothing attached |
| `Validation.FirstFailureAt` | app/screens/SignupScreen.tsx:68-152 | when checks before `k` pass and check `k` fails, the chain reports check `k`'s message |
| `Validation.FirstFailureNone` | app/screens/SignupScreen.tsx:68-152 | the chain reports nothing exactly when every check passes |
| `Validation.FirstFailureAppend` | app/screens/SignupScreen.tsx:68-152 | a chain of two parts reports the first part's failure, else the second's |
| `Bcrypt.Hash` | backend/index.js:126-128 | the stored hash compares equal to its own password and to no other |
| `Backend.SchemaErrors` | backend/index.js:25-77 | the schema rejects nothing exactly when the trimmed title is non-empty and the difficulty is in the enum |
| `Backend.JoinErrorsKeepsLast` | backend/index.js:269-276 | the validation message contains whatever the last path error contains |
| `Backend.DifficultyRejectionNamed` | backend/index.js:48-52 | an out-of-enum difficulty is named (`difficulty`) in the error's message, whatever else fails |
| `Backend.Admit` | backend/index.js:242-260 | 400 with the missing-fields text exactly when a required key is falsy; otherwise 500 exactly for a blank title or an unknown difficulty, with details naming the difficulty; otherwise the fields stored are those sent, title trimmed, lists defaulting to empty and difficulty to `Easy` |
| `Backend.AppendKeepsWellFormed` | backend/index.js:248-260 | saving a document that satisfies the schema with a fresh id keeps the collection well formed |
| `Backend.LikeKeepsWellFormed` | backend/index.js:325-329 | incrementing one document's `likes` keeps the collection well formed |
| `Backend.InsertNewestFirst` | backend/index.js:282 | inserting into a newest-first list keeps it newest first and adds exactly that document |
| `Backend.SortNewestFirst` | backend/index.js:282 | `sort({ createdAt: -1 })` is newest first and a permutation of the collection |
| `Backend.CastObjectIdRoundTrip` | backend/index.js:301 | an id written as 24 lower-case hexadecimal digits casts back to that id |
| `Backend.CastObjectIdIgnoresCase` | backend/index.js:301 | the cast gives the same result whatever the letter case of the hexadecimal digits |
| `Backend.FindRecipe` | backend/index.js:301-307 | the position found holds that id; nothing is found exactly when no document has it |
| `Backend.NewUser` | backend/index.js:110-134 | the inserted row's hash matches the password, and `points` defaults to 0 |
| `Backend.LoginView` | backend/index.js:193-203 | the login user object drops the password and adds `dateOfBirth = dob`, `points = point` |
| `Backend.FindUser` | backend/index.js:169-181 | the first row with that username, or none exactly when no row has it |
| `Backend.LoginFailureIsUniform` | backend/index.js:174-191 | every failed login is the same 401 reply; success exactly when the first row with that username has a matching password |
| `Backend.LoginSuccessShape` | backend/index.js:193-204 | a successful login carries the matching row's profile without its password |
| `Backend.SignupThenLogin` | backend/index.js:109-212 | after a sign-up without a clash, logging in with the same credentials succeeds with the new profile |
| `Backend.Server.CreateRecipe` | backend/index.js:227-277 | a rejected body leaves the store unchanged; an accepted one appends exactly the stored document (fresh id, `likes` 0, `createdAt` and `updatedAt` each its own clock reading) and returns it with 201 |
| `Backend.Server.ListRecipes` | backend/index.js:280-296 | 200 with every document, newest first, and `count` equal to their number |
| `Backend.Server.GetRecipe` | backend/index.js:299-320 | a malformed id gives 500 with the cast error; a well-formed one gives 200 with the one document holding that id (ids are unique), or 404 `Recipe not found` when none does |
| `Backend.Server.LikeRecipe` | backend/index.js:323-351 | an existing id has its `likes` raised by exactly one, nothing else changes, and the new count is returned; otherwise 404 or 500 and no change |
| `Backend.SignupReplyShape` | backend/index.js:109-161 | 400 with "Username or email already exists" exactly on a clash; otherwise 201 with the new row's id, username, email and `dob` (the body's text, under the text-column reading below) |
| `Backend.Server.Signup` | backend/index.js:109-161 | the reply is `SignupReply` on the table before; a clash inserts nothing; otherwise exactly one row is appended and the next user id advances by one |
| `Backend.Server.Login` | backend/index.js:164-212 | the reply is 200 with the profile or the single 401 reply, and `success` matches the status |
| `Signup.FormatKeepsDigits` | app/screens/SignupScreen.tsx:39-51 | the formatted date holds exactly the first eight digits, with dashes added |
| `Signup.FormatDashes` | app/screens/SignupScreen.tsx:39-51 | at most 10 characters, dashes only after day and month, each once its digits are there, never last |
| `Signup.FormatComplete` | app/screens/SignupScreen.tsx:39-51 | eight or more digits give a full `DD-MM-YYYY` |
| `Signup.FormatDateStringFormatted` | app/screens/SignupScreen.tsx:39-51 | formatting is idempotent: formatted text reformats to itself |
| `Signup.FormatDateInputFormatted` | app/screens/SignupScreen.tsx:19-37 | whatever is typed over whatever was shown, the field shows formatted text |
| `Signup.DashRuleUnreachable` | app/screens/SignupScreen.tsx:23-33 | over formatted text the deleted-dash branch never applies: the field shows the formatting of the digits typed |
| `Signup.SplitDate` | app/screens/SignupScreen.tsx:62 | a `DD-MM-YYYY` text splits into day, month and year |
| `Signup.ConvertReordersDate` | app/screens/SignupScreen.tsx:59-66 | `DD-MM-YYYY` becomes `YYYY-MM-DD`, still ten characters |
| `Signup.ConvertWithoutDashes` | app/screens/SignupScreen.tsx:59-66 | ten characters without dashes come out with two `undefined` parts in front |
| `Signup.DaysInMonth` | app/screens/SignupScreen.tsx:119-127 | 29 days exactly for February of a leap year, 28 exactly for other Februaries, 30 exactly for April, June, September and November, and 31 otherwise |
| `Signup.EmailPatternTrimmed` | app/screens/SignupScreen.tsx:104-109 | an address the email pattern accepts is non-empty and has nothing to trim |
| `Signup.SignupAcceptedIff` | app/screens/SignupScreen.tsx:68-152 | the checks pass exactly when the trimmed username has three characters, the email matches the pattern, the password is not blank, has six characters and equals its confirmation, the birth date is a real past day 13 to 120 years back, and the phone has 10 to 15 digits |
| `Signup.AcceptedPayload` | app/screens/SignupScreen.tsx:154-166 | an accepted form sends its email as typed, the date as `YYYY-MM-DD`, 10 to 15 phone digits, a trimmed username of three or more characters, a non-empty password and 0 points |
| `Signup.PasswordCheckedBeforeTrim` | app/screens/SignupScreen.tsx:83-162 | in an otherwise acceptable form, a password is accepted exactly when it has at least six characters before trimming and is not blank, and its trim is what is sent |
| `Signup.PasswordLengthCheckedBeforeTrim` | app/screens/SignupScreen.tsx:83-162 | illustration of `PasswordCheckedBeforeTrim`: five spaces and `x` pass the six-character rule, and `x` is the password sent |
| `Signup.SignupOutcomeReports` | app/screens/SignupScreen.tsx:168-184 | success exactly for a resolved `success: true`; otherwise a non-empty line, the server's message first |
| `Signup.SignupScreen.constructor` | app/screens/SignupScreen.tsx:10-17 | every field empty, not loading |
| `Signup.SignupScreen.Edit` | app/screens/SignupScreen.tsx:200-277 | typing stores the text in that field only and clears the error |
| `Signup.SignupScreen.HandleDateChange` | app/screens/SignupScreen.tsx:53-57 | for the at most ten characters the field admits, the date field becomes the formatting of the digits typed and the error is cleared |
| `Signup.SignupScreen.ValidateForm` | app/screens/SignupScreen.tsx:68-152 | the result is whether every check passes, and the error line is the first failure's message |
| `Signup.SignupScreen.CheckFilledIn` | app/screens/SignupScreen.tsx:69-102 | the eight filled-in checks, first failure reported |
| `Signup.SignupScreen.CheckFormats` | app/screens/SignupScreen.tsx:104-151 | the seven format and calendar checks, first failure reported |
| `Signup.SignupScreen.SubmitSignup` | app/screens/SignupScreen.tsx:154-166 | a body is sent exactly for an acceptable form, it is the trimmed payload, and loading starts exactly then |
| `Signup.SignupScreen.CompleteSignup` | app/screens/SignupScreen.tsx:168-187 | loading ends; the created alert or the outcome's error line |
| `Login.LoginAcceptedIff` | app/screens/LoginScreen.tsx:23-42 | the four checks pass exactly for a trimmed username of three characters and a non-blank password of six |
| `Login.LoginFailureExplained` | app/screens/LoginScreen.tsx:68-97 | navigation exactly for a resolved `success: true`; every failure shows a non-empty line |
| `Login.ReplyBelow500` | app/screens/LoginScreen.tsx:56-78 | a reply below 500 is never an exception: its own message or "Login failed" |
| `Login.ReplyFrom500` | app/screens/LoginScreen.tsx:56-97 | a reply from 500 up shows the server's message, else "Connection error: " and the status message |
| `Login.StatusErrorClassified` | app/screens/LoginScreen.tsx:85-97 | a 5xx error without "timeout" shows the server's message, else "Connection error: " and the error's own message |
| `Login.NoTimeoutInStatusMessage` | app/screens/LoginScreen.tsx:85 | axios's status message never contains "timeout" |
| `Login.TimeoutFirst` | app/screens/LoginScreen.tsx:85-86 | `ECONNABORTED` is reported as a timeout whatever else the error carries |
| `Login.LoginScreen.constructor` | app/screens/LoginScreen.tsx:18-21 | both fields and the error empty, not loading |
| `Login.LoginScreen.Edit` | app/screens/LoginScreen.tsx:124-140 | typing stores the text; the error is cleared only by non-blank text |
| `Login.LoginScreen.SubmitLogin` | app/screens/LoginScreen.tsx:23-64 | the trimmed body is sent exactly for an acceptable form, loading starts exactly then, and the error line is the first failure's message |
| `Login.LoginScreen.CompleteLogin` | app/screens/LoginScreen.tsx:66-100 | loading ends; the outcome of the reply under `status < 500`, shown in the error line when it is a failure |
| `CreatePost.StartPostSends` | app/screens/CreatePostScreen.tsx:52-79 | a post is sent exactly when the four fields are filled in and a user is loaded, carrying the form as typed with empty lists and the cooking time as `JSON.stringify` writes `parseInt` of it |
| `CreatePost.PostOutcomeKinds` | app/screens/CreatePostScreen.tsx:92-126 | the success alert exactly for `success: true`, the difficulty alert exactly for details naming `difficulty`, never an empty message |
| `CreatePost.CreatePostScreen.constructor` | app/screens/CreatePostScreen.tsx:18-28 | empty form with difficulty `Easy`, no user, not posting |
| `CreatePost.CreatePostScreen.LoadUser` | app/screens/CreatePostScreen.tsx:30-46 | a parsed user becomes the author and email; an unparseable one raises the load alert and changes nothing |
| `CreatePost.CreatePostScreen.Edit` | app/screens/CreatePostScreen.tsx:150-182 | typing stores the text in that field only; the difficulty stays in the enum |
| `CreatePost.CreatePostScreen.SelectDifficulty` | app/screens/CreatePostScreen.tsx:190-221 | the buttons set one of the three enum names |
| `CreatePost.CreatePostScreen.BeginPost` | app/screens/CreatePostScreen.tsx:52-79 | the checks' result; posting stays on exactly when a body is sent, whose difficulty is in the enum and whose author is the user |
| `CreatePost.CreatePostScreen.FinishPost` | app/screens/CreatePostScreen.tsx:84-129 | the alert for the reply, naming the difficulty of the body that was sent, back to the forum exactly on success, posting ends |
| `Presentation.DifficultyColorCases` | app/screens/PostDetailScreen.tsx:87-98 | green exactly for "easy" in any case, red exactly for "hard", orange for everything else |
| `Presentation.DifficultyColorIgnoresCase` | app/screens/RecipeDetailScreen.tsx:84-95 | any spelling of an enum name in other letter case gets that difficulty's colour |
| `Presentation.FormatDateUnknownIff` | app/screens/PostDetailScreen.tsx:59-85 | "Unknown date" exactly for a missing, empty or unparseable date |
| `Presentation.PostDetailShape` | app/screens/PostDetailScreen.tsx:149-225 | "Post not found" exactly without a recipe; the delete button exactly for the owner by exact email; the difficulty row exactly for a non-empty difficulty, in its colour |
| `Presentation.DetailViewsAgree` | app/screens/RecipeDetailScreen.tsx:97-165 | both screens show the same card; only the delete button and the not-found text differ |
| `Presentation.OwnerEmailIsCaseSensitive` | app/screens/PostDetailScreen.tsx:149 | illustration of the exact comparison in `PostDetailShape`: the same address in different letter case is not the owner's |
| `Presentation.DeletePromptGuarded` | app/screens/PostDetailScreen.tsx:100-106 | the confirmation exactly when recipe and user are both present, always when the button is shown, and it names the post |
| `ApiConfig.Lookup` | scripts/generateApiConfig.js:13 | the interface found is in the table under that name; none exactly when no key has it |
| `ApiConfig.FirstQualifying` | scripts/generateApiConfig.js:14-19 | the address of the first external IPv4 entry in list order, none exactly when there is no such entry |
| `ApiConfig.GetLocalIPAddress` | scripts/generateApiConfig.js:5-35 | the nested loops return the priority interfaces' first qualifying address, else the first over all interfaces, else `localhost` |
| `ApiConfig.FromAllIsFirstOverall` | scripts/generateApiConfig.js:23-31 | the fallback loop finds the first qualifying entry of the whole table |
| `ApiConfig.ChooseAddressQualifies` | scripts/generateApiConfig.js:5-35 | `localhost` when nothing qualifies; otherwise the address of a qualifying entry |
| `ApiConfig.PriorityWins` | scripts/generateApiConfig.js:8-21 | the first priority interface with a qualifying entry wins over later ones and over every other interface |
| `ApiConfig.ApiUrlReadsBack` | scripts/generateApiConfig.js:45 | `http://ip:port` gives back its host and port |
| `ApiConfig.GeneratedConfigAgrees` | scripts/generateApiConfig.js:37-80 | as generated, `getApiUrl`, `API_BASE_URL` and the returned URL agree; the port is `PORT` or 3001 |
| `ApiConfig.GeneratedUrlPointsAtAddress` | scripts/generateApiConfig.js:37-56 | the generated `getApiUrl` points at the address chosen and at `PORT` or 3001, and at `localhost` when nothing qualifies |
| `EndToEnd.BlankTitleRejection` | backend/index.js:26-30 | a blank title with an enum difficulty fails the save on the title alone |
| `EndToEnd.TitleOnlyDetailsNoDifficulty` | app/screens/CreatePostScreen.tsx:114 | the title-only validation message does not contain "difficulty" |
| `EndToEnd.ScreenNeverGetsDifficultyError` | app/screens/CreatePostScreen.tsx:113-121 | a screen body is never rejected for its difficulty, so the difficulty alert does not follow from this backend |
| `EndToEnd.BlankTitleFailsOnServer` | app/screens/CreatePostScreen.tsx:57-121 | a title of spaces (with a finite cooking time) passes the screen, fails the save with 500, and the screen shows "Failed to post recipe" |
| `EndToEnd.CookingTimeNotANumber` | app/screens/CreatePostScreen.tsx:57-72 | a cooking time parsed as `NaN`, 0 or beyond a double's range is a missing field: 400 and the route's text shown |
| `EndToEnd.LettersAreNotACookingTime` | app/screens/CreatePostScreen.tsx:72 | illustration of `CookingTimeNotANumber`'s `NaN` case: `parseInt("abc")` is `NaN` |
| `EndToEnd.CompleteFormIsStored` | app/screens/CreatePostScreen.tsx:69-111 | a complete form whose cooking time is a non-zero safe integer is stored as typed (title trimmed, the user as author, empty lists, 0 likes) and the success alert follows |
| `EndToEnd.LoginRoundTrip` | app/screens/LoginScreen.tsx:61-78 | a login either navigates with the route's profile or shows "Invalid username or password" |
| `EndToEnd.SignupClashShown` | app/screens/SignupScreen.tsx:168-184 | for the route's reply to the body the screen posts, a clash shows "Username or email already exists", and the account-created alert follows exactly when there is no clash |
| `EndToEnd.SignupThenLoginOnScreens` | app/screens/SignupScreen.tsx:159-166 | signing up and then logging in with the same typed credentials logs in with the new profile (its `dob` the text sent, under the text-column reading below), 0 points |

## Left out

- **Database drivers.** PostgreSQL and MongoDB are sequences in `Backend.Server`. A store
  failure is never modelled, so these replies are absent:
  - the 500 `Internal server error` of sign-up and login;
  - the 500 `Failed to fetch recipes` of the list route.
- **Welcome email and the other routes.** The welcome email after sign-up is a foreign
  call. `/api/users`, `/api/debug-db`, the `created_at` column migration and `listen` are
  outside the modelled routes.
- `Bcrypt.Hash`: the hash is collision-free, so only the password itself matches. Real
  bcrypt reads only the first 72 bytes of a password, so two passwords that share those
  bytes both match. That truncation, the cost factor and the salt format are not modelled.
- **Concurrent likes.** `$inc` is one sequential increment. Concurrency of requests is not
  modelled.
- **ObjectId casting.** Ids are naturals, and a route parameter casts only as 24 hex digits.
  The 12-character binary strings some driver versions also accept are not modelled.
- **Types in the JSON body.** Each key of a request body is the type the screens send, or
  absent. Other types, which mongoose would cast or reject, are not modelled. An example is
  a string `cookingTime` from another client.
- **Deleting posts.** The delete request of the post detail screen and its reply handling
  are left out, because the backend defines no delete route.
- **Locale.** `toLocaleDateString`, `toLocaleTimeString` and `new Date(string)` are a
  parameter of `Presentation.FormatDate`. Only the day digits of the shown date are relied on.
- **UI and navigation.** Navigation, alerts' buttons, styles and React rendering appear only
  as return values and the `View`/`Card` data. The static screens are not modelled.
- **Routes' messages.** Screens receive the route's reply or a failure with an error code
  and message (`Http.Delivery`). The 10-second timeout appears only as the `ECONNABORTED`
  code it produces.
- **Unicode.** Lengths count Unicode scalar values, not UTF-16 code units. `toLowerCase` is
  modelled on ASCII letters, which decides the three difficulty names the same way.
- **The script's side effects.** File writing, console output and the generation
  timestamp of the configuration script are left out. Interface keys are taken in the
  order given. JavaScript's integer-like-keys-first enumeration and Node's numeric `family`
  (older Node 18 releases) are not modelled.
- `Backend.SignupReplyShape`: the `users` table's column types are not part of the code.
  `dob` is modelled as a text column returned exactly as sent, and `point` as an integer. If
  `dob` is a `DATE` column, node-postgres returns a `Date` and the JSON reply carries an ISO
  timestamp instead. The same reading underlies `Backend.LoginView` and
  `EndToEnd.SignupThenLoginOnScreens`.
- `Text.ParseInt`: the model gives the exact integer the digits denote. JavaScript's
  `parseInt` gives the nearest double, so above 2^53 it rounds ("9007199254740993" gives
  9007199254740992), and past 20 significant digits an implementation may treat the rest as
  zeros. Only the overflow to an infinity is modelled, where `Wire.JsonNumber` sends `null`.
  `EndToEnd.CompleteFormIsStored` is therefore stated for safe integers only.
- `Text.ParseIntDecimalPrefix`: the value is exact as above. It is the JavaScript result only
  for magnitudes up to 2^53 - 1.
- `Text.ParseIntHexPrefix`: the value is exact as above. It is the JavaScript result only for
  magnitudes up to 2^53 - 1.
- `Text.ParseIntDecimal`: the value is exact as above. It is the JavaScript result only for
  values up to 2^53 - 1.
- `Login.ClassifyLoginError`: an error without a `message` would make `err.message.includes`
  throw. The model always has a message string, empty when absent.
