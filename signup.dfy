/** The sign-up screen: a date-of-birth field that writes its own dashes, the ordered
    validation of the form, the request it sends and how it reports the outcome. */
module Signup {
  import opened Text
  import opened Wire
  import opened Http
  import opened Validation

  // ----- The date-of-birth field -----

  /** `formatDateString`: at most eight digits, written as `DD`, `DD-M…` or `DD-MM-Y…`. */
  function FormatDateString(numbers: string): string {
    var limited := Prefix(numbers, 8);
    if |limited| >= 5 then limited[..2] + "-" + limited[2..4] + "-" + limited[4..]
    else if |limited| >= 3 then limited[..2] + "-" + limited[2..]
    else limited
  }

  /** `/^\d{2}-\d{2}-\d{4}$/`. */
  predicate DatePattern(s: string) {
    && |s| == 10
    && AllDigits(s[..2]) && s[2] == '-'
    && AllDigits(s[3..5]) && s[5] == '-'
    && AllDigits(s[6..])
  }

  /** Text the field can display: the formatting of its own digits. */
  predicate Formatted(s: string) {
    s == FormatDateString(Digits(s))
  }

  /** A dash between two texts contributes no digit. */
  lemma DigitsAroundDash(a: string, b: string)
    ensures Digits(a + "-" + b) == Digits(a) + Digits(b)
  {
    var dash: string := "-";
    assert Digits(dash) == [] by {
      assert !IsDigit(dash[0]) && dash[1..] == [];
    }
    DigitsAppend(a, dash);
    DigitsAppend(a + dash, b);
    assert Digits(a + dash) == Digits(a);
  }

  /** Digits joined by one dash keep only the digits. */
  lemma DigitsOneDash(a: string, b: string)
    requires AllDigits(a) && AllDigits(b)
    ensures Digits(a + "-" + b) == a + b
  {
    DigitsAroundDash(a, b);
  }

  /** Digits joined by two dashes keep only the digits. */
  lemma DigitsTwoDashes(a: string, b: string, c: string)
    requires AllDigits(a) && AllDigits(b) && AllDigits(c)
    ensures Digits(a + "-" + b + "-" + c) == a + b + c
  {
    DigitsAroundDash(a + "-" + b, c);
    DigitsOneDash(a, b);
  }

  /** The formatter keeps the digits, the first eight of them, and adds only dashes. */
  lemma FormatKeepsDigits(numbers: string)
    requires AllDigits(numbers)
    ensures Digits(FormatDateString(numbers)) == Prefix(numbers, 8)
  {
    var limited := Prefix(numbers, 8);
    assert AllDigits(limited);
    if |limited| >= 5 {
      var a, b, c := limited[..2], limited[2..4], limited[4..];
      DigitsTwoDashes(a, b, c);
      assert a + b + c == limited;
    } else if |limited| >= 3 {
      var a, b := limited[..2], limited[2..];
      DigitsOneDash(a, b);
      assert a + b == limited;
    }
  }

  /** Dashes stand only after the day and after the month, each once its digits are complete,
      and never last. */
  lemma FormatDashes(numbers: string)
    requires AllDigits(numbers)
    ensures var r := FormatDateString(numbers);
      && |r| <= 10
      && !EndsWith(r, '-')
      && (forall i :: 0 <= i < |r| && r[i] == '-' ==> i == 2 || i == 5)
      && (|numbers| >= 3 ==> r[2] == '-')
      && (|numbers| >= 5 ==> r[5] == '-')
  {
    var limited := Prefix(numbers, 8);
    assert forall i :: 0 <= i < |limited| ==> limited[i] != '-';
    var r := FormatDateString(numbers);
    if |limited| >= 5 {
      assert r == limited[..2] + "-" + limited[2..4] + "-" + limited[4..];
      assert forall i :: 0 <= i < |r| && i != 2 && i != 5 ==> r[i] == limited[if i < 2 then i else if i < 5 then i - 1 else i - 2];
    } else if |limited| >= 3 {
      assert r == limited[..2] + "-" + limited[2..];
      assert forall i :: 0 <= i < |r| && i != 2 ==> r[i] == limited[if i < 2 then i else i - 1];
    }
  }

  /** Eight digits make a full DD-MM-YYYY. */
  lemma FormatComplete(numbers: string)
    requires AllDigits(numbers) && |numbers| >= 8
    ensures DatePattern(FormatDateString(numbers))
  {
    var limited := Prefix(numbers, 8);
    assert AllDigits(limited);
    var r := limited[..2] + "-" + limited[2..4] + "-" + limited[4..];
    assert r[..2] == limited[..2] && r[3..5] == limited[2..4] && r[6..] == limited[4..];
  }

  /** Formatting is a projection: what it writes is displayable text. */
  lemma FormatDateStringFormatted(numbers: string)
    requires AllDigits(numbers)
    ensures Formatted(FormatDateString(numbers))
  {
    FormatKeepsDigits(numbers);
    var limited := Prefix(numbers, 8);
    assert Prefix(limited, 8) == limited;
  }

  /** `formatDateInput(text, previousText)`: the new text of the field after the user edits it.
      When the text got shorter and a trailing dash was deleted, the digit before it goes too. */
  function FormatDateInput(text: string, previous: string): string
    decreases |previous|
  {
    var numbers := Digits(text);
    if |text| < |previous| then
      if EndsWith(previous, '-') && !EndsWith(text, '-') then
        FormatDateInput(DropLast(Digits(previous)), "")
      else FormatDateString(numbers)
    else FormatDateString(numbers)
  }

  /** Whatever is typed over whatever was shown, the field shows formatted text. */
  lemma FormatDateInputFormatted(text: string, previous: string)
    ensures Formatted(FormatDateInput(text, previous))
  {
    if |text| < |previous| && EndsWith(previous, '-') && !EndsWith(text, '-') {
      FormatDateStringFormatted(Digits(DropLast(Digits(previous))));
    } else {
      FormatDateStringFormatted(Digits(text));
    }
  }

  /** Formatted text never ends with a dash, so on this screen the deleted-dash rule never
      applies: the field always shows the formatting of the digits typed. */
  lemma DashRuleUnreachable(text: string, previous: string)
    requires Formatted(previous)
    ensures FormatDateInput(text, previous) == FormatDateString(Digits(text))
  {
    FormatDashes(Digits(previous));
  }

  /** `ddmmyyyy.split('-')` destructured; a missing part reads as `undefined`. */
  function Part(parts: seq<string>, k: nat): string {
    if k < |parts| then parts[k] else "undefined"
  }

  /** `convertDateForBackend`: a ten-character text is split at its dashes and its first three
      parts are written in reverse order; any other length is passed unchanged. */
  function ConvertDateForBackend(s: string): string {
    if |s| == 10 then
      var parts := Split(s, '-');
      Part(parts, 2) + "-" + Part(parts, 1) + "-" + Part(parts, 0)
    else s
  }

  /** A DD-MM-YYYY text splits into day, month and year. */
  lemma SplitDate(s: string)
    requires DatePattern(s)
    ensures Split(s, '-') == [s[..2], s[3..5], s[6..]]
  {
    var a, b, c := s[..2], s[3..5], s[6..];
    assert '-' !in a && '-' !in b && '-' !in c by {
      assert forall i :: 0 <= i < |a| ==> IsDigit(a[i]);
      assert forall i :: 0 <= i < |b| ==> IsDigit(b[i]);
      assert forall i :: 0 <= i < |c| ==> IsDigit(c[i]);
    }
    assert s == a + ['-'] + (b + ['-'] + c);
    SplitAtFirst(a, b + ['-'] + c, '-');
    SplitAtFirst(b, c, '-');
    SplitNoSeparator(c, '-');
  }

  /** A DD-MM-YYYY date reaches the backend as YYYY-MM-DD. */
  lemma ConvertReordersDate(s: string)
    requires DatePattern(s)
    ensures ConvertDateForBackend(s) == s[6..] + "-" + s[3..5] + "-" + s[..2]
    ensures |ConvertDateForBackend(s)| == 10
  {
    SplitDate(s);
  }

  /** Ten characters without a dash are not reordered but padded with two `undefined` parts. */
  lemma ConvertWithoutDashes(s: string)
    requires |s| == 10 && '-' !in s
    ensures ConvertDateForBackend(s) == "undefined-undefined-" + s
  {
    SplitNoSeparator(s, '-');
  }

  // ----- Calendar arithmetic of the validation -----

  datatype CalendarDate = CalendarDate(year: int, month: int, day: int)

  predicate IsLeapYear(y: int) {
    y % 4 == 0 && (y % 100 != 0 || y % 400 == 0)
  }

  function DaysInMonth(year: int, month: int): (n: int)
    requires 1 <= month <= 12
    ensures 28 <= n <= 31
    ensures n == 29 <==> month == 2 && IsLeapYear(year)
    ensures n == 28 <==> month == 2 && !IsLeapYear(year)
    ensures n == 30 <==> month == 4 || month == 6 || month == 9 || month == 11
  {
    if month == 2 then (if IsLeapYear(year) then 29 else 28)
    else if month == 4 || month == 6 || month == 9 || month == 11 then 30
    else 31
  }

  /** `new Date(year, month - 1, day)` reads back as the same day, month and full year: the month
      is 1..12, the day exists in that month, and the year is not one of 0..99, which the
      constructor takes for 1900..1999. Out-of-range days and months roll over into another date. */
  predicate ReadsBack(d: CalendarDate) {
    d.year >= 100 && 1 <= d.month <= 12 && 1 <= d.day <= DaysInMonth(d.year, d.month)
  }

  /** `birthDate > today`: a birth date at local midnight is later than the current instant exactly
      when its calendar day is later than today's. */
  predicate After(a: CalendarDate, b: CalendarDate) {
    a.year > b.year || (a.year == b.year && (a.month > b.month || (a.month == b.month && a.day > b.day)))
  }

  /** `dateOfBirth.split('-').map(Number)` read as day, month and year (see `SplitDate`). */
  function BirthDate(dob: string): CalendarDate
    requires DatePattern(dob)
  {
    CalendarDate(DecimalValue(dob[6..]), DecimalValue(dob[3..5]), DecimalValue(dob[..2]))
  }

  /** `/^\d{10,15}$/`. */
  predicate PhonePattern(p: string) {
    10 <= |p| <= 15 && AllDigits(p)
  }

  /** `/^[^\s@]+@[^\s@]+\.[^\s@]+$/`: no white space, exactly one `@` with something before it,
      and after it a dot with something on each side. */
  predicate MatchesEmailRegex(s: string) {
    NoSpaces(s) &&
    exists i, j :: 0 < i && i + 1 < j && j + 1 < |s| && s[i] == '@' && s[j] == '.'
                   && '@' !in s[..i] && '@' !in s[i + 1..]
  }

  /** An address the pattern accepts has nothing for `trim` to remove. */
  lemma EmailPatternTrimmed(s: string)
    requires MatchesEmailRegex(s)
    ensures Trim(s) == s && s != []
  {
    TrimNoSpaces(s);
  }

  // ----- The validation, in the screen's order -----

  const USERNAME_REQUIRED := "Username is required"
  const USERNAME_SHORT := "Username must be at least 3 characters long"
  const EMAIL_REQUIRED := "Email is required"
  const PASSWORD_REQUIRED := "Password is required"
  const PASSWORD_SHORT := "Password must be at least 6 characters long"
  const PASSWORD_MISMATCH := "Passwords do not match"
  const DOB_REQUIRED := "Date of birth is required"
  const PHONE_REQUIRED := "Phone number is required"
  const EMAIL_INVALID := "Please enter a valid email address"
  const DOB_FORMAT := "Date of birth must be in DD-MM-YYYY format"
  const DOB_INVALID := "Please enter a valid date"
  const DOB_FUTURE := "Date of birth cannot be in the future"
  const DOB_TOO_OLD := "Please enter a valid date of birth"
  const TOO_YOUNG := "You must be at least 13 years old to register"
  const PHONE_INVALID := "Please enter a valid phone number (10-15 digits)"

  datatype SignupForm = SignupForm(
    username: string,
    email: string,
    password: string,
    confirmPassword: string,
    dateOfBirth: string,
    phone: string)

  /** `validateForm`'s checks that a field is filled in, in order. */
  function RequiredChecks(f: SignupForm): seq<Check> {
    [ Check(Trim(f.username) != "", USERNAME_REQUIRED),
      Check(|Trim(f.username)| >= 3, USERNAME_SHORT),
      Check(Trim(f.email) != "", EMAIL_REQUIRED),
      Check(Trim(f.password) != "", PASSWORD_REQUIRED),
      Check(|f.password| >= 6, PASSWORD_SHORT),
      Check(f.password == f.confirmPassword, PASSWORD_MISMATCH),
      Check(Trim(f.dateOfBirth) != "", DOB_REQUIRED),
      Check(Trim(f.phone) != "", PHONE_REQUIRED) ]
  }

  /** The first failing required check, spelled out field by field. */
  lemma RequiredFailure(f: SignupForm)
    ensures FirstFailure(RequiredChecks(f)) ==
      if Trim(f.username) == "" then Some(USERNAME_REQUIRED)
      else if |Trim(f.username)| < 3 then Some(USERNAME_SHORT)
      else if Trim(f.email) == "" then Some(EMAIL_REQUIRED)
      else if Trim(f.password) == "" then Some(PASSWORD_REQUIRED)
      else if |f.password| < 6 then Some(PASSWORD_SHORT)
      else if f.password != f.confirmPassword then Some(PASSWORD_MISMATCH)
      else if Trim(f.dateOfBirth) == "" then Some(DOB_REQUIRED)
      else if Trim(f.phone) == "" then Some(PHONE_REQUIRED)
      else None
  {
    var required := RequiredChecks(f);
    if !(required[0].passes && required[1].passes && required[2].passes && required[3].passes) {
      RequiredFailureEarly(f);
    } else {
      RequiredFailureLate(f);
    }
  }

  /** The name, email and password presence checks, when one of them fails. */
  lemma RequiredFailureEarly(f: SignupForm)
    requires Trim(f.username) == "" || |Trim(f.username)| < 3 || Trim(f.email) == "" || Trim(f.password) == ""
    ensures FirstFailure(RequiredChecks(f)) ==
      if Trim(f.username) == "" then Some(USERNAME_REQUIRED)
      else if |Trim(f.username)| < 3 then Some(USERNAME_SHORT)
      else if Trim(f.email) == "" then Some(EMAIL_REQUIRED)
      else Some(PASSWORD_REQUIRED)
  {
    var required := RequiredChecks(f);
    if Trim(f.username) == "" { FirstFailureAt(required, 0); }
    else if |Trim(f.username)| < 3 { FirstFailureAt(required, 1); }
    else if Trim(f.email) == "" { FirstFailureAt(required, 2); }
    else { FirstFailureAt(required, 3); }
  }

  /** The remaining required checks, once the first four pass. */
  lemma RequiredFailureLate(f: SignupForm)
    requires !(Trim(f.username) == "" || |Trim(f.username)| < 3 || Trim(f.email) == "" || Trim(f.password) == "")
    ensures FirstFailure(RequiredChecks(f)) ==
      if |f.password| < 6 then Some(PASSWORD_SHORT)
      else if f.password != f.confirmPassword then Some(PASSWORD_MISMATCH)
      else if Trim(f.dateOfBirth) == "" then Some(DOB_REQUIRED)
      else if Trim(f.phone) == "" then Some(PHONE_REQUIRED)
      else None
  {
    var required := RequiredChecks(f);
    if |f.password| < 6 { FirstFailureAt(required, 4); }
    else if f.password != f.confirmPassword { FirstFailureAt(required, 5); }
    else if Trim(f.dateOfBirth) == "" { FirstFailureAt(required, 6); }
    else if Trim(f.phone) == "" { FirstFailureAt(required, 7); }
    else { FirstFailureNone(required); }
  }

  /** The format checks that follow them. The date checks read the parsed date only once the
      format check has passed; before that they are never reached. */
  function FormatChecks(f: SignupForm, today: CalendarDate): seq<Check> {
    var formatOk := DatePattern(f.dateOfBirth);
    var birth := if formatOk then BirthDate(f.dateOfBirth) else CalendarDate(0, 0, 0);
    var age := today.year - birth.year;
    [ Check(MatchesEmailRegex(f.email), EMAIL_INVALID),
      Check(formatOk, DOB_FORMAT),
      Check(ReadsBack(birth), DOB_INVALID),
      Check(!After(birth, today), DOB_FUTURE),
      Check(age <= 120, DOB_TOO_OLD),
      Check(age >= 13, TOO_YOUNG),
      Check(PhonePattern(WithoutSpaces(f.phone)), PHONE_INVALID) ]
  }

  /** The first failing format check, spelled out field by field. */
  lemma FormatFailure(f: SignupForm, today: CalendarDate)
    ensures FirstFailure(FormatChecks(f, today)) ==
      if !MatchesEmailRegex(f.email) then Some(EMAIL_INVALID)
      else if !DatePattern(f.dateOfBirth) then Some(DOB_FORMAT)
      else if !ReadsBack(BirthDate(f.dateOfBirth)) then Some(DOB_INVALID)
      else if After(BirthDate(f.dateOfBirth), today) then Some(DOB_FUTURE)
      else if today.year - BirthDate(f.dateOfBirth).year > 120 then Some(DOB_TOO_OLD)
      else if today.year - BirthDate(f.dateOfBirth).year < 13 then Some(TOO_YOUNG)
      else if !PhonePattern(WithoutSpaces(f.phone)) then Some(PHONE_INVALID)
      else None
  {
    var format := FormatChecks(f, today);
    if !MatchesEmailRegex(f.email) { FirstFailureAt(format, 0); }
    else if !DatePattern(f.dateOfBirth) { FirstFailureAt(format, 1); }
    else {
      var birth := BirthDate(f.dateOfBirth);
      var age := today.year - birth.year;
      if !ReadsBack(birth) { FirstFailureAt(format, 2); }
      else if After(birth, today) { FirstFailureAt(format, 3); }
      else if age > 120 { FirstFailureAt(format, 4); }
      else if age < 13 { FirstFailureAt(format, 5); }
      else if !PhonePattern(WithoutSpaces(f.phone)) { FirstFailureAt(format, 6); }
      else { FirstFailureNone(format); }
    }
  }

  /** `validateForm`'s checks, in order. */
  function SignupChecks(f: SignupForm, today: CalendarDate): seq<Check> {
    RequiredChecks(f) + FormatChecks(f, today)
  }

  /** A birth date the screen accepts: DD-MM-YYYY, a real day, not after today, and a birth year
      between 13 and 120 years before this year. */
  predicate BirthDateAcceptable(dob: string, today: CalendarDate) {
    && DatePattern(dob)
    && ReadsBack(BirthDate(dob))
    && !After(BirthDate(dob), today)
    && 13 <= today.year - BirthDate(dob).year <= 120
  }

  /** The form the screen accepts, stated without the redundant "is required" checks. */
  predicate SignupAcceptable(f: SignupForm, today: CalendarDate) {
    && |Trim(f.username)| >= 3
    && MatchesEmailRegex(f.email)
    && Trim(f.password) != "" && |f.password| >= 6
    && f.password == f.confirmPassword
    && BirthDateAcceptable(f.dateOfBirth, today)
    && PhonePattern(WithoutSpaces(f.phone))
  }

  /** The checks pass exactly for the acceptable forms: the required-field checks on username,
      email, date of birth and phone are implied by the later ones, but the one on the password
      is not (six spaces are long enough yet blank). */
  lemma SignupAcceptedIff(f: SignupForm, today: CalendarDate)
    ensures FirstFailure(SignupChecks(f, today)) == None <==> SignupAcceptable(f, today)
  {
    var required, format := RequiredChecks(f), FormatChecks(f, today);
    FirstFailureAppend(required, format);
    FirstFailureNone(required);
    FirstFailureNone(format);
    if SignupAcceptable(f, today) {
      AcceptableFilledIn(f, today);
      AcceptableFormatted(f, today);
    } else if FirstFailure(required) == None && FirstFailure(format) == None {
      PassesAcceptable(f, today);
    }
  }

  lemma AcceptableFilledIn(f: SignupForm, today: CalendarDate)
    requires SignupAcceptable(f, today)
    ensures forall k :: 0 <= k < |RequiredChecks(f)| ==> RequiredChecks(f)[k].passes
  {
    EmailPatternTrimmed(f.email);
    DatePatternTrimmed(f.dateOfBirth);
    SomethingLeftAfterTrim(f.phone);
  }

  lemma AcceptableFormatted(f: SignupForm, today: CalendarDate)
    requires SignupAcceptable(f, today)
    ensures forall k :: 0 <= k < |FormatChecks(f, today)| ==> FormatChecks(f, today)[k].passes
  {
  }

  lemma PassesAcceptable(f: SignupForm, today: CalendarDate)
    requires forall k :: 0 <= k < |RequiredChecks(f)| ==> RequiredChecks(f)[k].passes
    requires forall k :: 0 <= k < |FormatChecks(f, today)| ==> FormatChecks(f, today)[k].passes
    ensures SignupAcceptable(f, today)
  {
    var required, format := RequiredChecks(f), FormatChecks(f, today);
    assert required[1].passes && required[3].passes && required[4].passes && required[5].passes;
    assert format[0].passes && format[1].passes && format[2].passes && format[3].passes;
    assert format[4].passes && format[5].passes && format[6].passes;
  }

  /** A text with something left once its white space is removed is not blank. */
  lemma SomethingLeftAfterTrim(s: string)
    requires WithoutSpaces(s) != []
    ensures Trim(s) != []
  {
    if Trim(s) == [] {
      TrimEmptyIff(s);
      WithoutSpacesOfSpaces(s);
    }
  }

  lemma DatePatternTrimmed(s: string)
    requires DatePattern(s)
    ensures Trim(s) == s
  {
    assert NoSpaces(s) by {
      forall i | 0 <= i < |s| ensures !IsSpace(s[i]) {
        if i < 2 {
          assert s[i] == s[..2][i];
        } else if 2 < i < 5 {
          assert s[i] == s[3..5][i - 3];
        } else if i > 5 {
          assert s[i] == s[6..][i - 6];
        }
      }
    }
    TrimNoSpaces(s);
  }

  // ----- The request -----

  /** The JSON body `handleSignup` posts to `/api/auth/signup`. */
  datatype SignupRequest = SignupRequest(
    username: string,
    email: string,
    password: string,
    dateOfBirth: string,
    phone: string,
    points: int)

  function SignupPayload(f: SignupForm): SignupRequest {
    SignupRequest(Trim(f.username), Trim(f.email), Trim(f.password),
                  ConvertDateForBackend(Trim(f.dateOfBirth)), WithoutSpaces(f.phone), 0)
  }

  /** What an accepted form sends: the email as typed, the date as YYYY-MM-DD, a phone of 10 to
      15 digits, a username of at least three characters with nothing to trim, and no points. */
  lemma AcceptedPayload(f: SignupForm, today: CalendarDate)
    requires SignupAcceptable(f, today)
    ensures SignupPayload(f).email == f.email && MatchesEmailRegex(SignupPayload(f).email)
    ensures SignupPayload(f).dateOfBirth == f.dateOfBirth[6..] + "-" + f.dateOfBirth[3..5] + "-" + f.dateOfBirth[..2]
    ensures PhonePattern(SignupPayload(f).phone)
    ensures |SignupPayload(f).username| >= 3 && Trimmed(SignupPayload(f).username)
    ensures SignupPayload(f).password != "" && SignupPayload(f).points == 0
  {
    EmailPatternTrimmed(f.email);
    DatePatternTrimmed(f.dateOfBirth);
    ConvertReordersDate(f.dateOfBirth);
  }

  /** The length rule reads the password before trimming, and the trimmed one is sent: in an
      otherwise acceptable form, a password is accepted exactly when it has six characters or
      more and is not all white space, and then its trim is sent, however short that is. */
  lemma PasswordCheckedBeforeTrim(f: SignupForm, today: CalendarDate, p: string)
    requires SignupAcceptable(f, today)
    ensures var g := f.(password := p, confirmPassword := p);
      && (SignupAcceptable(g, today) <==> |p| >= 6 && Trim(p) != "")
      && SignupPayload(g).password == Trim(p)
  {
  }

  /** A form whose password is five spaces and `x`, and the day it is sent. */
  const PADDED_FORM := SignupForm("cook", "a@b.co", "     x", "     x", "01-01-2000", "0123456789")
  const SENT_ON := CalendarDate(2026, 10, 14)

  /** The length rule reads the password before trimming but the trimmed one is sent: the form
      whose password is five spaces and `x` is accepted, and the account gets the password `x`. */
  lemma PasswordLengthCheckedBeforeTrim()
    ensures SignupAcceptable(PADDED_FORM, SENT_ON) && SignupPayload(PADDED_FORM).password == "x"
  {
    PaddedFormFields();
    PaddedFormDate();
    PaddedPasswordTrim();
  }

  lemma PaddedFormFields()
    ensures |Trim(PADDED_FORM.username)| >= 3 && MatchesEmailRegex(PADDED_FORM.email)
    ensures PhonePattern(WithoutSpaces(PADDED_FORM.phone))
    ensures |PADDED_FORM.password| >= 6 && PADDED_FORM.password == PADDED_FORM.confirmPassword
  {
    PaddedFormUsername();
    PaddedFormEmail();
    PaddedFormPhone();
  }

  lemma PaddedFormUsername()
    ensures |Trim(PADDED_FORM.username)| >= 3
  {
    TrimNoSpaces(PADDED_FORM.username);
  }

  lemma PaddedFormEmail()
    ensures MatchesEmailRegex(PADDED_FORM.email)
  {
    ExampleEmail();
  }

  lemma PaddedFormPhone()
    ensures PhonePattern(WithoutSpaces(PADDED_FORM.phone))
  {
    ExamplePhone();
  }

  lemma PaddedFormDate()
    ensures BirthDateAcceptable(PADDED_FORM.dateOfBirth, SENT_ON)
  {
    ExampleBirthDate();
  }

  lemma ExampleEmail()
    ensures MatchesEmailRegex("a@b.co")
  {
    var e: string := "a@b.co";
    assert e[1] == '@' && e[3] == '.';
    assert e[..1] == "a" && e[2..] == "b.co";
  }

  lemma ExamplePhone()
    ensures PhonePattern(WithoutSpaces("0123456789"))
  {
    var p: string := "0123456789";
    assert AllDigits(p);
    assert NoSpaces(p);
  }

  lemma PaddedPasswordTrim()
    ensures Trim("     x") == "x"
  {
    var p: string := "     x";
    assert p[1..][1..][1..][1..][1..] == "x";
    assert Trim("x") == "x";
    assert Trim(p[1..][1..][1..][1..]) == "x";
    assert Trim(p[1..][1..]) == "x";
  }

  lemma ExampleBirthDate()
    ensures DatePattern("01-01-2000") && BirthDate("01-01-2000") == CalendarDate(2000, 1, 1)
  {
    var d: string := "01-01-2000";
    assert d[6..] == "2000" && d[3..5] == "01" && d[..2] == "01";
    assert DecimalValue("2000") == 2000 by {
      assert "2000"[..3] == "200" && "200"[..2] == "20" && "20"[..1] == "2";
    }
    assert DecimalValue("01") == 1 by {
      assert "01"[..1] == "0";
    }
  }

  // ----- The outcome -----

  /** What the screen shows once the request has settled under axios's default rule (only 2xx
      resolves): `None` when the account was created (the alert that leads to the login
      screen), otherwise the error line. */
  function SignupOutcome(s: Settled): Option<string> {
    match s
    case Resolved(_, data) =>
      if SuccessField(data) == Some(true) then None
      else Some(OrElse(MessageField(data), "Signup failed"))
    case Thrown(err) =>
      var fromServer := if err.response.Some? then MessageField(err.response.value) else None;
      if fromServer.Some? && fromServer.value != "" then Some(fromServer.value)
      else Some(OrElse(Some(err.message), "Network error. Please check your connection."))
  }

  /** Every failure is reported with a non-empty line: the server's message when it sent one,
      otherwise the transport's, otherwise a fixed text. */
  lemma SignupOutcomeReports(s: Settled)
    ensures SignupOutcome(s).Some? ==> SignupOutcome(s).value != ""
    ensures SignupOutcome(s).None? <==> s.Resolved? && SuccessField(s.data) == Some(true)
    ensures s.Thrown? && s.err.response.Some? && OrElse(MessageField(s.err.response.value), "") != ""
            ==> SignupOutcome(s) == MessageField(s.err.response.value)
  {
  }

  // ----- The screen -----

  /** The text inputs other than the date of birth. */
  datatype Field = Username | Email | Password | ConfirmPassword | Phone

  function WithField(f: SignupForm, field: Field, text: string): SignupForm {
    match field
    case Username => f.(username := text)
    case Email => f.(email := text)
    case Password => f.(password := text)
    case ConfirmPassword => f.(confirmPassword := text)
    case Phone => f.(phone := text)
  }

  class SignupScreen {
    var username: string
    var email: string
    var password: string
    var confirmPassword: string
    var dateOfBirth: string
    var phone: string
    var error: string
    var isLoading: bool

    /** The date field only ever holds formatted text. */
    ghost predicate Valid()
      reads this
    {
      Formatted(dateOfBirth)
    }

    function Form(): SignupForm
      reads this`username, this`email, this`password, this`confirmPassword, this`dateOfBirth, this`phone
    {
      SignupForm(username, email, password, confirmPassword, dateOfBirth, phone)
    }

    constructor()
      ensures Valid()
      ensures Form() == SignupForm("", "", "", "", "", "") && error == "" && !isLoading
    {
      username, email, password, confirmPassword, dateOfBirth, phone := "", "", "", "", "", "";
      error, isLoading := "", false;
      assert Digits("") == "";
    }

    /** Typing in one of the plain inputs stores the text and clears the error. */
    method Edit(field: Field, text: string)
      requires Valid()
      modifies this
      ensures Valid()
      ensures Form() == WithField(old(Form()), field, text)
      ensures error == "" && isLoading == old(isLoading)
    {
      match field {
        case Username => username := text;
        case Email => email := text;
        case Password => password := text;
        case ConfirmPassword => confirmPassword := text;
        case Phone => phone := text;
      }
      error := "";
    }

    /** `handleDateChange`: the field shows the formatting of the digits typed. The field's
        `maxLength={10}` refuses any edit that would make it longer, so the handler only ever
        sees text of at most ten characters. */
    method HandleDateChange(text: string)
      requires Valid() && |text| <= 10
      modifies this
      ensures Valid()
      ensures dateOfBirth == FormatDateString(Digits(text))
      ensures Form() == old(Form()).(dateOfBirth := dateOfBirth)
      ensures error == "" && isLoading == old(isLoading)
    {
      DashRuleUnreachable(text, dateOfBirth);
      FormatDateInputFormatted(text, dateOfBirth);
      dateOfBirth := FormatDateInput(text, dateOfBirth);
      error := "";
    }

    /** `validateForm`: the first failing check's message becomes the error line. */
    method ValidateForm(today: CalendarDate) returns (ok: bool)
      modifies this`error
      ensures ok <==> FirstFailure(SignupChecks(Form(), today)) == None
      ensures error == FirstFailure(SignupChecks(Form(), today)).GetOr("")
    {
      ghost var f := Form();
      FirstFailureAppend(RequiredChecks(f), FormatChecks(f, today));
      error := "";
      ok := CheckFilledIn();
      assert Form() == f;
      if ok {
        ok := CheckFormats(today);
        assert Form() == f;
      }
    }

    /** The first half of `validateForm`: every field is filled in, the username is long
        enough, the passwords are long enough and agree. */
    method CheckFilledIn() returns (ok: bool)
      requires error == ""
      modifies this`error
      ensures ok <==> FirstFailure(RequiredChecks(Form())) == None
      ensures error == FirstFailure(RequiredChecks(Form())).GetOr("")
    {
      RequiredFailure(Form());
      if Trim(username) == "" {
        error := USERNAME_REQUIRED; return false;
      }
      if |Trim(username)| < 3 {
        error := USERNAME_SHORT; return false;
      }
      if Trim(email) == "" {
        error := EMAIL_REQUIRED; return false;
      }
      if Trim(password) == "" {
        error := PASSWORD_REQUIRED; return false;
      }
      if |password| < 6 {
        error := PASSWORD_SHORT; return false;
      }
      if password != confirmPassword {
        error := PASSWORD_MISMATCH; return false;
      }
      if Trim(dateOfBirth) == "" {
        error := DOB_REQUIRED; return false;
      }
      if Trim(phone) == "" {
        error := PHONE_REQUIRED; return false;
      }
      return true;
    }

    /** The second half of `validateForm`: the email, date and phone patterns and the
        calendar checks on the date of birth. */
    method CheckFormats(today: CalendarDate) returns (ok: bool)
      requires error == ""
      modifies this`error
      ensures ok <==> FirstFailure(FormatChecks(Form(), today)) == None
      ensures error == FirstFailure(FormatChecks(Form(), today)).GetOr("")
    {
      FormatFailure(Form(), today);
      if !MatchesEmailRegex(email) {
        error := EMAIL_INVALID; return false;
      }
      if !DatePattern(dateOfBirth) {
        error := DOB_FORMAT; return false;
      }
      var birth := BirthDate(dateOfBirth);
      if !ReadsBack(birth) {
        error := DOB_INVALID; return false;
      }
      if After(birth, today) {
        error := DOB_FUTURE; return false;
      }
      var age := today.year - birth.year;
      if age > 120 {
        error := DOB_TOO_OLD; return false;
      }
      if age < 13 {
        error := TOO_YOUNG; return false;
      }
      if !PhonePattern(WithoutSpaces(phone)) {
        error := PHONE_INVALID; return false;
      }
      return true;
    }

    /** `handleSignup` up to the request: validate, and on success start loading and hand
        over the body to post. The button is disabled while loading. */
    method SubmitSignup(today: CalendarDate) returns (request: Option<SignupRequest>)
      requires Valid() && !isLoading
      modifies this
      ensures Valid() && Form() == old(Form())
      ensures request.Some? <==> SignupAcceptable(Form(), today)
      ensures request.Some? ==> request.value == SignupPayload(Form())
      ensures isLoading <==> request.Some?
      ensures error == FirstFailure(SignupChecks(Form(), today)).GetOr("")
    {
      var ok := ValidateForm(today);
      SignupAcceptedIff(Form(), today);
      if !ok {
        return None;
      }
      isLoading := true;
      request := Some(SignupPayload(Form()));
    }

    /** The rest of `handleSignup`: report the outcome and stop loading. Returns whether the
        account-created alert is shown. */
    method CompleteSignup(d: Delivery) returns (created: bool)
      modifies this`error, this`isLoading
      ensures !isLoading
      ensures created <==> SignupOutcome(Settle(d, DefaultAccepts)).None?
      ensures error == SignupOutcome(Settle(d, DefaultAccepts)).GetOr(old(error))
    {
      var outcome := SignupOutcome(Settle(d, DefaultAccepts));
      match outcome {
        case None =>
          created := true;
        case Some(message) =>
          created := false;
          error := message;
      }
      isLoading := false;
    }
  }
}
