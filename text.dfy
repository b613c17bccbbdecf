/** String operations of JavaScript that the modelled code relies on: `trim`, the character
    classes `\s` and `\d`, `includes`, `endsWith`, `split`, `toLowerCase` and the numeric
    conversions `Number(...)` and `parseInt(...)`. Strings are sequences of characters. */
module Text {

  datatype Option<+T> = None | Some(value: T) {
    function GetOr(default: T): T {
      match this
      case Some(v) => v
      case None => default
    }
  }

  /** The code points JavaScript calls WhiteSpace or LineTerminator: what `\s` matches and
      what `trim` and `parseInt` skip. */
  predicate IsSpace(c: char) {
    c == '\t' || c == '\n' || c == '\U{000B}' || c == '\U{000C}' || c == '\r' || c == ' '
    || c == '\U{00A0}' || c == '\U{1680}' || ('\U{2000}' <= c <= '\U{200A}')
    || c == '\U{2028}' || c == '\U{2029}' || c == '\U{202F}' || c == '\U{205F}'
    || c == '\U{3000}' || c == '\U{FEFF}'
  }

  /** `\d` in a JavaScript regular expression: the ASCII digits only. */
  predicate IsDigit(c: char) {
    '0' <= c <= '9'
  }

  predicate AllDigits(s: string) {
    forall i :: 0 <= i < |s| ==> IsDigit(s[i])
  }

  predicate AllSpaces(s: string) {
    forall i :: 0 <= i < |s| ==> IsSpace(s[i])
  }

  predicate NoSpaces(s: string) {
    forall i :: 0 <= i < |s| ==> !IsSpace(s[i])
  }

  /** How many white-space characters `s` starts with. */
  function LeadingSpaces(s: string): (k: nat)
    ensures k <= |s| && AllSpaces(s[..k])
    ensures k < |s| ==> !IsSpace(s[k])
  {
    if |s| > 0 && IsSpace(s[0]) then
      var k := LeadingSpaces(s[1..]);
      assert s[..k + 1] == [s[0]] + s[1..][..k];
      k + 1
    else 0
  }

  /** Removes leading white space. */
  function TrimStart(s: string): (r: string)
    ensures r == [] || !IsSpace(r[0])
  {
    s[LeadingSpaces(s)..]
  }

  /** How many white-space characters `s` ends with. */
  function TrailingSpaces(s: string): (k: nat)
    ensures k <= |s| && AllSpaces(s[|s| - k..])
    ensures k < |s| ==> !IsSpace(s[|s| - k - 1])
  {
    if |s| > 0 && IsSpace(s[|s| - 1]) then
      var k := TrailingSpaces(s[..|s| - 1]);
      TrailingSpacesStep(s, k);
      k + 1
    else 0
  }

  /** White space at the end of `s` minus its last character, followed by a last white-space
      character, is white space at the end of `s`. */
  lemma TrailingSpacesStep(s: string, k: nat)
    requires |s| > 0 && IsSpace(s[|s| - 1])
    requires var p := s[..|s| - 1]; k <= |p| && AllSpaces(p[|p| - k..])
    requires var p := s[..|s| - 1]; k < |p| ==> !IsSpace(p[|p| - k - 1])
    ensures AllSpaces(s[|s| - (k + 1)..])
    ensures k + 1 < |s| ==> !IsSpace(s[|s| - (k + 1) - 1])
  {
    var p := s[..|s| - 1];
    assert s[|s| - (k + 1)..] == p[|p| - k..] + [s[|s| - 1]];
    if k + 1 < |s| {
      assert s[|s| - (k + 1) - 1] == p[|p| - k - 1];
    }
  }

  /** Removes trailing white space. */
  function TrimEnd(s: string): (r: string)
    ensures r == [] || !IsSpace(r[|r| - 1])
  {
    s[..|s| - TrailingSpaces(s)]
  }

  /** Neither end is white space. */
  predicate Trimmed(s: string) {
    s == [] || (!IsSpace(s[0]) && !IsSpace(s[|s| - 1]))
  }

  /** `String.prototype.trim`: white space is dropped from either end until neither end is
      white space. */
  function Trim(s: string): (r: string)
    ensures Trimmed(r)
    decreases |s|
  {
    if |s| > 0 && IsSpace(s[0]) then Trim(s[1..])
    else if |s| > 0 && IsSpace(s[|s| - 1]) then Trim(s[..|s| - 1])
    else s
  }

  /** Trimming both ends at once agrees with removing the leading white space and then the
      trailing white space. */
  lemma {:induction false} TrimIsTrimStartThenEnd(s: string)
    ensures Trim(s) == TrimEnd(TrimStart(s))
    decreases |s|
  {
    if |s| > 0 && IsSpace(s[0]) {
      TrimIsTrimStartThenEnd(s[1..]);
      TrimStartDropsFirstSpace(s);
    } else if |s| > 0 && IsSpace(s[|s| - 1]) {
      var p := s[..|s| - 1];
      TrimIsTrimStartThenEnd(p);
      TrimStartNoLeading(s);
      assert p[0] == s[0];
      TrimStartNoLeading(p);
      TrimEndDropsLastSpace(s);
    } else {
      TrimStartNoLeading(s);
      TrimEndNoTrailing(s);
    }
  }

  lemma TrimStartNoLeading(s: string)
    requires s == [] || !IsSpace(s[0])
    ensures TrimStart(s) == s
  {
    assert LeadingSpaces(s) == 0;
  }

  lemma TrimStartDropsFirstSpace(s: string)
    requires |s| > 0 && IsSpace(s[0])
    ensures TrimStart(s) == TrimStart(s[1..])
  {
    assert LeadingSpaces(s) == LeadingSpaces(s[1..]) + 1;
  }

  lemma TrimEndNoTrailing(s: string)
    requires s == [] || !IsSpace(s[|s| - 1])
    ensures TrimEnd(s) == s
  {
    assert TrailingSpaces(s) == 0;
  }

  lemma TrimEndDropsLastSpace(s: string)
    requires |s| > 0 && IsSpace(s[|s| - 1])
    ensures TrimEnd(s) == TrimEnd(s[..|s| - 1])
  {
    var p := s[..|s| - 1];
    assert TrailingSpaces(s) == TrailingSpaces(p) + 1;
    var m := |p| - TrailingSpaces(p);
    assert s[..m] == p[..m];
  }

  /** `s.trim()` is the empty (falsy) string exactly when `s` is nothing but white space. */
  lemma {:induction false} TrimEmptyIff(s: string)
    ensures Trim(s) == [] <==> AllSpaces(s)
    decreases |s|
  {
    if |s| > 0 && IsSpace(s[0]) {
      TrimEmptyIff(s[1..]);
      assert forall i :: 1 <= i < |s| ==> s[i] == s[1..][i - 1];
    } else if |s| > 0 && IsSpace(s[|s| - 1]) {
      TrimEmptyIff(s[..|s| - 1]);
      assert s[..|s| - 1][0] == s[0];
    }
  }

  /** Trimming a trimmed string changes nothing; in particular trimming twice is trimming once. */
  lemma TrimmedFixpoint(s: string)
    requires Trimmed(s)
    ensures Trim(s) == s
  {
  }

  /** A string without white space is its own trim. */
  lemma TrimNoSpaces(s: string)
    requires NoSpaces(s)
    ensures Trim(s) == s
  {
    if s != [] {
      assert !IsSpace(s[0]) && !IsSpace(s[|s| - 1]);
    }
  }

  /** `s.replace(/\D/g, '')`: the digits of `s`, in order. */
  function Digits(s: string): (r: string)
    ensures AllDigits(r) && |r| <= |s|
    ensures AllDigits(s) ==> r == s
    ensures (forall i :: 0 <= i < |s| ==> !IsDigit(s[i])) ==> r == []
  {
    if s == [] then []
    else if IsDigit(s[0]) then [s[0]] + Digits(s[1..])
    else Digits(s[1..])
  }

  lemma {:induction false} DigitsAppend(a: string, b: string)
    ensures Digits(a + b) == Digits(a) + Digits(b)
  {
    if a == [] {
      assert a + b == b;
    } else {
      assert (a + b)[1..] == a[1..] + b;
      DigitsAppend(a[1..], b);
    }
  }

  /** `s.replace(/\s/g, '')`: `s` without its white space. */
  function WithoutSpaces(s: string): (r: string)
    ensures NoSpaces(r) && |r| <= |s|
    ensures NoSpaces(s) ==> r == s
    ensures AllSpaces(s) ==> r == []
  {
    if s == [] then []
    else if IsSpace(s[0]) then WithoutSpaces(s[1..])
    else [s[0]] + WithoutSpaces(s[1..])
  }

  /** Nothing is left of a string of white space. */
  lemma {:induction false} WithoutSpacesOfSpaces(s: string)
    requires AllSpaces(s)
    ensures WithoutSpaces(s) == []
    decreases |s|
  {
    if s != [] {
      WithoutSpacesOfSpaces(s[1..]);
    }
  }

  /** Removing white space distributes over concatenation; with the two cases above, the
      result is exactly the characters that are not white space, in order. */
  lemma {:induction false} WithoutSpacesAppend(a: string, b: string)
    ensures WithoutSpaces(a + b) == WithoutSpaces(a) + WithoutSpaces(b)
  {
    if a == [] {
      assert a + b == b;
    } else {
      assert (a + b)[1..] == a[1..] + b;
      WithoutSpacesAppend(a[1..], b);
    }
  }

  predicate IsPrefix(p: string, s: string) {
    |p| <= |s| && s[..|p|] == p
  }

  /** `s.includes(sub)`. */
  predicate Contains(s: string, sub: string)
    decreases |s|
  {
    IsPrefix(sub, s) || (|s| > 0 && Contains(s[1..], sub))
  }

  /** `includes` finds every occurrence, wherever it stands. */
  lemma {:induction false} ContainsAt(s: string, sub: string, i: nat)
    requires i + |sub| <= |s| && s[i..i + |sub|] == sub
    ensures Contains(s, sub)
    decreases i
  {
    if i > 0 {
      assert s[1..][i - 1..i - 1 + |sub|] == s[i..i + |sub|];
      ContainsAt(s[1..], sub, i - 1);
    }
  }

  lemma ContainsInfix(a: string, sub: string, b: string)
    ensures Contains(a + sub + b, sub)
  {
    var s := a + sub + b;
    assert s[|a|..|a| + |sub|] == sub;
    ContainsAt(s, sub, |a|);
  }

  /** And it finds nothing else. */
  lemma {:induction false} ContainsWitness(s: string, sub: string) returns (i: nat)
    requires Contains(s, sub)
    ensures i + |sub| <= |s| && s[i..i + |sub|] == sub
    decreases |s|
  {
    if IsPrefix(sub, s) {
      i := 0;
    } else {
      var j := ContainsWitness(s[1..], sub);
      i := j + 1;
      assert s[i..i + |sub|] == s[1..][j..j + |sub|];
    }
  }

  lemma ContainsInRight(a: string, b: string, sub: string)
    requires Contains(b, sub)
    ensures Contains(a + b, sub)
  {
    var i := ContainsWitness(b, sub);
    assert (a + b)[|a| + i..|a| + i + |sub|] == b[i..i + |sub|];
    ContainsAt(a + b, sub, |a| + i);
  }

  lemma ContainsInLeft(a: string, b: string, sub: string)
    requires Contains(a, sub)
    ensures Contains(a + b, sub)
  {
    var i := ContainsWitness(a, sub);
    assert (a + b)[i..i + |sub|] == a[i..i + |sub|];
    ContainsAt(a + b, sub, i);
  }

  /** A string lacking one of the characters of `sub` does not contain `sub`. */
  lemma {:induction false} CharAbsentNotContains(s: string, sub: string, j: nat)
    requires j < |sub| && sub[j] !in s
    ensures !Contains(s, sub)
    decreases |s|
  {
    if |sub| <= |s| {
      assert s[..|sub|][j] == s[j];
    }
    if |s| > 0 {
      assert forall k :: 0 <= k < |s| - 1 ==> s[1..][k] == s[k + 1];
      CharAbsentNotContains(s[1..], sub, j);
    }
  }

  predicate EndsWith(s: string, c: char) {
    |s| > 0 && s[|s| - 1] == c
  }

  /** `s.slice(0, -1)`. */
  function DropLast(s: string): (r: string)
    ensures |s| > 0 ==> r == s[..|s| - 1]
    ensures |s| == 0 ==> r == []
  {
    if |s| == 0 then [] else s[..|s| - 1]
  }

  /** `s.slice(0, n)` for n >= 0. */
  function Prefix(s: string, n: nat): (r: string)
    ensures |r| == if n <= |s| then n else |s|
    ensures IsPrefix(r, s) && r + s[|r|..] == s
  {
    if n <= |s| then s[..n] else s
  }

  function LowerChar(c: char): char {
    if 'A' <= c <= 'Z' then (c as int + 32) as char else c
  }

  /** `toLowerCase` on the ASCII letters. */
  function ToLower(s: string): (r: string)
    ensures |r| == |s| && forall i :: 0 <= i < |s| ==> r[i] == LowerChar(s[i])
  {
    seq(|s|, i requires 0 <= i < |s| => LowerChar(s[i]))
  }

  /** Lower-casing twice is lower-casing once. */
  lemma ToLowerIdempotent(s: string)
    ensures ToLower(ToLower(s)) == ToLower(s)
  {
  }

  /** Lower-casing changes a text exactly when it has an ASCII capital letter, and it leaves
      every other character where it was. */
  lemma ToLowerUnchanged(s: string)
    ensures ToLower(s) == s <==> forall i :: 0 <= i < |s| ==> !('A' <= s[i] <= 'Z')
    ensures forall i :: 0 <= i < |s| && !('A' <= s[i] <= 'Z') ==> ToLower(s)[i] == s[i]
  {
    if ToLower(s) == s {
      forall i | 0 <= i < |s| ensures !('A' <= s[i] <= 'Z') {
        assert ToLower(s)[i] == s[i];
      }
    }
  }

  /** `s.split(sep)` for a one-character separator. */
  function Split(s: string, sep: char): (parts: seq<string>)
    ensures |parts| >= 1
    ensures forall k :: 0 <= k < |parts| ==> sep !in parts[k]
    decreases |s|
  {
    if s == [] then [[]]
    else if s[0] == sep then [[]] + Split(s[1..], sep)
    else
      var rest := Split(s[1..], sep);
      [[s[0]] + rest[0]] + rest[1..]
  }

  /** `parts.join(sep)`. */
  function Join(parts: seq<string>, sep: char): string
    requires |parts| >= 1
  {
    if |parts| == 1 then parts[0] else parts[0] + [sep] + Join(parts[1..], sep)
  }

  /** A character put in front of the first part stands in front of the joined text. */
  lemma JoinExtendsFirst(c: char, parts: seq<string>, sep: char)
    requires |parts| >= 1
    ensures Join([[c] + parts[0]] + parts[1..], sep) == [c] + Join(parts, sep)
  {
    var longer := [[c] + parts[0]] + parts[1..];
    assert longer[0] == [c] + parts[0] && longer[1..] == parts[1..];
    if |parts| > 1 {
      var tail := Join(parts[1..], sep);
      assert ([c] + parts[0]) + [sep] + tail == [c] + (parts[0] + [sep] + tail);
    }
  }

  /** Splitting loses nothing: joining the parts gives the string back. */
  lemma {:induction false} JoinSplit(s: string, sep: char)
    ensures Join(Split(s, sep), sep) == s
    decreases |s|
  {
    if s == [] {
    } else if s[0] == sep {
      JoinSplit(s[1..], sep);
      assert Split(s, sep)[1..] == Split(s[1..], sep);
    } else {
      JoinSplit(s[1..], sep);
      JoinExtendsFirst(s[0], Split(s[1..], sep), sep);
      assert s == [s[0]] + s[1..];
    }
  }

  /** A string without the separator is one part. */
  lemma {:induction false} SplitNoSeparator(s: string, sep: char)
    requires sep !in s
    ensures Split(s, sep) == [s]
    decreases |s|
  {
    if s != [] {
      SplitNoSeparator(s[1..], sep);
      assert s == [s[0]] + s[1..];
    }
  }

  /** The text before the first separator is the first part, and splitting goes on after it. */
  lemma {:induction false} SplitAtFirst(a: string, b: string, sep: char)
    requires sep !in a
    ensures Split(a + [sep] + b, sep) == [a] + Split(b, sep)
    decreases |a|
  {
    var s := a + [sep] + b;
    if a == [] {
      assert s[0] == sep && s[1..] == b;
    } else {
      assert s[0] == a[0] && s[1..] == a[1..] + [sep] + b;
      SplitAtFirst(a[1..], b, sep);
      assert [a[0]] + a[1..] == a;
    }
  }

  function DigitValue(c: char): nat
    requires IsDigit(c)
  {
    c as int - '0' as int
  }

  /** `Number(s)` for a non-empty run of decimal digits (leading zeros allowed). */
  function DecimalValue(s: string): (n: nat)
    requires AllDigits(s)
    decreases |s|
  {
    if s == [] then 0 else DecimalValue(s[..|s| - 1]) * 10 + DigitValue(s[|s| - 1])
  }

  /** The decimal numeral of `n`, as `String(n)` writes it. */
  function NatToString(n: nat): (r: string)
    ensures |r| >= 1 && AllDigits(r)
    decreases n
  {
    if n < 10 then [('0' as int + n) as char]
    else NatToString(n / 10) + [('0' as int + n % 10) as char]
  }

  lemma {:induction false} DecimalNatToString(n: nat)
    ensures DecimalValue(NatToString(n)) == n
    decreases n
  {
    if n >= 10 {
      DecimalNatToString(n / 10);
      var s := NatToString(n);
      assert s[..|s| - 1] == NatToString(n / 10);
    }
  }

  predicate IsHexDigit(c: char) {
    IsDigit(c) || 'a' <= c <= 'f' || 'A' <= c <= 'F'
  }

  function HexDigitValue(c: char): (v: nat)
    requires IsHexDigit(c)
    ensures v < 16
  {
    if IsDigit(c) then DigitValue(c)
    else if 'a' <= c <= 'f' then c as int - 'a' as int + 10
    else c as int - 'A' as int + 10
  }

  /** The value of a run of hexadecimal digits, either case. */
  function HexValue(s: string): nat
    requires forall i :: 0 <= i < |s| ==> IsHexDigit(s[i])
    decreases |s|
  {
    if s == [] then 0 else HexValue(s[..|s| - 1]) * 16 + HexDigitValue(s[|s| - 1])
  }

  /** The length of the longest prefix of `s` made of digits of the given radix (10 or 16). */
  function DigitRun(s: string, hex: bool): (n: nat)
    ensures n <= |s|
    ensures forall i :: 0 <= i < n ==> if hex then IsHexDigit(s[i]) else IsDigit(s[i])
    ensures n < |s| ==> !(if hex then IsHexDigit(s[n]) else IsDigit(s[n]))
  {
    if s != [] && (if hex then IsHexDigit(s[0]) else IsDigit(s[0])) then 1 + DigitRun(s[1..], hex)
    else 0
  }

  /** `parseInt(s)` with no radix argument: leading white space is skipped, an optional sign
      is read, a `0x`/`0X` prefix selects base 16, then the longest run of digits is read. No
      digits gives NaN, here `None`. */
  function ParseInt(s: string): Option<int>
  {
    var t := TrimStart(s);
    match Magnitude(UnsignedPart(t))
    case None => None
    case Some(m) => Some(Signed(|t| > 0 && t[0] == '-', m))
  }

  /** The unsigned part of `parseInt`: an optional `0x`/`0X` prefix, then the longest run of
      digits of that radix; no digits is `None`. */
  function Magnitude(u: string): Option<nat>
  {
    var hex := HasHexPrefix(u);
    var body := AfterRadixPrefix(u);
    var n := DigitRun(body, hex);
    if n == 0 then None
    else Some(if hex then HexValue(body[..n]) else DecimalValue(body[..n]))
  }

  function Signed(negative: bool, m: nat): int {
    if negative then -(m as int) else m as int
  }

  /** A sign in front of `parseInt`'s digits, as a text of at most one character. */
  predicate SignText(sign: string) {
    |sign| <= 1 && (|sign| == 1 ==> sign[0] == '-' || sign[0] == '+')
  }

  /** With no white space in front, `parseInt` reads the sign and then the magnitude. */
  lemma ParseIntSigned(sign: string, u: string)
    requires SignText(sign)
    requires |u| > 0 && !IsSpace(u[0]) && u[0] != '-' && u[0] != '+'
    ensures ParseInt(sign + u) ==
      match Magnitude(u)
      case None => None
      case Some(m) => Some(Signed(sign == ['-'], m))
  {
    var s := sign + u;
    assert s[0] == if sign == [] then u[0] else sign[0];
    assert LeadingSpaces(s) == 0;
    assert sign != [] ==> s[1..] == u;
    assert sign == [] ==> s == u;
    assert UnsignedPart(s) == u;
  }

  /** The signed reading of a magnitude that is known. */
  lemma ParseIntSignedSome(sign: string, u: string, m: nat)
    requires SignText(sign)
    requires |u| > 0 && !IsSpace(u[0]) && u[0] != '-' && u[0] != '+'
    requires Magnitude(u) == Some(m)
    ensures ParseInt(sign + u) == Some(Signed(sign == ['-'], m))
  {
    ParseIntSigned(sign, u);
  }

  function UnsignedPart(t: string): string {
    if |t| > 0 && (t[0] == '-' || t[0] == '+') then t[1..] else t
  }

  predicate HasHexPrefix(u: string) {
    |u| >= 2 && u[0] == '0' && (u[1] == 'x' || u[1] == 'X')
  }

  function AfterRadixPrefix(u: string): string {
    if HasHexPrefix(u) then u[2..] else u
  }

  /** parseInt of a plain numeral gives its decimal value. */
  lemma ParseIntDecimal(s: string)
    requires |s| > 0 && AllDigits(s)
    ensures ParseInt(s) == Some(DecimalValue(s))
  {
    var none: string := [];
    ParseIntDecimalPrefix(none, s, none);
    assert none + (s + none) == s;
  }

  lemma {:induction false} DigitRunAll(s: string)
    requires AllDigits(s)
    ensures DigitRun(s, false) == |s|
  {
    if s != [] {
      DigitRunAll(s[1..]);
    }
  }

  predicate AllHexDigits(s: string) {
    forall i :: 0 <= i < |s| ==> IsHexDigit(s[i])
  }

  predicate InRadix(c: char, hex: bool) {
    if hex then IsHexDigit(c) else IsDigit(c)
  }

  /** A run of digits followed by something that is not a digit is read up to its end. */
  lemma {:induction false} DigitRunStops(d: string, rest: string, hex: bool)
    requires forall i :: 0 <= i < |d| ==> InRadix(d[i], hex)
    requires rest == [] || !InRadix(rest[0], hex)
    ensures DigitRun(d + rest, hex) == |d|
  {
    if d == [] {
      assert d + rest == rest;
    } else {
      assert (d + rest)[1..] == d[1..] + rest;
      DigitRunStops(d[1..], rest, hex);
    }
  }

  /** A decimal numeral followed by text that does not continue it reads as the numeral's
      value; the rest is ignored. */
  lemma MagnitudeDecimal(d: string, rest: string)
    requires |d| > 0 && AllDigits(d)
    requires rest == [] || !IsDigit(rest[0])
    requires !(d == "0" && |rest| > 0 && (rest[0] == 'x' || rest[0] == 'X'))
    ensures Magnitude(d + rest) == Some(DecimalValue(d))
  {
    var u := d + rest;
    assert !HasHexPrefix(u) by {
      if |d| >= 2 {
        assert u[1] == d[1];
      } else if |rest| > 0 {
        assert u[1] == rest[0];
      }
    }
    DigitRunStops(d, rest, false);
    assert u[..|d|] == d;
  }

  /** `0x` or `0X` and hexadecimal digits in either case read as their value in base 16;
      anything after them is ignored. */
  lemma MagnitudeHex(x: char, h: string, rest: string)
    requires x == 'x' || x == 'X'
    requires |h| > 0 && AllHexDigits(h)
    requires rest == [] || !IsHexDigit(rest[0])
    ensures Magnitude(['0', x] + (h + rest)) == Some(HexValue(h))
  {
    var hr := h + rest;
    var u := ['0', x] + hr;
    assert u[0] == '0' && u[1] == x;
    assert u[2..] == hr;
    DigitRunStops(h, rest, true);
    assert hr[..|h|] == h;
  }

  /** `parseInt` of a decimal numeral, optionally signed: its value with the sign. */
  lemma ParseIntDecimalPrefix(sign: string, d: string, rest: string)
    requires SignText(sign)
    requires |d| > 0 && AllDigits(d)
    requires rest == [] || !IsDigit(rest[0])
    requires !(d == "0" && |rest| > 0 && (rest[0] == 'x' || rest[0] == 'X'))
    ensures ParseInt(sign + (d + rest)) == Some(Signed(sign == ['-'], DecimalValue(d)))
  {
    assert (d + rest)[0] == d[0];
    MagnitudeDecimal(d, rest);
    ParseIntSignedSome(sign, d + rest, DecimalValue(d));
  }

  /** `parseInt` of a hexadecimal numeral, optionally signed: its value with the sign. */
  lemma ParseIntHexPrefix(sign: string, x: char, h: string, rest: string)
    requires SignText(sign)
    requires x == 'x' || x == 'X'
    requires |h| > 0 && AllHexDigits(h)
    requires rest == [] || !IsHexDigit(rest[0])
    ensures ParseInt(sign + (['0', x] + (h + rest))) == Some(Signed(sign == ['-'], HexValue(h)))
  {
    var u := ['0', x] + (h + rest);
    assert u[0] == '0';
    MagnitudeHex(x, h, rest);
    ParseIntSignedSome(sign, u, HexValue(h));
  }

  /** Leading white space makes no difference to `parseInt`. */
  lemma ParseIntSkipsSpaces(w: string, s: string)
    requires AllSpaces(w)
    ensures ParseInt(w + s) == ParseInt(s)
  {
    LeadingSpacesAppend(w, s);
    assert (w + s)[|w| + LeadingSpaces(s)..] == s[LeadingSpaces(s)..];
    assert TrimStart(w + s) == TrimStart(s);
  }

  lemma {:induction false} LeadingSpacesAppend(w: string, s: string)
    requires AllSpaces(w)
    ensures LeadingSpaces(w + s) == |w| + LeadingSpaces(s)
  {
    if w == [] {
      assert w + s == s;
    } else {
      assert (w + s)[1..] == w[1..] + s;
      LeadingSpacesAppend(w[1..], s);
    }
  }

  /** The lower-case hexadecimal numeral of `n` in exactly `width` digits, with leading
      zeros, as `ObjectId.toHexString` writes the low digits of an id. */
  function HexString(n: nat, width: nat): (r: string)
    ensures |r| == width && AllHexDigits(r)
    decreases width
  {
    if width == 0 then []
    else HexString(n / 16, width - 1) + ["0123456789abcdef"[n % 16]]
  }

  function Pow16(k: nat): nat {
    if k == 0 then 1 else 16 * Pow16(k - 1)
  }

  /** Reading a numeral back gives the number, when it fits in that many digits. */
  lemma {:induction false} HexStringValue(n: nat, width: nat)
    requires n < Pow16(width)
    ensures HexValue(HexString(n, width)) == n
    decreases width
  {
    if width > 0 {
      var s := HexString(n, width);
      assert n / 16 < Pow16(width - 1);
      HexStringValue(n / 16, width - 1);
      assert s[..|s| - 1] == HexString(n / 16, width - 1);
      var c := "0123456789abcdef"[n % 16];
      assert HexDigitValue(c) == n % 16;
    }
  }

  /** Upper- and lower-case hexadecimal digits have the same value. */
  lemma {:induction false} HexValueIgnoresCase(s: string, t: string)
    requires AllHexDigits(s) && |s| == |t|
    requires forall i :: 0 <= i < |s| ==> LowerChar(s[i]) == LowerChar(t[i])
    ensures AllHexDigits(t) && HexValue(s) == HexValue(t)
    decreases |s|
  {
    forall i | 0 <= i < |t| ensures IsHexDigit(t[i]) {
      assert LowerChar(s[i]) == LowerChar(t[i]);
    }
    if s != [] {
      var k := |s| - 1;
      HexValueIgnoresCase(s[..k], t[..k]);
      assert LowerChar(s[k]) == LowerChar(t[k]);
      assert HexDigitValue(s[k]) == HexDigitValue(t[k]);
    }
  }
}
