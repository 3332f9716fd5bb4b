/**
 * The two field validators of the signup form, as pure functions.
 * `validateEmail` and `validatePassword` (src/js/main.js) decide acceptance
 * with the tests modelled here; the stateful part (writing the error slot and
 * the input's error mark) is in AppSpec and DatingAppModel.
 */
module FieldChecks {

  const EmailRequired := "Email is required"
  const EmailInvalid := "Please enter a valid email address"
  const PasswordRequired := "Password is required"
  const PasswordTooShort := "Password must be at least 8 characters long"

  /** Minimum password length, counted as JavaScript's `length` counts. */
  const MinPasswordLength := 8

  /** Outcome of one field check: accepted, or rejected with the message shown. */
  datatype Verdict = Accepted | Rejected(message: string)

  /** The characters a JavaScript regular expression's `\s` matches. */
  predicate IsJsWhitespace(c: char) {
    || c == '\t' || c == '\n' || c == '\U{000B}' || c == '\U{000C}' || c == '\r' || c == ' '
    || c == '\U{00A0}' || c == '\U{1680}' || ('\U{2000}' <= c <= '\U{200A}')
    || c == '\U{2028}' || c == '\U{2029}' || c == '\U{202F}' || c == '\U{205F}'
    || c == '\U{3000}' || c == '\U{FEFF}'
  }

  /** The character class `[^\s@]`. */
  predicate Plain(c: char) {
    !IsJsWhitespace(c) && c != '@'
  }

  /** The repetition `[^\s@]+`: a non-empty run of plain characters. */
  predicate PlainRun(t: string) {
    |t| > 0 && forall k | 0 <= k < |t| :: Plain(t[k])
  }

  /**
   * Reference semantics of `^[^\s@]+@[^\s@]+\.[^\s@]+$`: the whole string
   * splits as run, `@`, run, `.`, run. Backtracking lets the `.` be any dot
   * after the `@`, hence the existential.
   */
  ghost predicate MatchesEmailPattern(s: string) {
    exists i, k | 0 <= i < k < |s| ::
      s[i] == '@' && s[k] == '.' && PlainRun(s[..i]) && PlainRun(s[i + 1..k]) && PlainRun(s[k + 1..])
  }

  /** Number of occurrences of `c` in `s`. */
  function Count(s: string, c: char): (n: nat)
    ensures n <= |s|
    ensures n == 0 <==> c !in s
  {
    if s == [] then 0 else (if s[0] == c then 1 else 0) + Count(s[1..], c)
  }

  /** Position of the first occurrence of `c` in `s`. */
  function IndexOf(s: string, c: char): (i: nat)
    requires c in s
    ensures i < |s| && s[i] == c && c !in s[..i]
  {
    if s[0] == c then 0 else 1 + IndexOf(s[1..], c)
  }

  /** `d` holds a `.` with at least one character on each side of it. */
  predicate HasInnerDot(d: string) {
    |d| >= 3 && '.' in d[1..|d| - 1]
  }

  /**
   * The email shape stated field by field: exactly one `@`, no whitespace,
   * a non-empty part before the `@`, and a domain after it that holds a `.`
   * with a character on each side.
   */
  predicate IsEmailShape(s: string) {
    && Count(s, '@') == 1
    && (forall k | 0 <= k < |s| :: !IsJsWhitespace(s[k]))
    && var at := IndexOf(s, '@');
       at > 0 && HasInnerDot(s[at + 1..])
  }

  lemma {:induction false} CountConcat(a: string, b: string, c: char)
    ensures Count(a + b, c) == Count(a, c) + Count(b, c)
  {
    if a == [] {
      assert a + b == b;
    } else {
      assert (a + b)[1..] == a[1..] + b;
      CountConcat(a[1..], b, c);
    }
  }

  /** Two distinct positions holding `c` make at least two occurrences. */
  lemma {:induction false} CountTwoPositions(s: string, c: char, i: nat, j: nat)
    requires i < j < |s| && s[i] == c && s[j] == c
    ensures Count(s, c) >= 2
  {
    if i > 0 {
      CountTwoPositions(s[1..], c, i - 1, j - 1);
    } else {
      assert c in s[1..] by { assert s[1..][j - 1] == c; }
    }
  }

  /** Every character of `s[lo..hi]` is plain exactly when the slice is a plain run (or empty). */
  lemma PlainSlice(s: string, lo: nat, hi: nat)
    requires lo < hi <= |s|
    ensures PlainRun(s[lo..hi]) <==> forall m | lo <= m < hi :: Plain(s[m])
  {
    if forall m | lo <= m < hi :: Plain(s[m]) {
      forall t | 0 <= t < hi - lo ensures Plain(s[lo..hi][t]) {
        assert s[lo..hi][t] == s[lo + t];
      }
    }
    if PlainRun(s[lo..hi]) {
      forall m | lo <= m < hi ensures Plain(s[m]) {
        assert s[m] == s[lo..hi][m - lo];
      }
    }
  }

  /** A character found at one position only occurs once, and there first. */
  lemma SingleOccurrence(s: string, i: nat, c: char)
    requires i < |s| && s[i] == c
    requires forall m | 0 <= m < |s| && m != i :: s[m] != c
    ensures Count(s, c) == 1 && IndexOf(s, c) == i
  {
    assert s == s[..i] + [s[i]] + s[i + 1..];
    assert c !in s[..i] by {
      forall t | 0 <= t < i ensures s[..i][t] != c { assert s[..i][t] == s[t]; }
    }
    var rest := s[i + 1..];
    assert c !in rest by {
      forall t | 0 <= t < |rest| ensures rest[t] != c { assert rest[t] == s[i + 1 + t]; }
    }
    CountConcat(s[..i] + [s[i]], s[i + 1..], c);
    CountConcat(s[..i], [s[i]], c);
  }

  lemma {:induction false} ShapeImpliesPattern(s: string)
    requires IsEmailShape(s)
    ensures MatchesEmailPattern(s)
  {
    var i := IndexOf(s, '@');
    var d := s[i + 1..];
    var j :| 0 <= j < |d| - 2 && d[1..|d| - 1][j] == '.';
    var k := i + 2 + j;
    assert s[k] == '.';
    forall m | 0 <= m < |s| && m != i ensures Plain(s[m]) {
      if m > i && s[m] == '@' { CountTwoPositions(s, '@', i, m); }
    }
    PlainSlice(s, 0, i);
    PlainSlice(s, i + 1, k);
    PlainSlice(s, k + 1, |s|);
    assert s[..i] == s[0..i];
    assert s[k + 1..] == s[k + 1..|s|];
  }

  /** The three runs of a match cover every position except the `@`. */
  lemma PatternPositions(s: string, i: nat, k: nat)
    requires i < k < |s| && s[k] == '.'
    requires PlainRun(s[..i]) && PlainRun(s[i + 1..k]) && PlainRun(s[k + 1..])
    ensures forall m | 0 <= m < |s| && m != i :: Plain(s[m])
  {
    assert s[..i] == s[0..i];
    assert s[k + 1..] == s[k + 1..|s|];
    PlainSlice(s, 0, i);
    PlainSlice(s, i + 1, k);
    PlainSlice(s, k + 1, |s|);
  }

  lemma PatternImpliesShape(s: string, i: nat, k: nat)
    requires i < k < |s| && s[i] == '@' && s[k] == '.'
    requires PlainRun(s[..i]) && PlainRun(s[i + 1..k]) && PlainRun(s[k + 1..])
    ensures IsEmailShape(s)
  {
    PatternPositions(s, i, k);
    forall m | 0 <= m < |s| ensures !IsJsWhitespace(s[m]) {
      if m != i { assert Plain(s[m]); }
    }
    SingleOccurrence(s, i, '@');
    var d := s[i + 1..];
    assert d[1..|d| - 1][k - i - 2] == '.';
  }

  /** The field-by-field shape is exactly the regular expression. */
  lemma EmailShapeIsPattern(s: string)
    ensures IsEmailShape(s) <==> MatchesEmailPattern(s)
  {
    if IsEmailShape(s) { ShapeImpliesPattern(s); }
    if MatchesEmailPattern(s) {
      var i, k :| 0 <= i < k < |s| && s[i] == '@' && s[k] == '.'
        && PlainRun(s[..i]) && PlainRun(s[i + 1..k]) && PlainRun(s[k + 1..]);
      PatternImpliesShape(s, i, k);
    }
  }

  /** `validateEmail`'s decision: empty, then shape, then accepted. */
  function EmailCheck(email: string): (v: Verdict)
    ensures v.Accepted? <==> MatchesEmailPattern(email)
    ensures v == Rejected(EmailRequired) <==> email == ""
    ensures v.Rejected? ==> v.message == EmailRequired || v.message == EmailInvalid
  {
    EmailShapeIsPattern(email);
    if email == "" then Rejected(EmailRequired)
    else if !IsEmailShape(email) then Rejected(EmailInvalid)
    else Accepted
  }

  /** Length of `s` in UTF-16 code units, which is what JavaScript's `length` reports. */
  function Utf16Length(s: string): (n: nat)
    ensures |s| <= n <= 2 * |s|
  {
    if s == [] then 0 else (if s[0] as int > 0xFFFF then 2 else 1) + Utf16Length(s[1..])
  }

  /** `validatePassword`'s decision: empty, then length, then accepted. */
  function PasswordCheck(password: string): (v: Verdict)
    ensures v.Accepted? <==> Utf16Length(password) >= MinPasswordLength
    ensures v == Rejected(PasswordRequired) <==> password == ""
    ensures v.Rejected? ==> v.message == PasswordRequired || v.message == PasswordTooShort
    ensures |password| >= MinPasswordLength ==> v.Accepted?
    ensures v.Accepted? ==> |password| >= MinPasswordLength / 2
  {
    if password == "" then Rejected(PasswordRequired)
    else if Utf16Length(password) < MinPasswordLength then Rejected(PasswordTooShort)
    else Accepted
  }

  /** Every character fits in one UTF-16 code unit (the Basic Multilingual Plane). */
  predicate Bmp(s: string) {
    forall k | 0 <= k < |s| :: s[k] as int <= 0xFFFF
  }

  /** A string of Basic Multilingual Plane characters has one code unit per character. */
  lemma {:induction false} Utf16OfBmp(s: string)
    requires Bmp(s)
    ensures Utf16Length(s) == |s|
  {
    if s != [] {
      assert Bmp(s[1..]) by {
        forall k | 0 <= k < |s| - 1 ensures s[1..][k] as int <= 0xFFFF { assert s[1..][k] == s[k + 1]; }
      }
      Utf16OfBmp(s[1..]);
    }
  }

  /** For such a password, the length rule is a rule on the number of characters. */
  lemma BmpPasswordLength(password: string)
    requires Bmp(password)
    ensures PasswordCheck(password).Accepted? <==> |password| >= MinPasswordLength
    ensures password != "" && |password| < MinPasswordLength ==> PasswordCheck(password) == Rejected(PasswordTooShort)
  {
    Utf16OfBmp(password);
  }

  /** `btoa` accepts only strings whose every code unit is at most 0xFF. */
  predicate Latin1(s: string) {
    forall k | 0 <= k < |s| :: s[k] as int <= 0xFF
  }
}
