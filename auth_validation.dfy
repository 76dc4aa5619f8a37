/**
 * The input validators of the authentication routes: the e-mail and
 * user-name patterns, the password rules, and the order in which the
 * registration and password-reset routes apply them before touching the
 * database.
 */
module AuthValidation {
  import opened Wrappers
  import opened JsText

  // ---------------------------------------------------------------------------
  // E-mail: /^[^\s@]+@[^\s@]+\.[^\s@]+$/
  // ---------------------------------------------------------------------------

  /** The number of occurrences of `c` in `s`. */
  function CountChar(s: string, c: char): nat {
    if |s| == 0 then 0 else (if s[0] == c then 1 else 0) + CountChar(s[1..], c)
  }

  /** `indexOf`: the first position of `c`, or -1. */
  function IndexOf(s: string, c: char): (i: int)
    ensures -1 <= i < |s|
    ensures i >= 0 ==> s[i] == c && forall j :: 0 <= j < i ==> s[j] != c
    ensures i == -1 ==> forall j :: 0 <= j < |s| ==> s[j] != c
  {
    if |s| == 0 then -1
    else if s[0] == c then 0
    else
      var k := IndexOf(s[1..], c);
      if k == -1 then -1 else k + 1
  }

  predicate NoSpace(s: string) {
    forall i :: 0 <= i < |s| ==> !IsSpace(s[i])
  }

  /** A '.' that is neither the first nor the last character. */
  predicate HasInnerDot(d: string) {
    exists k :: 0 < k < |d| - 1 && d[k] == '.'
  }

  /**
   * `isValidEmail`, as the address reads: no whitespace, exactly one '@',
   * something before it, and a domain with a '.' inside it.
   */
  predicate IsValidEmail(email: string) {
    var at := IndexOf(email, '@');
    && NoSpace(email)
    && CountChar(email, '@') == 1
    && at > 0
    && HasInnerDot(email[at + 1..])
  }

  /**
   * The pattern's own reading: the address splits at position `a` ('@') and
   * `b` ('.') into three non-empty runs of characters that are neither
   * whitespace nor '@'.
   */
  predicate EmailSplit(s: string, a: int, b: int) {
    && 0 < a && a + 1 < b && b + 1 < |s|
    && s[a] == '@' && s[b] == '.'
    && (forall i :: 0 <= i < |s| && i != a ==> s[i] != '@')
    && NoSpace(s)
  }

  ghost predicate EmailPattern(s: string) {
    exists a, b :: EmailSplit(s, a, b)
  }

  lemma {:induction false} CountZero(s: string, c: char)
    ensures CountChar(s, c) == 0 <==> forall i :: 0 <= i < |s| ==> s[i] != c
  {
    if |s| > 0 {
      CountZero(s[1..], c);
      assert forall i :: 1 <= i < |s| ==> s[1..][i - 1] == s[i];
    }
  }

  lemma {:induction false} CountOne(s: string, c: char, a: int)
    requires 0 <= a < |s| && s[a] == c
    ensures CountChar(s, c) == 1 <==> forall i :: 0 <= i < |s| && i != a ==> s[i] != c
  {
    assert forall i :: 1 <= i < |s| ==> s[1..][i - 1] == s[i];
    if a == 0 {
      CountZero(s[1..], c);
    } else {
      CountOne(s[1..], c, a - 1);
      if s[0] == c {
        CountZero(s[1..], c);
        assert s[1..][a - 1] == c;
      }
    }
  }

  /** The reading of the address agrees with the pattern, in both directions. */
  lemma EmailMatchesPattern(s: string)
    ensures IsValidEmail(s) <==> EmailPattern(s)
  {
    var at := IndexOf(s, '@');
    if IsValidEmail(s) {
      CountOne(s, '@', at);
      var d := s[at + 1..];
      var k :| 0 < k < |d| - 1 && d[k] == '.';
      assert EmailSplit(s, at, at + 1 + k);
    }
    if EmailPattern(s) {
      var a, b :| EmailSplit(s, a, b);
      assert at == a;
      CountOne(s, '@', a);
      var d := s[a + 1..];
      assert d[b - a - 1] == '.';
    }
  }

  // ---------------------------------------------------------------------------
  // User name: /^[a-zA-Z0-9_]{2,20}$/
  // ---------------------------------------------------------------------------

  predicate IsWordChar(c: char) {
    IsAsciiUpper(c) || IsAsciiLower(c) || IsDigit(c) || c == '_'
  }

  /** The greedy run of `[a-zA-Z0-9_]` at the start of `s`. */
  function WordRun(s: string): (n: nat)
    ensures n <= |s|
  {
    if |s| > 0 && IsWordChar(s[0]) then 1 + WordRun(s[1..]) else 0
  }

  /** `isValidUsername`: the run covers the whole name, and the name has 2 to 20 characters. */
  predicate IsValidUsername(username: string) {
    WordRun(username) == |username| && 2 <= |username| <= 20
  }

  lemma {:induction false} WordRunAll(s: string)
    ensures WordRun(s) == |s| <==> forall i :: 0 <= i < |s| ==> IsWordChar(s[i])
  {
    if |s| > 0 {
      WordRunAll(s[1..]);
      assert forall i :: 1 <= i < |s| ==> s[1..][i - 1] == s[i];
    }
  }

  /** A user name is valid exactly when it has 2 to 20 characters, all letters, digits or '_'. */
  lemma UsernameRule(username: string)
    ensures IsValidUsername(username) <==>
      2 <= |username| <= 20 && forall i :: 0 <= i < |username| ==> IsWordChar(username[i])
  {
    WordRunAll(username);
  }

  // ---------------------------------------------------------------------------
  // Password rules
  // ---------------------------------------------------------------------------

  /** The four password rules, in the order they are checked. */
  datatype PasswordRule = MinLength | Uppercase | Lowercase | Digit

  function Rank(r: PasswordRule): nat {
    match r
    case MinLength => 0
    case Uppercase => 1
    case Lowercase => 2
    case Digit => 3
  }

  /** The text each failed rule contributes to the error message. */
  function RuleText(r: PasswordRule): string {
    match r
    case MinLength => "au moins 8 caractères"
    case Uppercase => "une majuscule"
    case Lowercase => "une minuscule"
    case Digit => "un chiffre"
  }

  predicate HasUpper(p: string) { exists i :: 0 <= i < |p| && IsAsciiUpper(p[i]) }
  predicate HasLower(p: string) { exists i :: 0 <= i < |p| && IsAsciiLower(p[i]) }
  predicate HasDigit(p: string) { exists i :: 0 <= i < |p| && IsDigit(p[i]) }

  /** Whether the password meets one rule. */
  predicate Meets(p: string, r: PasswordRule) {
    match r
    case MinLength => |p| >= 8
    case Uppercase => HasUpper(p)
    case Lowercase => HasLower(p)
    case Digit => HasDigit(p)
  }

  /**
   * `validatePassword`: every failed rule, once, in the order length,
   * uppercase, lowercase, digit; empty exactly when all four hold.
   */
  function ValidatePassword(p: string): (errors: seq<PasswordRule>)
    ensures forall r :: r in errors <==> !Meets(p, r)
    ensures forall i, j :: 0 <= i < j < |errors| ==> Rank(errors[i]) < Rank(errors[j])
    ensures errors == [] <==> |p| >= 8 && HasUpper(p) && HasLower(p) && HasDigit(p)
    ensures |errors| <= 4
  {
    (if |p| < 8 then [MinLength] else [])
    + (if !HasUpper(p) then [Uppercase] else [])
    + (if !HasLower(p) then [Lowercase] else [])
    + (if !HasDigit(p) then [Digit] else [])
  }

  /** The texts of a list of rules, in order. */
  function RuleTexts(rules: seq<PasswordRule>): (texts: seq<string>)
    ensures |texts| == |rules| && forall i :: 0 <= i < |rules| ==> texts[i] == RuleText(rules[i])
  {
    if |rules| == 0 then [] else [RuleText(rules[0])] + RuleTexts(rules[1..])
  }

  /** The 400 message for a weak password. */
  function PasswordMessage(errors: seq<PasswordRule>): string {
    "Le mot de passe doit contenir " + Join(RuleTexts(errors), ", ")
  }

  // ---------------------------------------------------------------------------
  // The route-level checks
  // ---------------------------------------------------------------------------

  /** A body field is usable when present and not the empty string (JS truthiness). */
  predicate Given(f: Option<string>) {
    f.Some? && f.value != ""
  }

  /** Why a request was refused with 400, or that it may go on to the database. */
  datatype Verdict = MissingFields | BadEmail | BadUsername | WeakPassword(message: string) | Proceed

  /** `POST /api/auth/register` up to the database lookups. */
  function CheckRegistration(email: Option<string>, password: Option<string>, username: Option<string>): (v: Verdict)
    ensures v == MissingFields <==> !(Given(email) && Given(password) && Given(username))
    ensures v == Proceed <==>
      && Given(email) && Given(password) && Given(username)
      && IsValidEmail(email.value) && IsValidUsername(username.value) && ValidatePassword(password.value) == []
    ensures v == BadEmail <==> Given(email) && Given(password) && Given(username) && !IsValidEmail(email.value)
    ensures v == BadUsername <==>
      && Given(email) && Given(password) && Given(username)
      && IsValidEmail(email.value) && !IsValidUsername(username.value)
    ensures v.WeakPassword? <==>
      && Given(email) && Given(password) && Given(username)
      && IsValidEmail(email.value) && IsValidUsername(username.value) && ValidatePassword(password.value) != []
    ensures v.WeakPassword? ==> v.message == PasswordMessage(ValidatePassword(password.value)) && ValidatePassword(password.value) != []
  {
    if !(Given(email) && Given(password) && Given(username)) then MissingFields
    else if !IsValidEmail(email.value) then BadEmail
    else if !IsValidUsername(username.value) then BadUsername
    else
      var errors := ValidatePassword(password.value);
      if |errors| > 0 then WeakPassword(PasswordMessage(errors)) else Proceed
  }

  /** A registration goes on only with an address that matches the e-mail pattern. */
  lemma RegistrationMatchesPattern(email: Option<string>, password: Option<string>, username: Option<string>)
    requires CheckRegistration(email, password, username) == Proceed
    ensures EmailPattern(email.value)
  {
    EmailMatchesPattern(email.value);
  }

  /** `POST /api/auth/reset-password` up to the token lookup. */
  function CheckReset(token: Option<string>, password: Option<string>): (v: Verdict)
    ensures v == MissingFields <==> !(Given(token) && Given(password))
    ensures v == Proceed <==> Given(token) && Given(password) && ValidatePassword(password.value) == []
    ensures v != MissingFields && v != Proceed ==> v == WeakPassword(PasswordMessage(ValidatePassword(password.value)))
  {
    if !(Given(token) && Given(password)) then MissingFields
    else
      var errors := ValidatePassword(password.value);
      if |errors| > 0 then WeakPassword(PasswordMessage(errors)) else Proceed
  }

  /** A password missing everything gets all four rules in order; a sound one gets none. */
  lemma PasswordExamples()
    ensures ValidatePassword("") == [MinLength, Uppercase, Lowercase, Digit]
    ensures ValidatePassword("Abcdefg1") == []
  {
    var p := "Abcdefg1";
    assert IsAsciiUpper(p[0]) && IsAsciiLower(p[1]) && IsDigit(p[7]);
  }
}
