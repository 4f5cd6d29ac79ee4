/**
 * What the two mail-sending routes (the booking request and the landing contact form)
 * share: the email-shape test `^[^\s@]+@[^\s@]+\.[^\s@]+$`, the outcome of the mail
 * service call, and the ordered reading of a thrown error.
 */
module MailRoutes {
  import opened Strings
  import opened Records

  // ---- The email shape ----

  /** No character of `s` is whitespace or '@': the class `[^\s@]`. */
  predicate NoSpaceOrAt(s: string)
  {
    forall k :: 0 <= k < |s| ==> !IsSpace(s[k]) && s[k] != '@'
  }

  /** `[^\s@]+`: a non-empty run of that class. */
  ghost predicate Part(x: string)
  {
    x != [] && NoSpaceOrAt(x)
  }

  /** `s` reads as `a@b.c` with three parts. */
  ghost predicate SplitsAs(s: string, a: string, b: string, c: string)
  {
    Part(a) && Part(b) && Part(c) && s == a + "@" + b + "." + c
  }

  /** The whole of `s` matches the anchored pattern, for some choice of the three runs. */
  ghost predicate MatchesEmailShape(s: string)
  {
    exists a, b, c :: SplitsAs(s, a, b, c)
  }

  /** The first position of `c` in `s`. */
  function IndexOfChar(s: string, c: char): (k: nat)
    requires c in s
    ensures k < |s| && s[k] == c && c !in s[..k]
  {
    if s[0] == c then 0
    else
      assert s == [s[0]] + s[1..];
      var k := IndexOfChar(s[1..], c);
      assert s[..k + 1] == [s[0]] + s[1..][..k];
      k + 1
  }

  /**
   * `emailRegex.test(email)`, decided directly: no whitespace, one '@' not at the start,
   * and after it a '.' with at least one character on each side.
   */
  function IsValidEmail(s: string): bool
  {
    NoSpace(s) && '@' in s &&
    var k := IndexOfChar(s, '@');
    var r := s[k + 1..];
    k > 0 && '@' !in r && |r| >= 3 && '.' in r[1..|r| - 1]
  }

  /** A slice of a string without whitespace, holding no '@', is a run of `[^\s@]`. */
  lemma SliceNoSpaceOrAt(s: string, i: nat, j: nat)
    requires i <= j <= |s| && NoSpace(s) && '@' !in s[i..j]
    ensures NoSpaceOrAt(s[i..j])
  {
    forall k | 0 <= k < j - i ensures !IsSpace(s[i..j][k]) && s[i..j][k] != '@' {
      assert s[i..j][k] == s[i + k];
      assert s[i..j][k] in s[i..j];
    }
  }

  /** Cutting `s` at the two separators gives back `s`. */
  lemma CutAtTwo(s: string, k: nat, m: nat)
    requires k < m < |s|
    ensures s == s[..k] + [s[k]] + s[k + 1..m] + [s[m]] + s[m + 1..]
  {
    assert s[..m] == s[..k] + [s[k]] + s[k + 1..m];
    assert s == s[..m] + [s[m]] + s[m + 1..];
  }

  /** No '@' after position `k` in `s`: none in any slice there. */
  lemma NoAtInSubslice(s: string, k: nat, i: nat, j: nat)
    requires k <= i <= j <= |s| && '@' !in s[k..]
    ensures '@' !in s[i..j]
  {
  }

  /** The direct test accepts only strings of the shape. */
  lemma ValidEmailHasShape(s: string)
    requires IsValidEmail(s)
    ensures MatchesEmailShape(s)
  {
    var k := IndexOfChar(s, '@');
    var r := s[k + 1..];
    var j := IndexOfChar(r[1..|r| - 1], '.') + 1;
    var m := k + 1 + j;
    assert s[m] == '.' by { assert r[1..|r| - 1][j - 1] == r[j] == s[m]; }
    SliceNoSpaceOrAt(s, 0, k);
    NoAtInSubslice(s, k + 1, k + 1, m);
    NoAtInSubslice(s, k + 1, m + 1, |s|);
    SliceNoSpaceOrAt(s, k + 1, m);
    SliceNoSpaceOrAt(s, m + 1, |s|);
    CutAtTwo(s, k, m);
    assert SplitsAs(s, s[..k], s[k + 1..m], s[m + 1..]);
  }

  /** The characters of `a@b.c`, position by position. */
  lemma ShapeChars(s: string, a: string, b: string, c: string, i: nat)
    requires s == a + "@" + b + "." + c && i < |s|
    ensures i < |a| ==> s[i] == a[i]
    ensures i == |a| ==> s[i] == '@'
    ensures |a| < i < |a| + 1 + |b| ==> s[i] == b[i - |a| - 1]
    ensures i == |a| + 1 + |b| ==> s[i] == '.'
    ensures |a| + 1 + |b| < i ==> s[i] == c[i - |a| - |b| - 2]
  {
  }

  /** Every string of the shape passes the direct test. */
  lemma ShapeIsValidEmail(s: string, a: string, b: string, c: string)
    requires SplitsAs(s, a, b, c)
    ensures IsValidEmail(s)
  {
    var n, m := |a|, |a| + 1 + |b|;
    forall i | 0 <= i < |s| ensures !IsSpace(s[i]) && (i != n ==> s[i] != '@') {
      ShapeChars(s, a, b, c, i);
    }
    ShapeChars(s, a, b, c, n);
    assert s[n] in s;
    var k := IndexOfChar(s, '@');
    assert k == n;
    var r := s[n + 1..];
    assert '@' !in r by {
      forall t | 0 <= t < |r| ensures r[t] != '@' { assert r[t] == s[n + 1 + t]; }
    }
    ShapeChars(s, a, b, c, m);
    assert r[1..|r| - 1][|b| - 1] == s[m];
  }

  /** The direct test decides the regular expression. */
  /** The hand-written check accepts exactly the strings the pattern matches. */
  lemma EmailCheckMatchesShape(s: string)
    ensures IsValidEmail(s) <==> MatchesEmailShape(s)
  {
    if IsValidEmail(s) {
      ValidEmailHasShape(s);
    }
    if MatchesEmailShape(s) {
      var a, b, c :| SplitsAs(s, a, b, c);
      ShapeIsValidEmail(s, a, b, c);
    }
  }

  // ---- Failures ----

  /** What a `catch` receives: an `Error` with its message, or any other thrown value. */
  datatype Thrown = ErrorWithMessage(message: string) | NonError

  /** The mail service call: it returns, or it throws. */
  datatype SendOutcome = Sent | SendThrew(error: Thrown)

  /** The four answers of the `catch` blocks. */
  datatype ErrorKind = ConfigError | RateLimited | AccessDenied | Unclassified

  /**
   * The `catch` blocks' tests, first match wins: "API key", then "rate limit", then
   * "Forbidden" in the message of an `Error`; anything else is unclassified.
   */
  function Classify(e: Thrown): (k: ErrorKind)
    ensures e.NonError? ==> k == Unclassified
  {
    match e
    case NonError => Unclassified
    case ErrorWithMessage(m) =>
      if Contains(m, "API key") then ConfigError
      else if Contains(m, "rate limit") then RateLimited
      else if Contains(m, "Forbidden") then AccessDenied
      else Unclassified
  }

  /** The status each kind answers with. */
  function StatusOf(k: ErrorKind): (status: int)
    ensures status == 429 <==> k == RateLimited
    ensures status == 403 <==> k == AccessDenied
    ensures status == 500 <==> k == ConfigError || k == Unclassified
  {
    match k
    case ConfigError => 500
    case RateLimited => 429
    case AccessDenied => 403
    case Unclassified => 500
  }

  /** "API key" anywhere in the message decides the answer, whatever else the message says. */
  lemma ApiKeyWins(m: string, i: nat)
    requires OccursAt(m, "API key", i)
    ensures Classify(ErrorWithMessage(m)) == ConfigError
  {
  }

  /** A 429 is answered exactly for a message with "rate limit" and without "API key". */
  lemma RateLimitedIff(e: Thrown)
    ensures StatusOf(Classify(e)) == 429 <==>
      e.ErrorWithMessage? && !Contains(e.message, "API key") && Contains(e.message, "rate limit")
  {
  }

  /** A 403 is answered exactly for "Forbidden" without either earlier pattern. */
  lemma ForbiddenIff(e: Thrown)
    ensures StatusOf(Classify(e)) == 403 <==>
      e.ErrorWithMessage? && !Contains(e.message, "API key") && !Contains(e.message, "rate limit")
      && Contains(e.message, "Forbidden")
  {
  }

  /** The responses both routes share. */
  const MissingFields := ApiResponse(400, false, "Tous les champs obligatoires doivent être remplis")
  const InvalidEmail := ApiResponse(400, false, "Format d'email invalide")
  const ConfigErrorResponse := ApiResponse(500, false, "Erreur de configuration email. Veuillez réessayer plus tard.")
  const AccessDeniedResponse := ApiResponse(403, false, "Problème d'autorisation. Veuillez vérifier la configuration.")
}
