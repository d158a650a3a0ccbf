/** The sign-up guard (middleware/registerAuth.js): four checks in a fixed
    order before a registration may proceed. */
module RegisterAuth {
  import opened Js

  datatype RegisterError =
    | MissingFields              // 400 "Please fill in all required fields."
    | AlreadyRegistered          // 409 "This email is already registered."
    | BadEmail(fullName: string) // 400 "<fullName>, your email format is invalid."
    | ShortPassword              // 400 "Password must be at least 6 characters long."
  {
    function Status(): int
    {
      match this
      case AlreadyRegistered => 409
      case _ => 400
    }
  }

  /** The shortest password accepted. */
  const MinPasswordLength: nat := 6

  // ---------------- the e-mail pattern ----------------

  /** `[a-zA-Z0-9._%+-]` */
  predicate IsLocalChar(c: char)
  {
    IsLetter(c) || IsDigit(c) || c == '.' || c == '_' || c == '%' || c == '+' || c == '-'
  }

  /** `[a-zA-Z0-9.-]` */
  predicate IsDomainChar(c: char)
  {
    IsLetter(c) || IsDigit(c) || c == '.' || c == '-'
  }

  predicate AllLocal(s: string) { forall i :: 0 <= i < |s| ==> IsLocalChar(s[i]) }

  predicate AllDomain(s: string) { forall i :: 0 <= i < |s| ==> IsDomainChar(s[i]) }

  predicate AllLetters(s: string) { forall i :: 0 <= i < |s| ==> IsLetter(s[i]) }

  /** `/^[a-zA-Z0-9._%+-]+@[a-zA-Z0-9.-]+\.[a-zA-Z]{2,}$/`: a non-empty
      local part, an `@`, a non-empty domain, a dot, and at least two
      letters, nothing before or after. */
  ghost predicate MatchesEmailPattern(s: string)
  {
    exists at, dot :: 0 < at && at + 1 < dot && |s| - dot - 1 >= 2
      && s[at] == '@' && s[dot] == '.'
      && AllLocal(s[..at]) && AllDomain(s[at + 1..dot]) && AllLetters(s[dot + 1..])
  }

  /** The last position of `c`, if any. */
  function LastIndexOfChar(s: string, c: char): (r: Option<nat>)
    ensures r.None? ==> forall k :: 0 <= k < |s| ==> s[k] != c
    ensures r.Some? ==> r.value < |s| && s[r.value] == c && forall k :: r.value < k < |s| ==> s[k] != c
  {
    if |s| == 0 then None
    else if s[|s| - 1] == c then Some(|s| - 1)
    else LastIndexOfChar(s[..|s| - 1], c)
  }

  /** A position holding `c` with no `c` after it is the one found. */
  lemma LastIndexOfCharLast(s: string, c: char, i: nat)
    requires i < |s| && s[i] == c && c !in s[i + 1..]
    ensures LastIndexOfChar(s, c) == Some(i)
  {
    var r := LastIndexOfChar(s, c);
    assert r.Some? && r.value >= i;
  }

  /** Neither `@` nor a dot can occur where the pattern wants letters only,
      and no `@` where it wants local-part characters. */
  lemma LocalHasNoAt(t: string)
    requires AllLocal(t)
    ensures '@' !in t
  {
  }

  lemma LettersHaveNoDot(t: string)
    requires AllLetters(t)
    ensures '.' !in t
  {
  }

  /** The test the regular expression performs, read off left to right:
      the local part ends at the first `@` (it may hold none), and the
      top-level domain starts after the last dot (it may hold none). */
  function EmailShapeOk(s: string): bool
  {
    match IndexOfChar(s, '@')
    case None => false
    case Some(at) =>
      var rest := s[at + 1..];
      match LastIndexOfChar(rest, '.')
      case None => false
      case Some(dot) =>
        at > 0 && AllLocal(s[..at]) && dot > 0 && AllDomain(rest[..dot])
        && |rest| - dot - 1 >= 2 && AllLetters(rest[dot + 1..])
  }

  lemma ShapeOkGivesPattern(s: string)
    requires EmailShapeOk(s)
    ensures MatchesEmailPattern(s)
  {
    var at := IndexOfChar(s, '@').value;
    var rest := s[at + 1..];
    var dot := LastIndexOfChar(rest, '.').value;
    assert s[at + 1..at + 1 + dot] == rest[..dot];
    assert s[at + 1 + dot + 1..] == rest[dot + 1..];
    assert s[at + 1 + dot] == rest[dot];
  }

  /** What `EmailShapeOk` checks, once both searches are known. */
  lemma ShapeOkFromParts(s: string, at: nat, d: nat)
    requires at < |s| && IndexOfChar(s, '@') == Some(at)
    requires LastIndexOfChar(s[at + 1..], '.') == Some(d)
    requires at > 0 && AllLocal(s[..at]) && d > 0 && AllDomain(s[at + 1..][..d])
    requires |s| - at - 1 - d - 1 >= 2 && AllLetters(s[at + 1..][d + 1..])
    ensures EmailShapeOk(s)
  {
  }

  lemma PatternGivesShapeOk(s: string, at: nat, dot: nat)
    requires 0 < at && at + 1 < dot && |s| - dot - 1 >= 2
    requires s[at] == '@' && s[dot] == '.'
    requires AllLocal(s[..at]) && AllDomain(s[at + 1..dot]) && AllLetters(s[dot + 1..])
    ensures EmailShapeOk(s)
  {
    LocalHasNoAt(s[..at]);
    IndexOfCharFirst(s, '@', at);
    var rest := s[at + 1..];
    var d := dot - at - 1;
    assert rest[d] == '.';
    assert rest[..d] == s[at + 1..dot];
    assert rest[d + 1..] == s[dot + 1..];
    LettersHaveNoDot(s[dot + 1..]);
    LastIndexOfCharLast(rest, '.', d);
    ShapeOkFromParts(s, at, d);
  }


  /** The check agrees with the pattern on every string, both ways. */
  lemma EmailShapeOkMeansPattern(s: string)
    ensures EmailShapeOk(s) <==> MatchesEmailPattern(s)
  {
    if EmailShapeOk(s) {
      ShapeOkGivesPattern(s);
    }
    if MatchesEmailPattern(s) {
      var at, dot :| 0 < at && at + 1 < dot && |s| - dot - 1 >= 2
        && s[at] == '@' && s[dot] == '.'
        && AllLocal(s[..at]) && AllDomain(s[at + 1..dot]) && AllLetters(s[dot + 1..]);
      PatternGivesShapeOk(s, at, dot);
    }
  }

  /** Addresses the pattern accepts and rejects. */
  lemma WellFormedExample()
    ensures MatchesEmailPattern("a@b.co")
  {
    var ok := "a@b.co";
    assert ok[..1] == "a" && ok[2..3] == "b" && ok[4..] == "co";
    assert ok[1] == '@' && ok[3] == '.';
  }

  /** A one-letter top-level domain is too short. */
  lemma OneLetterDomainExample()
    ensures !MatchesEmailPattern("a@b.c")
  {
  }

  /** An empty local part is refused. */
  lemma NoLocalPartExample()
    ensures !MatchesEmailPattern("@b.co")
  {
    var s := "@b.co";
    IndexOfCharFirst(s, '@', 0);
    EmailShapeOkMeansPattern(s);
  }

  /** A second `@` cannot sit in the domain. */
  lemma DoubledAtExample()
    ensures !MatchesEmailPattern("a@@b.co")
  {
    var s := "a@@b.co";
    assert s[..1] == "a";
    IndexOfCharFirst(s, '@', 1);
    var rest := s[2..];
    assert rest == "@b.co";
    assert rest[3..] == "co";
    LastIndexOfCharLast(rest, '.', 2);
    assert !IsDomainChar(rest[..2][0]);
    EmailShapeOkMeansPattern(s);
  }

  /** A domain without a dot is refused. */
  lemma NoDotExample()
    ensures !MatchesEmailPattern("a@localhost")
  {
    var s := "a@localhost";
    assert forall k :: 0 <= k < |s| ==> s[k] != '.';
  }

  lemma MalformedExamples()
    ensures !MatchesEmailPattern("@b.co")
    ensures !MatchesEmailPattern("a@@b.co")
    ensures !MatchesEmailPattern("a@localhost")
  {
    NoLocalPartExample();
    DoubledAtExample();
    NoDotExample();
  }

  // ---------------- the guard ----------------

  /** `registerAuth(req, res, next)`, with the users collection given as
      the e-mail addresses already registered: Ok stands for `next()`. */
  function Check(fullName: Option<string>, email: Option<string>, password: Option<string>,
                 registered: set<string>): (r: Result<(), RegisterError>)
    ensures !Present(fullName) || !Present(email) || !Present(password) ==> r == Err(MissingFields)
    ensures Present(fullName) && Present(email) && Present(password) ==>
      && (email.value in registered ==> r == Err(AlreadyRegistered))
      && (email.value !in registered && !MatchesEmailPattern(email.value) ==> r == Err(BadEmail(fullName.value)))
      && (email.value !in registered && MatchesEmailPattern(email.value) && |password.value| < MinPasswordLength ==>
            r == Err(ShortPassword))
    ensures r.Ok? <==>
      && Present(fullName) && Present(email) && Present(password)
      && email.value !in registered
      && MatchesEmailPattern(email.value)
      && |password.value| >= MinPasswordLength
  {
    if !Present(fullName) || !Present(email) || !Present(password) then Err(MissingFields)
    else if email.value in registered then Err(AlreadyRegistered)
    else if (EmailShapeOkMeansPattern(email.value); !EmailShapeOk(email.value)) then Err(BadEmail(fullName.value))
    else if |password.value| < MinPasswordLength then Err(ShortPassword)
    else Ok(())
  }

  /** An address already registered is refused as a duplicate even when it
      is malformed and the password is too short: the lookup comes before
      the format and length checks. */
  lemma DuplicateCheckedFirst(fullName: string, email: string, password: string, registered: set<string>)
    requires fullName != "" && email != "" && password != ""
    requires email in registered
    ensures Check(Some(fullName), Some(email), Some(password), registered).error.Status() == 409
  {
  }
}
