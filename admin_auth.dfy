/** The admin gate (middleware/auth.js): where the token is taken from, and
    what is decided once it has been checked. Token verification itself is
    a parameter: it either yields the decoded claims or fails. */
module AdminAuth {
  import opened Js

  /** The decoded token claims that matter here. */
  datatype Claims = Claims(subject: string, isAdmin: bool)

  datatype Denial =
    | NoToken      // 403 "No token provided"
    | InvalidToken // 401 "Invalid or expired token"
    | NotAdmin     // 403 "Access denied: Admin only"
  {
    function Status(): int
    {
      match this
      case InvalidToken => 401
      case _ => 403
    }
  }

  /** The header prefix that marks a bearer token. */
  const BearerPrefix: string := "Bearer "

  predicate StartsWith(s: string, prefix: string)
  {
    |prefix| <= |s| && s[..|prefix|] == prefix
  }

  /** `s.split(sep)`: the pieces between the separators, empty ones
      included. */
  function Split(s: string, sep: char): (r: seq<string>)
    ensures |r| >= 1
    decreases |s|
  {
    match IndexOfChar(s, sep)
    case None => [s]
    case Some(i) => [s[..i]] + Split(s[i + 1..], sep)
  }

  /** No piece holds the separator. */
  lemma {:induction false} SplitPiecesHaveNoSeparator(s: string, sep: char)
    ensures forall k :: 0 <= k < |Split(s, sep)| ==> sep !in Split(s, sep)[k]
    decreases |s|
  {
    match IndexOfChar(s, sep)
    case None =>
    case Some(i) =>
      SplitPiecesHaveNoSeparator(s[i + 1..], sep);
  }

  /** Putting the pieces back together with the separator. */
  function Join(pieces: seq<string>, sep: char): string
    requires |pieces| >= 1
    decreases |pieces|
  {
    if |pieces| == 1 then pieces[0] else pieces[0] + [sep] + Join(pieces[1..], sep)
  }

  lemma JoinCons(p: string, ps: seq<string>, sep: char)
    requires |ps| >= 1
    ensures Join([p] + ps, sep) == p + [sep] + Join(ps, sep)
  {
    assert ([p] + ps)[1..] == ps;
  }

  /** Splitting loses nothing: joining the pieces gives the text back. */
  lemma {:induction false} JoinSplit(s: string, sep: char)
    ensures Join(Split(s, sep), sep) == s
    decreases |s|
  {
    match IndexOfChar(s, sep)
    case None =>
    case Some(i) =>
      var rest := s[i + 1..];
      var tail := Split(rest, sep);
      JoinSplit(rest, sep);
      assert Split(s, sep) == [s[..i]] + tail;
      JoinCons(s[..i], tail, sep);
      assert s == s[..i] + [sep] + rest;
  }

  /** The text up to the first space. */
  function FirstWord(s: string): (r: string)
    ensures |r| <= |s| && r == s[..|r|]
    ensures ' ' !in r
    ensures |r| < |s| ==> s[|r|] == ' '
  {
    match IndexOfChar(s, ' ')
    case None => s
    case Some(i) => s[..i]
  }

  /** Behind the `Bearer ` prefix, the second space-separated piece is the
      text up to the next space. */
  lemma BearerPiece(h: string)
    requires StartsWith(h, BearerPrefix)
    ensures |Split(h, ' ')| >= 2 && Split(h, ' ')[1] == FirstWord(h[|BearerPrefix|..])
  {
    assert h[..7] == BearerPrefix;
    assert h[6] == h[..7][6] == ' ';
    assert forall k :: 0 <= k < 6 ==> h[k] == BearerPrefix[k] != ' ';
    assert IndexOfChar(h, ' ') == Some(6);
  }

  /** The token: a truthy `adminToken` cookie, else the second piece of an
      `Authorization` header starting with `Bearer `, else none. */
  function SelectToken(cookie: Option<string>, header: Option<string>): (r: Option<string>)
    ensures Present(cookie) ==> r == cookie
    ensures !Present(cookie) && !(Present(header) && StartsWith(header.value, BearerPrefix)) ==> r == None
    ensures !Present(cookie) && Present(header) && StartsWith(header.value, BearerPrefix) ==>
              r == Some(FirstWord(header.value[|BearerPrefix|..]))
  {
    if Present(cookie) then cookie
    else if Present(header) && StartsWith(header.value, BearerPrefix) then
      BearerPiece(header.value);
      Some(Split(header.value, ' ')[1])
    else None
  }

  /** What follows from the token and the outcome of verifying it
      (`verify` yields None when verification throws). */
  function Decide(token: Option<string>, verify: string -> Option<Claims>): (r: Result<Claims, Denial>)
    ensures !Present(token) ==> r == Err(NoToken)
    ensures Present(token) && verify(token.value).None? ==> r == Err(InvalidToken)
    ensures Present(token) && verify(token.value).Some? && !verify(token.value).value.isAdmin ==> r == Err(NotAdmin)
    ensures r.Ok? <==> Present(token) && verify(token.value).Some? && verify(token.value).value.isAdmin
    ensures r.Ok? ==> r.value == verify(token.value).value
  {
    if !Present(token) then Err(NoToken)
    else match verify(token.value)
      case None => Err(InvalidToken)
      case Some(claims) => if !claims.isAdmin then Err(NotAdmin) else Ok(claims)
  }

  /** Without a token the outcome does not depend on the verifier at all:
      verification is never attempted. */
  lemma NoTokenNeverVerifies(token: Option<string>, v1: string -> Option<Claims>, v2: string -> Option<Claims>)
    requires !Present(token)
    ensures Decide(token, v1) == Decide(token, v2) == Err(NoToken)
  {
  }

  /** A truthy cookie wins whatever the header says. */
  lemma CookieTakesPrecedence(cookie: string, h1: Option<string>, h2: Option<string>)
    requires cookie != ""
    ensures SelectToken(Some(cookie), h1) == SelectToken(Some(cookie), h2) == Some(cookie)
  {
  }

  /** A header with another scheme, or the scheme in lower case, gives no
      token. */
  lemma OtherSchemeExamples()
    ensures SelectToken(None, Some("Token abc")) == None
    ensures SelectToken(None, Some("bearer abc")) == None
  {
    assert "Token abc"[..7][0] != BearerPrefix[0];
    assert "bearer abc"[..7][0] != BearerPrefix[0];
  }

  /** The token stops at the next space. */
  lemma BearerExample()
    ensures SelectToken(None, Some("Bearer abc def")) == Some("abc")
  {
    var h := "Bearer abc def";
    assert h[..7] == BearerPrefix;
    assert StartsWith(h, BearerPrefix);
    var rest := "abc def";
    assert h[7..] == rest;
    assert rest[..3] == "abc" && rest[3] == ' ';
    IndexOfCharFirst(rest, ' ', 3);
    assert FirstWord(rest) == "abc";
  }

  /** A bearer prefix with nothing after it, or with a second space, gives
      an empty token, which counts as none. */
  lemma EmptyBearerExamples()
    ensures !Present(SelectToken(None, Some("Bearer ")))
    ensures !Present(SelectToken(None, Some("Bearer  abc")))
  {
    assert "Bearer "[..7] == BearerPrefix;
    assert "Bearer "[7..] == "";
    var h := "Bearer  abc";
    assert h[..7] == BearerPrefix;
    assert h[7..] == " abc";
    assert IndexOfChar(" abc", ' ') == Some(0);
  }

  /** The request as the middleware sees it; `admin` is `req.admin`. */
  class AdminRequest {
    const cookie: Option<string>
    const authorization: Option<string>
    var admin: Option<Claims>

    constructor (cookie: Option<string>, authorization: Option<string>)
      ensures this.cookie == cookie && this.authorization == authorization && admin == None
    {
      this.cookie := cookie;
      this.authorization := authorization;
      admin := None;
    }

    /** `verifyAdmin(req, res, next)`: Ok stands for `next()`, after the
        claims were attached to the request; a denial leaves it as it was. */
    method VerifyAdmin(verify: string -> Option<Claims>) returns (r: Result<Claims, Denial>)
      modifies this`admin
      ensures r == Decide(SelectToken(cookie, authorization), verify)
      ensures r.Ok? ==> admin == Some(r.value) && r.value.isAdmin
      ensures r.Err? ==> admin == old(admin)
    {
      var token := SelectToken(cookie, authorization);
      if !Present(token) {
        return Err(NoToken);
      }
      var decoded := verify(token.value);
      if decoded.None? {
        return Err(InvalidToken);
      }
      if !decoded.value.isAdmin {
        return Err(NotAdmin);
      }
      admin := decoded;
      r := Ok(decoded.value);
    }
  }
}
