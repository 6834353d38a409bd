/**
 * The authentication gate (`authMiddleware`) and the role check (`authorize`),
 * as written in src/routes/FavoriteRouter.js; the Dish, Leader, Promotion and
 * User routers carry identical copies, so the gate is modelled once here.
 *
 * Token verification (`jwt.verify`) is a parameter: a function from the token
 * text to either the decoded claims or the name of the error it throws.
 */
module Gate {
  import opened Common

  /**
   * The decoded token payload that becomes `req.user`.  Tokens signed at login
   * carry `userId` and `role`; `docId` stands for a `_id` claim, which those
   * tokens never carry (the batch favorites handler reads it).
   */
  datatype Claims = Claims(userId: Option<Id>, role: Option<string>, docId: Option<Id>)

  /** The outcome of `jwt.verify`: the decoded claims, or the `name` of the error thrown. */
  datatype Verified = Decoded(claims: Claims) | VerifyError(name: string)

  /** The outcome of `authMiddleware`: `req.user` is set and `next()` runs, or a reply is sent. */
  datatype Authentication = Authenticated(claims: Claims) | Rejected(status: int, message: string)

  /** The outcome of `authorize(roles)`. */
  datatype Authorization = Allowed | Forbidden(status: int, message: string)

  const BEARER: string := "Bearer "
  const NO_TOKEN: string := "Unauthorized - No token provided"
  const INVALID_TOKEN: string := "Unauthorized - Invalid token"
  const INTERNAL: string := "Internal server error"
  const INSUFFICIENT: string := "Forbidden - Insufficient permissions"
  const JWT_ERROR: string := "JsonWebTokenError"

  predicate StartsWith(s: string, prefix: string)
  {
    |prefix| <= |s| && s[..|prefix|] == prefix
  }

  /** `s.split(sep)`: the maximal runs between separators, empty runs included. */
  function Split(s: string, sep: char): (fields: seq<string>)
    ensures |fields| >= 1
    ensures forall k :: 0 <= k < |fields| ==> sep !in fields[k]
    decreases |s|
  {
    if |s| == 0 then [""]
    else if s[0] == sep then [""] + Split(s[1..], sep)
    else
      var rest := Split(s[1..], sep);
      [[s[0]] + rest[0]] + rest[1..]
  }

  /** `fields.join(sep)`, the inverse of Split. */
  function Join(fields: seq<string>, sep: char): string
    requires |fields| >= 1
  {
    if |fields| == 1 then fields[0] else fields[0] + [sep] + Join(fields[1..], sep)
  }

  /** Splitting and joining again gives back the header. */
  lemma {:induction false} SplitJoin(s: string, sep: char)
    ensures Join(Split(s, sep), sep) == s
    decreases |s|
  {
    if |s| > 0 {
      SplitJoin(s[1..], sep);
      var rest := Split(s[1..], sep);
      if s[0] != sep {
        if |rest| == 1 {
          assert s == [s[0]] + rest[0];
        } else {
          assert ([[s[0]] + rest[0]] + rest[1..])[1..] == rest[1..];
          assert s == [s[0]] + (rest[0] + [sep] + Join(rest[1..], sep));
        }
      } else {
        assert s == [sep] + s[1..];
      }
    }
  }

  /** A word free of separators followed by a separator is the first field. */
  lemma {:induction false} SplitAfterWord(w: string, r: string, sep: char)
    requires sep !in w
    ensures Split(w + [sep] + r, sep) == [w] + Split(r, sep)
    decreases |w|
  {
    if |w| == 0 {
      assert w + [sep] + r == [sep] + r;
      assert ([sep] + r)[1..] == r;
    } else {
      assert (w + [sep] + r)[1..] == w[1..] + [sep] + r;
      SplitAfterWord(w[1..], r, sep);
      assert [w[0]] + w[1..] == w;
    }
  }

  /** The first field of `r` is its longest separator-free prefix. */
  lemma {:induction false} SplitFirstField(r: string, sep: char)
    ensures StartsWith(r, Split(r, sep)[0])
    ensures |Split(r, sep)[0]| == |r| || r[|Split(r, sep)[0]|] == sep
    decreases |r|
  {
    if |r| > 0 && r[0] != sep {
      SplitFirstField(r[1..], sep);
      var f := Split(r[1..], sep)[0];
      assert Split(r, sep)[0] == [r[0]] + f;
      assert r[..|f| + 1] == [r[0]] + r[1..][..|f|];
    }
  }

  /**
   * `authHeader.split(' ')[1]` for a header that starts with `Bearer `: the text
   * after the prefix up to the next space (or the end), so the second field.
   */
  function BearerToken(header: string): (token: string)
    requires StartsWith(header, BEARER)
    ensures ' ' !in token
    ensures StartsWith(header, BEARER + token)
    ensures |header| == |BEARER + token| || header[|BEARER + token|] == ' '
  {
    var rest := header[|BEARER|..];
    assert header == "Bearer" + [' '] + rest;
    SplitAfterWord("Bearer", rest, ' ');
    SplitFirstField(rest, ' ');
    assert (BEARER + Split(rest, ' ')[0]) == header[..|BEARER| + |Split(rest, ' ')[0]|];
    Split(header, ' ')[1]
  }

  /**
   * The header an HTTP client sends, `Bearer <token>`, optionally followed by
   * further space-separated text, yields exactly that token.
   */
  lemma BearerTokenOfHeader(token: string, extra: Option<string>)
    requires ' ' !in token
    ensures var header := if extra.None? then BEARER + token else BEARER + token + " " + extra.value;
      StartsWith(header, BEARER) && BearerToken(header) == token
  {
    var header := if extra.None? then BEARER + token else BEARER + token + " " + extra.value;
    var r := header[|BEARER|..];
    assert header[..|BEARER|] == BEARER;
    assert header == "Bearer" + [' '] + r;
    SplitAfterWord("Bearer", r, ' ');
    assert r[..|token|] == token;
    assert |token| == |r| || r[|token|] == ' ';
    FieldIsFirstSplit(r, token, ' ');
  }

  /** A separator-free prefix that ends at a separator or at the end is the first field. */
  lemma {:induction false} FieldIsFirstSplit(r: string, a: string, sep: char)
    requires sep !in a && StartsWith(r, a)
    requires |a| == |r| || r[|a|] == sep
    ensures Split(r, sep)[0] == a
    decreases |a|
  {
    if |a| > 0 {
      assert r[0] == a[0];
      assert r[1..][..|a| - 1] == a[1..];
      FieldIsFirstSplit(r[1..], a[1..], sep);
      assert a == [a[0]] + a[1..];
    }
  }

  /**
   * `authMiddleware`: a missing header or one without the `Bearer ` prefix is
   * answered 401 before verification; a verification error named
   * `JsonWebTokenError` is answered 401, any other (an expired token, for one)
   * 500; otherwise `req.user` is exactly the decoded claims.
   */
  function Authenticate(header: Option<string>, verify: string -> Verified): (r: Authentication)
    ensures (header.None? || !StartsWith(header.value, BEARER)) ==> r == Rejected(UNAUTHORIZED, NO_TOKEN)
    ensures header.Some? && StartsWith(header.value, BEARER) ==>
      match verify(BearerToken(header.value))
      case Decoded(c) => r == Authenticated(c)
      case VerifyError(name) =>
        r == if name == JWT_ERROR then Rejected(UNAUTHORIZED, INVALID_TOKEN) else Rejected(INTERNAL_ERROR, INTERNAL)
  {
    if header.None? || !StartsWith(header.value, BEARER) then Rejected(UNAUTHORIZED, NO_TOKEN)
    else
      match verify(BearerToken(header.value))
      case Decoded(c) => Authenticated(c)
      case VerifyError(name) =>
        if name == JWT_ERROR then Rejected(UNAUTHORIZED, INVALID_TOKEN) else Rejected(INTERNAL_ERROR, INTERNAL)
  }

  /**
   * `authorize(roles)`: absent claims, an absent (or empty) role, or a role not
   * in the list is answered 403; otherwise the request goes on unchanged.
   */
  function Authorize(user: Option<Claims>, roles: seq<string>): (r: Authorization)
    ensures r == Allowed || r == Forbidden(FORBIDDEN, INSUFFICIENT)
    ensures r == Allowed <==> user.Some? && TruthyString(user.value.role) && user.value.role.value in roles
  {
    if user.None? || !TruthyString(user.value.role) || user.value.role.value !in roles then
      Forbidden(FORBIDDEN, INSUFFICIENT)
    else Allowed
  }

  /** A route is public, or mounted after `authMiddleware` with `authorize(roles)`. */
  datatype Access = Public | Protected(roles: seq<string>)

  /** Whether a request reaches the handler, and with which `req.user`. */
  datatype Admission = Admitted(user: Option<Claims>) | Refused(status: int, message: string)

  /** The gates a route runs before its handler, in their order. */
  function Admit(access: Access, header: Option<string>, verify: string -> Verified): (r: Admission)
  {
    match access
    case Public => Admitted(None)
    case Protected(roles) =>
      match Authenticate(header, verify)
      case Rejected(status, message) => Refused(status, message)
      case Authenticated(c) =>
        match Authorize(Some(c), roles)
        case Allowed => Admitted(Some(c))
        case Forbidden(status, message) => Refused(status, message)
  }

  /** A public route is reached without any header at all. */
  lemma PublicNeedsNoToken(header: Option<string>, verify: string -> Verified)
    ensures Admit(Public, header, verify) == Admitted(None)
  {
  }

  /**
   * On a protected route the token is decided before the role: a token failure
   * gives the same 401 or 500 whatever roles the route allows, and only a
   * request with a verified token can be refused with 403.
   */
  lemma TokenBeforeRole(roles: seq<string>, header: Option<string>, verify: string -> Verified)
    ensures Authenticate(header, verify).Rejected? ==>
      Admit(Protected(roles), header, verify) == Refused(Authenticate(header, verify).status, Authenticate(header, verify).message)
    ensures Authenticate(header, verify).Rejected? ==> Authenticate(header, verify).status in {UNAUTHORIZED, INTERNAL_ERROR}
    ensures Admit(Protected(roles), header, verify) == Refused(FORBIDDEN, INSUFFICIENT) ==> Authenticate(header, verify).Authenticated?
  {
  }

  /** A protected route admits exactly the verified tokens whose role is in its list. */
  lemma AdmitIff(roles: seq<string>, header: Option<string>, verify: string -> Verified)
    ensures Admit(Protected(roles), header, verify).Admitted? <==>
      Authenticate(header, verify).Authenticated? &&
      TruthyString(Authenticate(header, verify).claims.role) &&
      Authenticate(header, verify).claims.role.value in roles
    ensures Admit(Protected(roles), header, verify).Admitted? ==>
      Admit(Protected(roles), header, verify).user == Some(Authenticate(header, verify).claims)
  {
  }
}
