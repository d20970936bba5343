/**
 * Registration, login and the bearer-token check. Password hashing and token signing are
 * foreign library calls, so they enter as parameters: `hashed` is whatever the hasher produced
 * for the submitted password, `matches` is the hash comparison, `sign` issues a token for a
 * user id and email, and `verify` decodes a token or rejects it.
 */
module Accounts {
  import opened Common

  /** A row of the users table. */
  datatype User = User(id: int, email: string, passwordHash: string, name: string)

  /** What the server returns on success: the token and the public part of the user. */
  datatype Session = Session(token: string, userId: int, email: string, name: string)

  /** The decoded payload of a token. */
  datatype Claims = Claims(id: int, email: string)

  /** The users table in insertion order, and the next AUTOINCREMENT id. */
  datatype Users = Users(rows: seq<User>, nextId: int)

  /** A JSON body field is usable when it was sent and is not the empty string. */
  predicate Given(field: Option<string>)
  {
    field.Some? && field.value != ""
  }

  predicate UniqueEmails(us: Users)
  {
    forall i, j :: 0 <= i < j < |us.rows| ==> us.rows[i].email != us.rows[j].email
  }

  /** The first user with this email, as the lookup query returns it. */
  function FindByEmail(rows: seq<User>, email: string): (r: Option<User>)
    ensures r.None? <==> forall i :: 0 <= i < |rows| ==> rows[i].email != email
    ensures r.Some? ==> r.value in rows && r.value.email == email
  {
    if |rows| == 0 then None
    else if rows[0].email == email then Some(rows[0])
    else FindByEmail(rows[1..], email)
  }

  /** POST /register. */
  function Register(
    us: Users, email: Option<string>, password: Option<string>, name: Option<string>,
    hashed: string, sign: (int, string) -> string): (res: (Users, Result<Session, ApiError>))
    ensures var (us', out) := res;
      && (out.Err? ==> us' == us)
      && (!(Given(email) && Given(password) && Given(name)) <==> out == Err(MissingFields))
      && (out == Err(DuplicateEmail) <==>
            Given(email) && Given(password) && Given(name) && FindByEmail(us.rows, email.value).Some?)
      && (out.Ok? <==>
            Given(email) && Given(password) && Given(name) && FindByEmail(us.rows, email.value).None?)
      && (out.Ok? ==>
            && us'.rows == us.rows + [User(us.nextId, email.value, hashed, name.value)]
            && us'.nextId == us.nextId + 1
            && out.value == Session(sign(us.nextId, email.value), us.nextId, email.value, name.value))
      && (UniqueEmails(us) ==> UniqueEmails(us'))
  {
    if !(Given(email) && Given(password) && Given(name)) then
      (us, Err(MissingFields))
    else if FindByEmail(us.rows, email.value).Some? then
      (us, Err(DuplicateEmail))
    else
      var u := User(us.nextId, email.value, hashed, name.value);
      (Users(us.rows + [u], us.nextId + 1), Ok(Session(sign(u.id, u.email), u.id, u.email, u.name)))
  }

  /** POST /login. */
  function Login(
    us: Users, email: Option<string>, password: Option<string>,
    matches: (string, string) -> bool, sign: (int, string) -> string): (out: Result<Session, ApiError>)
    ensures out == Err(MissingFields) <==> !(Given(email) && Given(password))
    ensures out == Err(InvalidCredentials) <==>
      && Given(email) && Given(password)
      && (FindByEmail(us.rows, email.value).None?
          || !matches(password.value, FindByEmail(us.rows, email.value).value.passwordHash))
    ensures out.Ok? <==>
      && Given(email) && Given(password)
      && FindByEmail(us.rows, email.value).Some?
      && matches(password.value, FindByEmail(us.rows, email.value).value.passwordHash)
    ensures out.Ok? ==>
      var u := FindByEmail(us.rows, email.value).value;
      out.value == Session(sign(u.id, u.email), u.id, u.email, u.name)
  {
    if !(Given(email) && Given(password)) then Err(MissingFields)
    else match FindByEmail(us.rows, email.value)
      case None => Err(InvalidCredentials)
      case Some(u) =>
        if !matches(password.value, u.passwordHash) then Err(InvalidCredentials)
        else Ok(Session(sign(u.id, u.email), u.id, u.email, u.name))
  }

  /**
   * A user who has just registered can log in with the same email and password, and gets
   * the id registration assigned, provided the hash comparison accepts the password
   * against the hash made from it.
   */
  lemma RegisterThenLogin(
    us: Users, email: string, password: string, name: string, hashed: string,
    matches: (string, string) -> bool, sign: (int, string) -> string)
    requires matches(password, hashed)
    requires Register(us, Some(email), Some(password), Some(name), hashed, sign).1.Ok?
    ensures var us' := Register(us, Some(email), Some(password), Some(name), hashed, sign).0;
      Login(us', Some(email), Some(password), matches, sign)
        == Ok(Session(sign(us.nextId, email), us.nextId, email, name))
  {
    var us' := Register(us, Some(email), Some(password), Some(name), hashed, sign).0;
    FindAppended(us.rows, User(us.nextId, email, hashed, name));
  }

  /** Looking up the email of a user appended after every row with a different email finds that user. */
  lemma {:induction false} FindAppended(rows: seq<User>, u: User)
    requires FindByEmail(rows, u.email).None?
    ensures FindByEmail(rows + [u], u.email) == Some(u)
  {
    if |rows| > 0 {
      assert (rows + [u])[1..] == rows[1..] + [u];
      FindAppended(rows[1..], u);
    }
  }

  /** Registering the same email twice is refused and leaves the table as it was. */
  lemma DuplicateRegistrationRefused(
    us: Users, email: string, p1: string, n1: string, h1: string,
    p2: string, n2: string, h2: string, sign: (int, string) -> string)
    requires Register(us, Some(email), Some(p1), Some(n1), h1, sign).1.Ok?
    requires p2 != "" && n2 != ""
    ensures var us' := Register(us, Some(email), Some(p1), Some(n1), h1, sign).0;
      Register(us', Some(email), Some(p2), Some(n2), h2, sign) == (us', Err(DuplicateEmail))
  {
    var us' := Register(us, Some(email), Some(p1), Some(n1), h1, sign).0;
    assert us'.rows[|us'.rows| - 1].email == email;
  }

  // ----- Bearer tokens -----

  /** JavaScript's `s.split(sep)`: the pieces between separators, at least one. */
  function Split(s: string, sep: char): (parts: seq<string>)
    ensures |parts| >= 1
    ensures |parts| > 1 <==> sep in s
    ensures forall i :: 0 <= i < |parts| ==> sep !in parts[i]
  {
    if |s| == 0 then [""]
    else
      var rest := Split(s[1..], sep);
      if s[0] == sep then [""] + rest
      else [[s[0]] + rest[0]] + rest[1..]
  }

  /** `parts.join(sep)`. */
  function Join(parts: seq<string>, sep: char): string
    requires |parts| >= 1
  {
    if |parts| == 1 then parts[0] else parts[0] + [sep] + Join(parts[1..], sep)
  }

  /** Splitting and joining again gives back the original header. */
  lemma {:induction false} SplitJoin(s: string, sep: char)
    ensures Join(Split(s, sep), sep) == s
  {
    if |s| > 0 {
      var rest := Split(s[1..], sep);
      SplitJoin(s[1..], sep);
      if s[0] == sep {
        assert Split(s, sep)[1..] == rest;
      } else {
        var parts := Split(s, sep);
        assert parts[0] == [s[0]] + rest[0];
        assert parts[1..] == rest[1..];
      }
    }
  }

  /** A piece with no separator in it is not split. */
  lemma {:induction false} SplitWhole(s: string, sep: char)
    requires sep !in s
    ensures Split(s, sep) == [s]
  {
    if |s| > 0 {
      assert forall i :: 0 <= i < |s| - 1 ==> s[1..][i] == s[i + 1];
      SplitWhole(s[1..], sep);
      assert [s[0]] + s[1..] == s;
    }
  }

  /** Text without a separator, a separator, then more text: the first piece is that text. */
  lemma {:induction false} SplitAtFirst(a: string, b: string, sep: char)
    requires sep !in a
    ensures Split(a + [sep] + b, sep) == [a] + Split(b, sep)
  {
    if |a| == 0 {
      assert a + [sep] + b == [sep] + b;
      assert ([sep] + b)[1..] == b;
    } else {
      assert (a + [sep] + b)[1..] == a[1..] + [sep] + b;
      SplitAtFirst(a[1..], b, sep);
      assert [a[0]] + a[1..] == a;
    }
  }

  /** `req.headers['authorization']?.split(' ')[1]`: the second space-separated piece, if any. */
  function BearerToken(header: Option<string>): (token: Option<string>)
    ensures token.Some? <==> header.Some? && ' ' in header.value
    ensures token.Some? ==> ' ' !in token.value
  {
    match header
    case None => None
    case Some(h) =>
      var parts := Split(h, ' ');
      if |parts| > 1 then Some(parts[1]) else None
  }

  /**
   * The token is the piece after the first space, whatever word comes before it: the
   * scheme is never checked, so `Basic <token>` is read the same way as `Bearer <token>`.
   */
  lemma TokenAfterFirstSpace(scheme: string, rest: string)
    requires ' ' !in scheme
    ensures BearerToken(Some(scheme + [' '] + rest)) == Some(Split(rest, ' ')[0])
  {
    SplitAtFirst(scheme, rest, ' ');
  }

  /** The authenticateToken middleware: 401 without a token, 403 when it does not verify. */
  function Authenticate(header: Option<string>, verify: string -> Option<Claims>): (r: Result<Claims, ApiError>)
    ensures r == Err(MissingToken) <==> !Given(BearerToken(header))
    ensures r == Err(InvalidToken) <==> Given(BearerToken(header)) && verify(BearerToken(header).value).None?
    ensures r.Ok? <==> Given(BearerToken(header)) && verify(BearerToken(header).value).Some?
    ensures r.Ok? ==> verify(BearerToken(header).value) == Some(r.value)
  {
    var token := BearerToken(header);
    if !Given(token) then Err(MissingToken)
    else match verify(token.value)
      case None => Err(InvalidToken)
      case Some(claims) => Ok(claims)
  }

  /**
   * A token sent as `Bearer <token>` is the one the middleware checks: when the verifier
   * accepts what the signer issued, the caller is identified as the signed user.
   */
  lemma SignedTokenAuthenticates(
    id: int, email: string, sign: (int, string) -> string, verify: string -> Option<Claims>)
    requires sign(id, email) != "" && ' ' !in sign(id, email)
    requires verify(sign(id, email)) == Some(Claims(id, email))
    ensures Authenticate(Some("Bearer " + sign(id, email)), verify) == Ok(Claims(id, email))
  {
    var t := sign(id, email);
    assert "Bearer " + t == "Bearer" + [' '] + t;
    SplitAtFirst("Bearer", t, ' ');
    SplitWhole(t, ' ');
  }

  /** A header without a space, or with nothing after the first space, carries no token. */
  lemma MissingTokenCases(h: string, verify: string -> Option<Claims>)
    ensures Authenticate(None, verify) == Err(MissingToken)
    ensures ' ' !in h ==> Authenticate(Some(h), verify) == Err(MissingToken)
    ensures Authenticate(Some("Bearer "), verify) == Err(MissingToken)
  {
    if ' ' !in h {
      SplitWhole(h, ' ');
    }
    assert "Bearer " == "Bearer" + [' '] + "";
    SplitAtFirst("Bearer", "", ' ');
  }
}
