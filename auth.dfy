/** `AuthHandler` of handlers/auth.go: sign-up, sign-in and token refresh.
    The users collection is the sequence of stored credentials; its lookup
    filter `{"username": u, "password": d}` is membership of the pair. The
    request body is the bound `models.User`, `now` the clock in seconds, and
    each store call that can fail is given the error text it returns, `None`
    meaning success (for a lookup: an error other than "no documents"). */
module Auth {
  import opened Http
  import opened Jwt

  const Issuer: string := "recipes_api_gin"
  /** `len(user.Password) < 5` counts bytes of the UTF-8 encoding. */
  const MinPasswordBytes: nat := 5
  /** A token issued at sign-up or sign-in lives ten minutes. */
  const TokenLifetime: int := 600
  /** A refreshed token lives five minutes from the refresh. */
  const RefreshLifetime: int := 300
  /** A token may be refreshed only when at most thirty seconds remain. */
  const RefreshWindow: int := 30

  datatype UserForm = UserForm(username: string, password: string)

  /** A stored user: the password field holds the hex SHA-256 digest. */
  datatype Credential = Credential(username: string, password: string)

  // ----- password length -----

  /** Bytes that one Unicode scalar value takes in UTF-8. */
  function Utf8Width(c: char): nat
  {
    if c as int < 0x80 then 1 else if c as int < 0x800 then 2 else if c as int < 0x10000 then 3 else 4
  }

  /** Go's `len` of a string: the length of its UTF-8 encoding. */
  function Utf8Length(s: string): nat
  {
    if s == [] then 0 else Utf8Width(s[0]) + Utf8Length(s[1..])
  }

  lemma {:induction false} Utf8LengthBounds(s: string)
    ensures |s| <= Utf8Length(s) <= 4 * |s|
  {
    if s != [] {
      Utf8LengthBounds(s[1..]);
    }
  }

  lemma {:induction false} Utf8LengthOfAscii(s: string)
    requires forall i :: 0 <= i < |s| ==> s[i] as int < 0x80
    ensures Utf8Length(s) == |s|
  {
    if s != [] {
      Utf8LengthOfAscii(s[1..]);
    }
  }

  predicate PasswordTooShort(password: string)
  {
    Utf8Length(password) < MinPasswordBytes
  }

  /** Five characters always pass the length check; below five, an ASCII
      password is rejected while one with multi-byte characters may pass. */
  lemma PasswordLengthCheck(password: string)
    ensures |password| >= 5 ==> !PasswordTooShort(password)
    ensures (forall i :: 0 <= i < |password| ==> password[i] as int < 0x80) ==>
              (PasswordTooShort(password) <==> |password| < 5)
  {
    Utf8LengthBounds(password);
    if forall i :: 0 <= i < |password| ==> password[i] as int < 0x80 {
      Utf8LengthOfAscii(password);
    }
  }

  lemma TwoByteCharactersPassEarly()
    ensures !PasswordTooShort("ééé") && |"ééé"| == 3
  {
  }

  // ----- claims -----

  /** The claims a sign-up or sign-in issues for `username` at `now`. */
  function IssueClaims(username: string, now: int): (c: Claims)
    ensures c.sub == username && c.iss == Issuer && c.iat == now
    ensures c.exp - c.iat == TokenLifetime
  {
    Claims(username, Issuer, now + TokenLifetime, now)
  }

  /** The response for a signing outcome: the token with `status`, or a 500. */
  function SignedResponse(signed: Outcome<string>, status: int): Response<string>
  {
    match signed
    case Ok(token) => Reply(status, token)
    case Err(message) => Failure(StatusInternalServerError, message)
  }

  /** A valid token is refreshed only when its expiry is at most thirty
      seconds away (`time.Unix(exp, 0).Sub(time.Now()) > 30s` rejects). */
  predicate RefreshEligible(c: Claims, now: int)
  {
    c.exp - now <= RefreshWindow
  }

  /** The claims of a refreshed token: the presented claims with `exp`
      replaced by five minutes from now. */
  function Refreshed(c: Claims, now: int): (c': Claims)
    ensures c'.sub == c.sub && c'.iss == c.iss && c'.iat == c.iat
    ensures c'.exp == now + RefreshLifetime
  {
    c.(exp := now + RefreshLifetime)
  }

  /** `RefreshJWTHandler` with the `Authorization` header `header` and the
      secret `secret`. The parsed claims are updated in place and re-signed. */
  method RefreshToken(header: string, secret: string, now: int, crypto: Crypto) returns (r: Response<string>)
    ensures !Accepted(crypto.parse(header, secret, now)) ==> r == Failure(StatusUnauthorized, "unauthorized")
    ensures var p := crypto.parse(header, secret, now);
            Accepted(p) && !RefreshEligible(p.token.value.claims, now) ==>
              r == Failure(StatusUnauthorized, "token not yet expired")
    ensures var p := crypto.parse(header, secret, now);
            Accepted(p) && RefreshEligible(p.token.value.claims, now) ==>
              r == SignedResponse(crypto.sign(Refreshed(p.token.value.claims, now), secret), StatusOK)
    ensures r.Reply? ==> r.status == StatusOK && Accepted(crypto.parse(header, secret, now))
  {
    var parsed := crypto.parse(header, secret, now);
    if parsed.err.Some? || parsed.token.None? || !parsed.token.value.valid {
      return Failure(StatusUnauthorized, "unauthorized");
    }
    var claims := parsed.token.value.claims;
    if claims.exp - now > RefreshWindow {
      return Failure(StatusUnauthorized, "token not yet expired");
    }
    claims := claims.(exp := now + RefreshLifetime);
    r := SignedResponse(crypto.sign(claims, secret), StatusOK);
  }

  /** The claims after refreshing at each instant of `times` in turn. */
  function RefreshAll(c: Claims, times: seq<int>): Claims
    decreases |times|
  {
    if times == [] then c else RefreshAll(Refreshed(c, times[0]), times[1..])
  }

  /** However often a token is refreshed, subject, issuer and issued-at stay
      those of the original issue; only the expiry follows the last refresh. */
  lemma {:induction false} RefreshChainKeepsIdentity(c: Claims, times: seq<int>)
    ensures RefreshAll(c, times).sub == c.sub
    ensures RefreshAll(c, times).iss == c.iss
    ensures RefreshAll(c, times).iat == c.iat
    ensures RefreshAll(c, times).exp == if times == [] then c.exp else times[|times| - 1] + RefreshLifetime
    decreases |times|
  {
    if times != [] {
      RefreshChainKeepsIdentity(Refreshed(c, times[0]), times[1..]);
    }
  }

  /** A freshly issued token cannot be refreshed in its first 570 seconds, and
      a refreshed one not in its first 270: refresh never extends a token that
      is far from expiry. */
  lemma RefreshNotEarly(username: string, issued: int, c: Claims, refreshed: int, later: int)
    ensures later < issued + TokenLifetime - RefreshWindow ==> !RefreshEligible(IssueClaims(username, issued), later)
    ensures later < refreshed + RefreshLifetime - RefreshWindow ==> !RefreshEligible(Refreshed(c, refreshed), later)
  {
  }

  /** Eligibility only grows with time and refresh does not consume the
      presented token: once eligible, the same original token can be
      refreshed again at every later instant the parser still accepts it. */
  lemma OriginalStaysRefreshable(c: Claims, first: int, second: int)
    requires RefreshEligible(c, first) && first <= second
    ensures RefreshEligible(c, second)
    ensures Refreshed(c, second).iat == Refreshed(c, first).iat == c.iat
  {
  }

  /** The parser's validity includes the expiry check of RFC 7519 section 4.1.4. */
  ghost predicate EnforcesExpiry(crypto: Crypto)
  {
    forall header, secret, now ::
      Accepted(crypto.parse(header, secret, now)) ==> now < crypto.parse(header, secret, now).token.value.claims.exp
  }

  /** With such a parser, a token is refreshed exactly in the last thirty
      seconds of its life: a token already past expiry is refused. */
  lemma RefreshBand(crypto: Crypto, header: string, secret: string, now: int)
    requires EnforcesExpiry(crypto)
    requires Accepted(crypto.parse(header, secret, now))
    ensures var c := crypto.parse(header, secret, now).token.value.claims;
            RefreshEligible(c, now) <==> 0 < c.exp - now <= RefreshWindow
  {
  }

  // ----- credential checks -----

  /** What sign-up's lookup tests: the same username with the same digest. */
  predicate PairRegistered(users: seq<Credential>, username: string, digest: string)
  {
    Credential(username, digest) in users
  }

  predicate UsernameTaken(users: seq<Credential>, username: string)
  {
    exists i :: 0 <= i < |users| && users[i].username == username
  }

  predicate UniqueUsernames(users: seq<Credential>)
  {
    forall i, j :: 0 <= i < j < |users| ==> users[i].username != users[j].username
  }

  /** The pair check lets a second user with a taken name through whenever
      the passwords' digests differ, and the name is no longer unique. */
  lemma PairCheckAdmitsDuplicateName()
    ensures var users := [Credential("ann", "d1")];
            !PairRegistered(users, "ann", "d2") &&
            UniqueUsernames(users) &&
            !UniqueUsernames(users + [Credential("ann", "d2")])
  {
    var t := [Credential("ann", "d1")] + [Credential("ann", "d2")];
    assert t[0].username == t[1].username;
  }

  /** Guarding the insert by the name alone keeps usernames unique. */
  lemma NameCheckKeepsNamesUnique(users: seq<Credential>, c: Credential)
    requires UniqueUsernames(users) && !UsernameTaken(users, c.username)
    ensures UniqueUsernames(users + [c])
  {
  }

  class AuthHandler {
    /** The users collection. */
    var users: seq<Credential>

    constructor (initial: seq<Credential>)
      ensures users == initial
    {
      users := initial;
    }

    /** `SignUpHandler` as written: rejects a short password before any store
        access, then inserts unless the exact (username, digest) pair exists. */
    method SignUp(form: Outcome<UserForm>, now: int, secret: string, crypto: Crypto,
                  findErr: Option<string>, insertErr: Option<string>) returns (r: Response<string>)
      modifies this
      ensures form.Err? ==> r == Failure(StatusBadRequest, "invalid signup credentials") && users == old(users)
      ensures form.Ok? && PasswordTooShort(form.value.password) ==>
                r == Failure(StatusBadRequest, "password is too short") && users == old(users)
      ensures form.Ok? && !PasswordTooShort(form.value.password) ==>
                var u := form.value.username;
                var d := crypto.digest(form.value.password);
                && (findErr.Some? ==> r == Failure(StatusInternalServerError, "internal server error") && users == old(users))
                && (findErr.None? && PairRegistered(old(users), u, d) ==>
                      r == Failure(StatusBadRequest, "user already exists") && users == old(users))
                && (findErr.None? && !PairRegistered(old(users), u, d) && insertErr.Some? ==>
                      r == Failure(StatusInternalServerError, insertErr.value) && users == old(users))
                && (findErr.None? && !PairRegistered(old(users), u, d) && insertErr.None? ==>
                      && users == old(users) + [Credential(u, d)]
                      && r == SignedResponse(crypto.sign(IssueClaims(u, now), secret), StatusCreated))
    {
      if form.Err? {
        return Failure(StatusBadRequest, "invalid signup credentials");
      }
      var user := form.value;
      if PasswordTooShort(user.password) {
        return Failure(StatusBadRequest, "password is too short");
      }
      var pwd := crypto.digest(user.password);
      if findErr.Some? {
        return Failure(StatusInternalServerError, "internal server error");
      }
      if Credential(user.username, pwd) in users {
        return Failure(StatusBadRequest, "user already exists");
      }
      if insertErr.Some? {
        return Failure(StatusInternalServerError, insertErr.value);
      }
      users := users + [Credential(user.username, pwd)];
      var claims := IssueClaims(user.username, now);
      r := SignedResponse(crypto.sign(claims, secret), StatusCreated);
    }

    /** Sign-up with the lookup on the username alone, which keeps usernames
        unique: the corrected form of `SignUp`. */
    method SignUpUniqueName(form: Outcome<UserForm>, now: int, secret: string, crypto: Crypto,
                            findErr: Option<string>, insertErr: Option<string>) returns (r: Response<string>)
      modifies this
      ensures old(UniqueUsernames(users)) ==> UniqueUsernames(users)
      ensures form.Err? ==> r == Failure(StatusBadRequest, "invalid signup credentials") && users == old(users)
      ensures form.Ok? && PasswordTooShort(form.value.password) ==>
                r == Failure(StatusBadRequest, "password is too short") && users == old(users)
      ensures form.Ok? && !PasswordTooShort(form.value.password) ==>
                var u := form.value.username;
                var d := crypto.digest(form.value.password);
                && (findErr.Some? ==> r == Failure(StatusInternalServerError, "internal server error") && users == old(users))
                && (findErr.None? && UsernameTaken(old(users), u) ==>
                      r == Failure(StatusBadRequest, "user already exists") && users == old(users))
                && (findErr.None? && !UsernameTaken(old(users), u) && insertErr.Some? ==>
                      r == Failure(StatusInternalServerError, insertErr.value) && users == old(users))
                && (findErr.None? && !UsernameTaken(old(users), u) && insertErr.None? ==>
                      && users == old(users) + [Credential(u, d)]
                      && r == SignedResponse(crypto.sign(IssueClaims(u, now), secret), StatusCreated))
    {
      if form.Err? {
        return Failure(StatusBadRequest, "invalid signup credentials");
      }
      var user := form.value;
      if PasswordTooShort(user.password) {
        return Failure(StatusBadRequest, "password is too short");
      }
      var pwd := crypto.digest(user.password);
      if findErr.Some? {
        return Failure(StatusInternalServerError, "internal server error");
      }
      if UsernameTaken(users, user.username) {
        return Failure(StatusBadRequest, "user already exists");
      }
      if insertErr.Some? {
        return Failure(StatusInternalServerError, insertErr.value);
      }
      if UniqueUsernames(users) {
        NameCheckKeepsNamesUnique(users, Credential(user.username, pwd));
      }
      users := users + [Credential(user.username, pwd)];
      var claims := IssueClaims(user.username, now);
      r := SignedResponse(crypto.sign(claims, secret), StatusCreated);
    }

    /** `SignInHandler`: issues a token iff the (username, digest) pair is
        stored; any lookup failure is answered as bad credentials. */
    function SignIn(form: Outcome<UserForm>, now: int, secret: string, crypto: Crypto,
                    findErr: Option<string>): (r: Response<string>)
      reads this
      ensures form.Err? ==> r == Failure(StatusBadRequest, form.message)
      ensures form.Ok? ==>
                (r == Failure(StatusBadRequest, "invalid username or password") <==>
                 findErr.Some? || !PairRegistered(users, form.value.username, crypto.digest(form.value.password)))
      ensures r.Reply? ==>
                form.Ok? && r.status == StatusOK &&
                crypto.sign(IssueClaims(form.value.username, now), secret) == Ok(r.body)
      ensures form.Ok? && findErr.None? && PairRegistered(users, form.value.username, crypto.digest(form.value.password)) ==>
                match crypto.sign(IssueClaims(form.value.username, now), secret)
                case Ok(token) => r == Reply(StatusOK, token)
                case Err(message) => r == Failure(StatusInternalServerError, message)
    {
      match form
      case Err(message) => Failure(StatusBadRequest, message)
      case Ok(user) =>
        var pwd := crypto.digest(user.password);
        if findErr.Some? || Credential(user.username, pwd) !in users then
          Failure(StatusBadRequest, "invalid username or password")
        else
          SignedResponse(crypto.sign(IssueClaims(user.username, now), secret), StatusOK)
    }
  }

  /** Sign-up and sign-in hash a password the same way: a stored credential
      lets its owner sign in, and the token carries the same claims a sign-up
      at that instant would have issued. */
  lemma RegisteredUserSignsIn(h: AuthHandler, username: string, password: string, now: int,
                              secret: string, crypto: Crypto)
    requires Credential(username, crypto.digest(password)) in h.users
    requires crypto.sign(IssueClaims(username, now), secret).Ok?
    ensures h.SignIn(Ok(UserForm(username, password)), now, secret, crypto, None)
            == Reply(StatusOK, crypto.sign(IssueClaims(username, now), secret).value)
  {
  }
}
