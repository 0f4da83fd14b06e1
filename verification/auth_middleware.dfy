/** `authenticateToken` and `authorizeRole`: who a request is, and whether
    their role may go on. */
module AuthMiddleware {
  import opened Options
  import opened JsText
  import opened Model
  import opened SessionExpiry

  // ---------------------------------------------------------------------
  // The bearer token

  /** `h` is a first piece `scheme`, one space, `token`, and then either
      nothing or more text starting with a space. */
  predicate SecondPiece(h: string, scheme: string, token: string, rest: string) {
    ' ' !in scheme && (rest == "" || rest[0] == ' ') && h == scheme + " " + token + rest
  }

  /** `authHeader && authHeader.split(' ')[1]`, where an empty result counts
      as no token: the second space-separated piece of the header. */
  function BearerToken(header: Option<string>): (r: Option<string>)
    ensures r.Some? ==> header.Some? && r.value != "" && ' ' !in r.value
    ensures r.Some? ==> exists scheme, rest :: SecondPiece(header.value, scheme, r.value, rest)
  {
    if header.None? || header.value == "" then None
    else
      var pieces := SplitOnSpace(header.value);
      if |pieces| < 2 || pieces[1] == "" then None
      else
        var scheme, token := pieces[0], pieces[1];
        var rest := if |pieces| == 2 then "" else " " + JoinWithSpace(pieces[2..]);
        assert pieces[1..][1..] == pieces[2..];
        assert header.value == scheme + " " + token + rest;
        assert SecondPiece(header.value, scheme, token, rest);
        Some(token)
  }

  lemma SplitWithoutSpace(s: string)
    requires ' ' !in s
    ensures SplitOnSpace(s) == [s]
  {
  }

  /** Conversely, the token after the first space, up to the next space or
      the end, is found. */
  lemma BearerTokenFound(h: string, scheme: string, token: string, rest: string)
    requires SecondPiece(h, scheme, token, rest)
    requires ' ' !in token && token != ""
    ensures BearerToken(Some(h)) == Some(token)
  {
    assert h == scheme + " " + (token + rest);
    SplitAfterFirstPiece(scheme, token + rest);
    if rest == "" {
      assert token + rest == token;
      SplitWithoutSpace(token);
    } else {
      assert token + rest == token + " " + rest[1..];
      SplitAfterFirstPiece(token, rest[1..]);
    }
  }

  /** A missing header, an empty one, or one without a second piece gives
      no token. */
  lemma NoBearerToken(s: string)
    requires ' ' !in s
    ensures BearerToken(None) == None
    ensures BearerToken(Some(s)) == None
    ensures BearerToken(Some(s + " ")) == None
  {
    SplitWithoutSpace(s);
    SplitAfterFirstPiece(s, "");
    SplitWithoutSpace("");
  }

  // ---------------------------------------------------------------------
  // authenticateToken

  /** A session row for the token whose expiry lies after the current
      moment. */
  predicate HasLiveSession(sessions: seq<Session>, token: string, nowMs: nat) {
    exists k :: 0 <= k < |sessions| && sessions[k].token == token && Unexpired(sessions[k].expiresAt, nowMs)
  }

  datatype AuthOutcome = Rejected(response: Response) | Authenticated(who: Identity)

  /** `authenticateToken`. The user is looked up by the claims' id, and what
      is attached is that row's id, username, role and name: the role inside
      the token is never used. */
  function Authenticate(db: Db, crypto: Crypto, header: Option<string>, clock: Clock): (r: AuthOutcome)
    ensures BearerToken(header).None? ==> r == Rejected(Error(401, "Access token required"))
    ensures BearerToken(header).Some? && crypto.verify(BearerToken(header).value, Seconds(clock)).None? ==>
              r == Rejected(Error(403, "Invalid token"))
    ensures r.Authenticated? ==>
              && BearerToken(header).Some?
              && crypto.verify(BearerToken(header).value, Seconds(clock)).Some?
              && HasLiveSession(db.sessions, BearerToken(header).value, clock.ms)
              && exists u :: u in db.users && u.id == crypto.verify(BearerToken(header).value, Seconds(clock)).value.userId
                   && r.who == IdentityOf(u)
    ensures r.Rejected? ==> r.response.status in {401, 403}
  {
    match BearerToken(header)
    case None => Rejected(Error(401, "Access token required"))
    case Some(token) =>
      match crypto.verify(token, Seconds(clock))
      case None => Rejected(Error(403, "Invalid token"))
      case Some(claims) =>
        if !HasLiveSession(db.sessions, token, clock.ms) then Rejected(Error(401, "Invalid or expired token"))
        else
          match FindUser(db.users, claims.userId)
          case None => Rejected(Error(401, "User not found"))
          case Some(u) => Authenticated(IdentityOf(u))
  }

  /** With a valid signature and a live session, exactly an existing user
      gets through, as that user. */
  lemma AuthenticatesExistingUser(db: Db, crypto: Crypto, header: Option<string>, clock: Clock, token: string, claims: Claims)
    requires BearerToken(header) == Some(token)
    requires crypto.verify(token, Seconds(clock)) == Some(claims)
    requires HasLiveSession(db.sessions, token, clock.ms)
    ensures Authenticate(db, crypto, header, clock).Authenticated? <==> IsUserId(db.users, claims.userId)
    ensures FindUser(db.users, claims.userId).Some? ==>
              Authenticate(db, crypto, header, clock) == Authenticated(IdentityOf(FindUser(db.users, claims.userId).value))
    ensures !IsUserId(db.users, claims.userId) ==>
              Authenticate(db, crypto, header, clock) == Rejected(Error(401, "User not found"))
  {
    if IsUserId(db.users, claims.userId) {
      var k :| 0 <= k < |db.users| && db.users[k].id == claims.userId;
      assert FindUser(db.users, claims.userId).Some?;
    }
  }

  /** A token without a live session row is refused, whatever its
      signature says. */
  lemma NoSessionRejected(db: Db, crypto: Crypto, header: Option<string>, clock: Clock, token: string)
    requires BearerToken(header) == Some(token)
    requires forall k :: 0 <= k < |db.sessions| && db.sessions[k].token == token ==>
               db.sessions[k].expiresAt <= clock.ms
    ensures Authenticate(db, crypto, header, clock).Rejected?
    ensures crypto.verify(token, Seconds(clock)).Some? ==>
              Authenticate(db, crypto, header, clock) == Rejected(Error(401, "Invalid or expired token"))
  {
  }

  /** Only the user id of the claims matters: tokens whose claims agree on
      the id but name another username or role authenticate alike. */
  lemma ClaimedRoleIgnored(db: Db, c1: Crypto, c2: Crypto, header: Option<string>, clock: Clock)
    requires BearerToken(header).Some?
    requires var t := BearerToken(header).value;
             c1.verify(t, Seconds(clock)).Some? && c2.verify(t, Seconds(clock)).Some?
             && c1.verify(t, Seconds(clock)).value.userId == c2.verify(t, Seconds(clock)).value.userId
    ensures Authenticate(db, c1, header, clock) == Authenticate(db, c2, header, clock)
  {
  }

  // ---------------------------------------------------------------------
  // authorizeRole

  /** `authorizeRole(roles)`: `None` lets the request through. */
  function AuthorizeRole(roles: seq<Role>, who: Identity): (r: Option<Response>)
    ensures r.None? <==> who.role in roles
    ensures r.Some? ==> r.value == Error(403, "Insufficient permissions")
  {
    if who.role in roles then None else Some(Error(403, "Insufficient permissions"))
  }

  const AdminOnly: seq<Role> := [Admin]
  const StudentOnly: seq<Role> := [Student]
  const AnyUser: seq<Role> := [Admin, Student]

  /** `authorizeAdmin` and `authorizeStudent` split the users between them;
      `authorizeUser` lets everyone through. */
  lemma RoleGates(who: Identity)
    ensures AuthorizeRole(AdminOnly, who).None? <==> who.role == Admin
    ensures AuthorizeRole(StudentOnly, who).None? <==> who.role == Student
    ensures AuthorizeRole(AdminOnly, who).None? != AuthorizeRole(StudentOnly, who).None?
    ensures AuthorizeRole(AnyUser, who).None?
  {
  }
}
