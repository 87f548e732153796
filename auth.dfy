/** The session handlers of Backend/controllers/auth.controller.js as
    methods on the user collection: registration, login (which issues and
    stores a refresh token), logout (which removes it) and the rotation of
    the refresh token. Every user holds at most one stored refresh token. */
module Auth {
  import opened Common
  import opened UserModel

  /** A register or login body field is present but blank: the check
      `field?.trim() === ""`, which an absent field passes. */
  predicate Blank(f: Option<string>) {
    f.Some? && Trim(f.value) == ""
  }

  /** The `$or: [{email}, {username}]` filter, with the query values put
      through the schema's setters; an absent value matches no user. */
  predicate Identifies(u: User, email: Option<string>, username: Option<string>) {
    (email.Some? && u.email == Normalize(email.value))
    || (username.Some? && u.username == Normalize(username.value))
  }

  /** The tokens the util `generateAccessAndRefreshTokens` returns. */
  datatype TokenPair = TokenPair(accessToken: Token, refreshToken: Token)

  /** A successful login: the user without its secrets and both tokens. */
  datatype Session = Session(user: PublicUser, accessToken: Token, refreshToken: Token)

  /** The reply of the refresh handler: the two tokens it sends back as
      cookies and in the body; `None` is an `undefined` value. */
  datatype RefreshReply = RefreshReply(accessToken: Option<Token>, refreshToken: Option<Token>)

  /** A property of the util's result object, read by name. */
  function PairProperty(p: TokenPair, name: string): (t: Option<Token>)
    ensures name == "accessToken" ==> t == Some(p.accessToken)
    ensures name == "refreshToken" ==> t == Some(p.refreshToken)
    ensures name != "accessToken" && name != "refreshToken" ==> t.None?
  {
    if name == "accessToken" then Some(p.accessToken)
    else if name == "refreshToken" then Some(p.refreshToken)
    else None
  }

  /** The refresh reply as written: `const {accessToken, newRefreshToken}`
      destructures a property the util's result does not have. */
  function RefreshReplyAsWritten(p: TokenPair): (r: RefreshReply)
    ensures r.accessToken == Some(p.accessToken)
  {
    RefreshReply(PairProperty(p, "accessToken"), PairProperty(p, "newRefreshToken"))
  }

  /** The reply as intended: both tokens the util issued. */
  function RefreshReplyOf(p: TokenPair): (r: RefreshReply)
    ensures r.accessToken == Some(p.accessToken) && r.refreshToken == Some(p.refreshToken)
  {
    RefreshReply(PairProperty(p, "accessToken"), PairProperty(p, "refreshToken"))
  }

  /** As written, the client never receives the rotated refresh token,
      although the server has already stored it; so the client's next
      refresh cannot present the stored token. As intended, it receives
      exactly the token that is stored. */
  lemma RefreshReplyLosesToken(p: TokenPair)
    ensures RefreshReplyAsWritten(p).refreshToken.None?
    ensures RefreshReplyOf(p).refreshToken == Some(p.refreshToken)
  {
  }

  /** The user collection keeps every document valid under its own id, and
      the unique indexes on username and email. */
  predicate ValidTable(users: map<ObjectId, User>) {
    && (forall k :: k in users ==> users[k].id == k && ValidUser(users[k]))
    && (forall a, b :: a in users && b in users && a != b ==>
          users[a].username != users[b].username && users[a].email != users[b].email)
  }

  /** Inserting a valid user whose username and email are both new keeps
      the collection valid. */
  lemma InsertKeepsTableValid(users: map<ObjectId, User>, u: User)
    requires ValidTable(users) && u.id !in users && ValidUser(u)
    requires forall k :: k in users ==> users[k].username != u.username && users[k].email != u.email
    ensures ValidTable(users[u.id := u])
  {
  }

  class UserTable {
    var users: map<ObjectId, User>

    ghost predicate Valid()
      reads this
    {
      ValidTable(users)
    }

    constructor ()
      ensures Valid() && users == map[]
    {
      users := map[];
    }

    /** Some stored user has the email or the username. */
    predicate Taken(email: Option<string>, username: Option<string>)
      reads this
    {
      exists k :: k in users && Identifies(users[k], email, username)
    }

    /** registerUser. `id` is the fresh ObjectId the database assigns. */
    method Register(username: Option<string>, email: Option<string>, fullname: Option<string>,
                    password: Option<string>, id: ObjectId) returns (r: Result<PublicUser>)
      requires Valid()
      requires id !in users
      modifies this
      ensures Valid()
      ensures Blank(username) || Blank(email) || Blank(fullname) || Blank(password) ==>
        r == Err(BadRequest)
      ensures (!(Blank(username) || Blank(email) || Blank(fullname) || Blank(password))
        && old(Taken(email, username))) ==> r == Err(Conflict)
      ensures (!(Blank(username) || Blank(email) || Blank(fullname) || Blank(password))
        && !old(Taken(email, username)) && username.None?) ==> r == Err(Internal)
      ensures (!(Blank(username) || Blank(email) || Blank(fullname) || Blank(password))
        && !old(Taken(email, username)) && username.Some?
        && (email.None? || fullname.None? || password.None?)) ==> r == Err(SchemaViolation)
      ensures (!(Blank(username) || Blank(email) || Blank(fullname) || Blank(password))
        && !old(Taken(email, username))
        && username.Some? && email.Some? && fullname.Some? && password.Some?) ==> r.Ok?
      ensures r.Err? ==> users == old(users)
      ensures r.Ok? ==>
        && username.Some? && email.Some? && fullname.Some? && password.Some?
        && users == old(users)[id := User(id, Normalize(username.value), Normalize(email.value),
                                         Trim(fullname.value), Hash(password.value), None)]
        && r.value == Public(users[id])
        && IsPasswordCorrect(users[id], password.value)
    {
      if Blank(username) || Blank(email) || Blank(fullname) || Blank(password) {
        return Err(BadRequest);
      }
      if exists k :: k in users && Identifies(users[k], email, username) {
        return Err(Conflict);
      }
      // `username.toLowerCase()` on an absent username throws
      if username.None? {
        return Err(Internal);
      }
      // the `required` validators of User.create
      if email.None? || fullname.None? || password.None? {
        return Err(SchemaViolation);
      }
      var u := User(id, Normalize(ToLower(username.value)), Normalize(email.value),
                    Trim(fullname.value), PreSave(password.value, true), None);
      assert u.username == Normalize(username.value) by {
        TrimOfLower(username.value);
      }
      RegisteredUserValid(id, username.value, email.value, fullname.value, password.value);
      forall k | k in users
        ensures users[k].username != u.username && users[k].email != u.email
      {
        assert !Identifies(users[k], email, username);
      }
      InsertKeepsTableValid(users, u);
      users := users[id := u];
      r := Ok(Public(u));
    }

    /** loginUser. Of several users that match the identifiers, the one
        chosen is not specified. */
    method Login(username: Option<string>, email: Option<string>, password: Option<string>, now: int)
      returns (r: Result<Session>)
      requires Valid()
      modifies this
      ensures Valid()
      ensures !Truthy(username) && !Truthy(email) ==> r == Err(BadRequest)
      ensures (Truthy(username) || Truthy(email)) && !old(Taken(email, username)) ==> r == Err(NotFound)
      ensures (Truthy(username) || Truthy(email)) && old(Taken(email, username)) && password.None? ==>
        r == Err(Internal)
      ensures ((Truthy(username) || Truthy(email)) && password.Some? && old(Taken(email, username))
        && (forall k :: k in old(users) && Identifies(old(users)[k], email, username) ==>
              !IsPasswordCorrect(old(users)[k], password.value))) ==> r == Err(Unauthorized)
      ensures r.Err? ==> users == old(users)
      ensures r.Ok? ==>
        var id := r.value.user.id;
        && id in old(users) && Identifies(old(users)[id], email, username)
        && password.Some? && IsPasswordCorrect(old(users)[id], password.value)
        && r.value.user == Public(old(users)[id])
        && r.value.accessToken == AccessToken(old(users)[id], now)
        && r.value.refreshToken == RefreshToken(id, now)
        && users == old(users)[id := old(users)[id].(refreshToken := Some(r.value.refreshToken))]
    {
      if !(Truthy(username) || Truthy(email)) {
        return Err(BadRequest);
      }
      if !(exists k :: k in users && Identifies(users[k], email, username)) {
        return Err(NotFound);
      }
      var id :| id in users && Identifies(users[id], email, username);
      if password.None? {
        return Err(Internal);
      }
      if !IsPasswordCorrect(users[id], password.value) {
        return Err(Unauthorized);
      }
      var tokens := IssueTokens(id, now);
      r := Ok(Session(Public(users[id]), tokens.accessToken, tokens.refreshToken));
    }

    /** `generateAccessAndRefreshTokens(userId)`: signs both tokens and
        stores the refresh token on the user through a save that leaves the
        password untouched. */
    method IssueTokens(id: ObjectId, now: int) returns (p: TokenPair)
      requires Valid() && id in users
      modifies this
      ensures Valid()
      ensures p == TokenPair(AccessToken(old(users)[id], now), RefreshToken(id, now))
      ensures users == old(users)[id := old(users)[id].(refreshToken := Some(p.refreshToken))]
    {
      var u := users[id];
      p := TokenPair(AccessToken(u, now), RefreshToken(id, now));
      users := users[id := u.(password := PreSave(u.password, false), refreshToken := Some(p.refreshToken))];
    }

    /** logoutUser: `$unset` of the caller's stored refresh token. */
    method Logout(id: ObjectId)
      requires Valid()
      modifies this
      ensures Valid()
      ensures id in old(users) ==> users == old(users)[id := old(users)[id].(refreshToken := None)]
      ensures id !in old(users) ==> users == old(users)
    {
      if id in users {
        users := users[id := users[id].(refreshToken := None)];
      }
    }

    /** refreshAccessToken, with the incoming token from the cookie or the
        body (`None` when both are falsy). */
    method Refresh(incoming: Option<Token>, now: int) returns (r: Result<RefreshReply>)
      requires Valid()
      modifies this
      ensures Valid()
      ensures incoming.None? ==> r == Err(Unauthorized)
      ensures incoming.Some? && Verify(incoming.value, RefreshSecret).None? ==> r == Err(Unauthorized)
      ensures incoming.Some? && incoming.value.claims.id !in old(users) ==> r == Err(Unauthorized)
      ensures (incoming.Some? && incoming.value.claims.id in old(users)
        && old(users)[incoming.value.claims.id].refreshToken != incoming) ==> r == Err(Unauthorized)
      ensures (incoming.Some? && Verify(incoming.value, RefreshSecret).Some? && incoming.value.claims.id in old(users)
        && old(users)[incoming.value.claims.id].refreshToken == incoming) ==> r.Ok?
      ensures r.Err? ==> users == old(users)
      ensures r.Ok? ==>
        var id := incoming.value.claims.id;
        && id in old(users) && old(users)[id].refreshToken == incoming
        && users == old(users)[id := old(users)[id].(refreshToken := Some(RefreshToken(id, now)))]
        && r.value == RefreshReply(Some(AccessToken(old(users)[id], now)), Some(RefreshToken(id, now)))
    {
      if incoming.None? {
        return Err(Unauthorized);
      }
      var decoded := Verify(incoming.value, RefreshSecret);
      if decoded.None? {
        return Err(Unauthorized);
      }
      var id := decoded.value.id;
      if id !in users {
        return Err(Unauthorized);
      }
      if incoming != users[id].refreshToken {
        return Err(Unauthorized);
      }
      var tokens := IssueTokens(id, now);
      r := Ok(RefreshReplyOf(tokens));
    }

    /** getCurrentUser returns the user the authentication middleware
        loaded for the request's access token, without its secrets. */
    method GetCurrentUser(id: ObjectId) returns (r: Result<PublicUser>)
      requires Valid()
      ensures id in users ==> r == Ok(Public(users[id]))
      ensures id !in users ==> r == Err(Unauthorized)
      ensures r.Ok? ==> r.value.id == id
    {
      if id in users {
        r := Ok(Public(users[id]));
      } else {
        r := Err(Unauthorized);
      }
    }
  }

  /** The document `User.create` stores for a registration satisfies the
      schema. */
  lemma RegisteredUserValid(id: ObjectId, username: string, email: string, fullname: string, password: string)
    ensures ValidUser(User(id, Normalize(username), Normalize(email), Trim(fullname), Hash(password), None))
  {
  }

  /** `username.toLowerCase()` before the setters changes nothing. */
  lemma TrimOfLower(s: string)
    ensures Normalize(ToLower(s)) == Normalize(s)
  {
    TrimLowerCommute(s);
    ToLowerIdempotent(Trim(s));
  }

  /** A refresh token is good for one rotation: once it has been used, the
      stored token is the new one, and presenting the old token again fails
      (provided the clock has moved on, since a token's issue time has a
      resolution of one second). */
  method ReplayFails(t: UserTable, token: Token, now1: int, now2: int)
    returns (first: Result<RefreshReply>, second: Result<RefreshReply>)
    requires t.Valid()
    requires token.issuedAt != now1
    modifies t
    ensures first.Ok? ==> second == Err(Unauthorized)
  {
    first := t.Refresh(Some(token), now1);
    second := t.Refresh(Some(token), now2);
  }

  /** The limit of the rotation: a second refresh within the same second
      as the token's issue mints a token equal to the one presented, so
      the old token is accepted once more. */
  method SameSecondReplaySucceeds(t: UserTable, token: Token) returns (first: Result<RefreshReply>, second: Result<RefreshReply>)
    requires t.Valid()
    modifies t
    ensures first.Ok? ==> second.Ok?
  {
    ghost var before := t.users;
    first := t.Refresh(Some(token), token.issuedAt);
    if first.Ok? {
      var id := token.claims.id;
      assert ValidUser(before[id]) && before[id].refreshToken == Some(token);
      assert t.users[id].refreshToken == Some(token);
    }
    second := t.Refresh(Some(token), token.issuedAt);
  }

  /** After logout, no refresh token of that user is accepted. */
  method LogoutRevokes(t: UserTable, id: ObjectId, token: Token, now: int) returns (r: Result<RefreshReply>)
    requires t.Valid()
    requires token.claims.id == id
    modifies t
    ensures r == Err(Unauthorized)
  {
    t.Logout(id);
    r := t.Refresh(Some(token), now);
  }
}
