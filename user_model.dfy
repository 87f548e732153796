/** The user document of Backend/models/user.model.js: the normalising
    setters of `username` and `email`, the password hook that runs before a
    save, the password check, and the claims of the two JSON Web Tokens.
    bcrypt and jsonwebtoken are replaced by symbolic stand-ins that keep
    only the properties the controllers rely on. */
module UserModel {
  import opened Common

  // ---------------------------------------------------------------------
  // Normalisation of `username` and `email` (`lowercase: true, trim: true`)

  /** The form the two setters give a value: lower-case and trimmed. */
  predicate IsNormal(s: string) {
    IsLower(s) && IsTrimmed(s)
  }

  /** The `lowercase` and `trim` setters applied to a value. Lower-casing
      never turns a character into white space or back, so the order in
      which the two setters run does not matter. */
  function Normalize(s: string): (r: string)
    ensures IsNormal(r)
    ensures |r| <= |s|
    ensures IsNormal(s) ==> r == s
  {
    var t := Trim(s);
    var r := ToLower(t);
    if IsNormal(s) then
      TrimOfTrimmed(s);
      LowerOfLower(s);
      r
    else
      assert t != [] ==> !IsSpace(r[0]) && !IsSpace(r[|r| - 1]);
      r
  }

  /** Normalising twice is normalising once: a stored username or email
      found again through the same setters is found unchanged. */
  lemma NormalizeIdempotent(s: string)
    ensures Normalize(Normalize(s)) == Normalize(s)
  {
  }

  /** A value that trims to nothing normalises to nothing, and only then. */
  lemma NormalizeEmptyIff(s: string)
    ensures Normalize(s) == [] <==> Trim(s) == []
  {
  }

  // ---------------------------------------------------------------------
  // Password hashing (bcrypt with cost 10)

  /** The prefix every stored bcrypt hash of this application carries. */
  const HashPrefix: string := "$2b$10$"

  /** A stand-in for `bcrypt.hash(pw, 10)`: different passwords give
      different hashes, and a hash is never the password itself. */
  function Hash(pw: string): (h: string)
    ensures |h| == |HashPrefix| + |pw|
    ensures h[..|HashPrefix|] == HashPrefix
  {
    HashPrefix + pw
  }

  /** The hash is injective. */
  lemma HashInjective(a: string, b: string)
    requires Hash(a) == Hash(b)
    ensures a == b
  {
    assert a == Hash(a)[|HashPrefix|..];
    assert b == Hash(b)[|HashPrefix|..];
  }

  /** `bcrypt.compare(pw, h)`. */
  predicate Compare(pw: string, h: string) {
    h == Hash(pw)
  }

  /** The hook run before every save: the password is (re)hashed only when
      the password field was modified since the last save. */
  function PreSave(password: string, passwordModified: bool): (stored: string)
    ensures passwordModified ==> Compare(password, stored)
    ensures !passwordModified ==> stored == password
  {
    if passwordModified then Hash(password) else password
  }

  /** The stored password accepts exactly the plaintext it was made from. */
  lemma SavedPasswordChecks(pw: string, attempt: string)
    ensures Compare(attempt, PreSave(pw, true)) <==> attempt == pw
  {
    if Compare(attempt, PreSave(pw, true)) {
      HashInjective(attempt, pw);
    }
  }

  /** Why the hook tests `isModified`: hashing a stored hash a second time
      would lock the user out, while a save that leaves the password alone
      keeps it working. */
  lemma UnmodifiedSaveKeepsPassword(pw: string, attempt: string)
    ensures Compare(attempt, PreSave(PreSave(pw, true), false)) <==> attempt == pw
    ensures !Compare(pw, PreSave(PreSave(pw, true), true))
  {
    SavedPasswordChecks(pw, attempt);
  }

  // ---------------------------------------------------------------------
  // The stored user and the tokens

  /** A token's (symbolic) signature: which server secret signed it. */
  datatype Secret = AccessSecret | RefreshSecret

  datatype Claims =
    | AccessClaims(id: ObjectId, email: string, username: string, fullName: Option<string>)
    | RefreshClaims(id: ObjectId)

  /** A signed JSON Web Token: its claims, the secret that signed it and
      its issue time (`iat`, in seconds). */
  datatype Token = Token(claims: Claims, secret: Secret, issuedAt: int)

  /** A stored user; `password` holds the hash. */
  datatype User = User(
    id: ObjectId,
    username: string,
    email: string,
    fullname: string,
    password: string,
    refreshToken: Option<Token>)

  /** What the schema and the controllers keep true of every user. */
  predicate ValidUser(u: User) {
    && IsNormal(u.username) && IsNormal(u.email) && IsTrimmed(u.fullname)
    && |u.password| >= |HashPrefix| && u.password[..|HashPrefix|] == HashPrefix
    && (u.refreshToken.Some? ==>
          u.refreshToken.value.claims == RefreshClaims(u.id) && u.refreshToken.value.secret == RefreshSecret)
  }

  /** A user as the controllers send it: `select("-password -refreshToken")`. */
  datatype PublicUser = PublicUser(id: ObjectId, username: string, email: string, fullname: string)

  function Public(u: User): PublicUser {
    PublicUser(u.id, u.username, u.email, u.fullname)
  }

  /** `user.isPasswordCorrect(pw)`. For a stored user it holds exactly for
      the plaintext whose hash was stored. */
  function IsPasswordCorrect(u: User, pw: string): (ok: bool)
    ensures ok <==> u.password == Hash(pw)
    ensures forall p :: u.password == PreSave(p, true) ==> (ok <==> pw == p)
  {
    forall p | u.password == PreSave(p, true) ensures (Compare(pw, u.password) <==> pw == p) {
      SavedPasswordChecks(p, pw);
    }
    Compare(pw, u.password)
  }

  /** `user.generateAccessToken()` as it is meant to be: the user's id,
      email, username and full name, signed with the access secret. */
  function AccessToken(u: User, now: int): (t: Token)
    ensures t.secret == AccessSecret && t.issuedAt == now
    ensures t.claims == AccessClaims(u.id, u.email, u.username, Some(u.fullname))
  {
    Token(AccessClaims(u.id, u.email, u.username, Some(u.fullname)), AccessSecret, now)
  }

  /** `user.generateRefreshToken()`: only the id, signed with the refresh
      secret. */
  function RefreshToken(id: ObjectId, now: int): (t: Token)
    ensures t.secret == RefreshSecret && t.issuedAt == now && t.claims == RefreshClaims(id)
  {
    Token(RefreshClaims(id), RefreshSecret, now)
  }

  /** `jwt.verify(token, secret)`: the claims when the token was signed
      with that secret, nothing otherwise. */
  function Verify(t: Token, s: Secret): (c: Option<Claims>)
    ensures c.Some? <==> t.secret == s
    ensures c.Some? ==> c.value == t.claims
  {
    if t.secret == s then Some(t.claims) else None
  }

  /** Each token verifies under its own secret only, so an access token
      can never be used to refresh and a refresh token never authenticates
      a request; and a refresh token names its user back. */
  lemma TokensAreNotInterchangeable(u: User, id: ObjectId, now: int)
    ensures Verify(AccessToken(u, now), RefreshSecret).None?
    ensures Verify(RefreshToken(id, now), AccessSecret).None?
    ensures Verify(RefreshToken(id, now), RefreshSecret) == Some(RefreshClaims(id))
    ensures Verify(AccessToken(u, now), AccessSecret).Some?
  {
  }

  // ---------------------------------------------------------------------
  // The access token as written

  /** Reading a property of the user document by name; a name the schema
      does not declare reads as `undefined`. */
  function DocumentField(u: User, name: string): (v: Option<string>)
    ensures name == "fullname" ==> v == Some(u.fullname)
    ensures name !in {"username", "email", "fullname"} ==> v.None?
  {
    if name == "username" then Some(u.username)
    else if name == "email" then Some(u.email)
    else if name == "fullname" then Some(u.fullname)
    else None
  }

  /** `generateAccessToken` as written: the claim `fullName` is read from
      `this.fullName`, a property the schema (which says `fullname`) does
      not have. */
  function AccessTokenAsWritten(u: User, now: int): (t: Token)
    ensures t.secret == AccessSecret && t.issuedAt == now
    ensures t.claims.AccessClaims? && t.claims.id == u.id
  {
    Token(AccessClaims(u.id, u.email, u.username, DocumentField(u, "fullName")), AccessSecret, now)
  }

  /** The access token as written never carries the user's full name, even
      though every user has one; the corrected token always does. */
  lemma AccessTokenLosesFullName(u: User, now: int)
    ensures AccessTokenAsWritten(u, now).claims.fullName.None?
    ensures AccessToken(u, now).claims.fullName == Some(u.fullname)
    ensures AccessTokenAsWritten(u, now) != AccessToken(u, now)
  {
  }
}
