/**
 * The authentication service of the API gateway project: sign-up over a
 * user table, sign-in creating sessions, and the token check the gateway
 * calls for every request. Password hashing (`sha256(...).hexdigest()`)
 * and token generation (`token_hex(64)`) are parameters. Every publish
 * is an append to the ghost `outbox`.
 */
module AuthService {
  import opened Wrappers
  import opened PyText

  /** `validate.Length(max=256)` on user names and passwords. */
  const FIELD_MAX: nat := 256
  /** `validate.Length(min=2)` on sign-up fields. */
  const SIGN_UP_MIN: nat := 2
  /** The number of hex digits the header pattern asks for. */
  const TOKEN_PATTERN_DIGITS: nat := 64
  const BEARER: string := "Bearer "
  const ALREADY_EXISTS: string := "Already exists."

  /** A row of `auth.user`; the password column holds the hash. */
  datatype User = User(id: nat, name: string, passwordHash: string)
  /** A row of `auth.session`. */
  datatype Session = Session(userId: nat, token: string)
  /** The `user.created` message. */
  datatype UserCreated = UserCreated(userId: nat)

  /** `SignUpSchema`: both fields present, 2 to 256 characters. */
  predicate SignUpValid(username: Option<string>, password: Option<string>) {
    && username.Some? && SIGN_UP_MIN <= |username.value| <= FIELD_MAX
    && password.Some? && SIGN_UP_MIN <= |password.value| <= FIELD_MAX
  }

  /** `SignInSchema`: both fields present, at most 256 characters. */
  predicate SignInValid(username: Option<string>, password: Option<string>) {
    username.Some? && |username.value| <= FIELD_MAX && password.Some? && |password.value| <= FIELD_MAX
  }

  predicate IsLowerHex(c: char) {
    ('0' <= c <= '9') || ('a' <= c <= 'f')
  }

  /**
   * `validate.Regexp("Bearer [0-9a-f]{64}")`: the pattern must match at
   * the start of the header; anything may follow it.
   */
  predicate BearerHeader(h: string) {
    && |h| >= |BEARER| + TOKEN_PATTERN_DIGITS
    && h[..|BEARER|] == BEARER
    && forall i :: |BEARER| <= i < |BEARER| + TOKEN_PATTERN_DIGITS ==> IsLowerHex(h[i])
  }

  /** `AuthHeaderSchema().load(headers)`: the text after `Bearer `, or `None` for a 401. */
  function HeaderToken(authorization: Option<string>): (token: Option<string>)
    ensures token.Some? <==> authorization.Some? && BearerHeader(authorization.value)
    ensures token.Some? ==> authorization.value == BEARER + token.value
  {
    if authorization.Some? && BearerHeader(authorization.value) then
      var h := authorization.value;
      assert h == h[..|BEARER|] + h[|BEARER|..];
      Some(h[|BEARER|..])
    else None
  }

  /** A `token_hex(64)` token, 128 lowercase hex digits, passes the header check and is read back whole. */
  lemma IssuedTokenAccepted(token: string)
    requires |token| == 2 * TOKEN_PATTERN_DIGITS && forall i :: 0 <= i < |token| ==> IsLowerHex(token[i])
    ensures HeaderToken(Some(BEARER + token)) == Some(token)
  {
    var h := BEARER + token;
    assert h[..|BEARER|] == BEARER;
    assert forall i :: |BEARER| <= i < |h| ==> h[i] == token[i - |BEARER|];
    assert h[|BEARER|..] == token;
  }

  /** The user with this name and password hash (`WHERE name = $1 AND password = $2`). */
  function FindUser(users: seq<User>, name: string, passwordHash: string): (r: Option<User>)
    ensures r.Some? <==> exists i :: 0 <= i < |users| && users[i].name == name && users[i].passwordHash == passwordHash
    ensures r.Some? ==> r.value in users && r.value.name == name && r.value.passwordHash == passwordHash
  {
    if users == [] then None
    else if users[0].name == name && users[0].passwordHash == passwordHash then Some(users[0])
    else
      var rest := FindUser(users[1..], name, passwordHash);
      assert forall i :: 1 <= i < |users| ==> users[i] == users[1..][i - 1];
      rest
  }

  /** The user a session token belongs to: the first session holding it. */
  function SessionUser(sessions: seq<Session>, token: string): (r: Option<nat>)
    ensures r.Some? <==> exists i :: 0 <= i < |sessions| && sessions[i].token == token
    ensures r.Some? ==> exists i :: 0 <= i < |sessions| && sessions[i] == Session(r.value, token)
  {
    if sessions == [] then None
    else if sessions[0].token == token then Some(sessions[0].userId)
    else
      var rest := SessionUser(sessions[1..], token);
      assert forall i :: 1 <= i < |sessions| ==> sessions[i] == sessions[1..][i - 1];
      rest
  }

  /** A fresh token finds the session just created for it. */
  lemma {:induction false} NewSessionFound(sessions: seq<Session>, userId: nat, token: string)
    requires forall i :: 0 <= i < |sessions| ==> sessions[i].token != token
    ensures SessionUser(sessions + [Session(userId, token)], token) == Some(userId)
  {
    if sessions != [] {
      assert (sessions + [Session(userId, token)])[1..] == sessions[1..] + [Session(userId, token)];
      NewSessionFound(sessions[1..], userId, token);
    }
  }

  predicate NameTaken(users: seq<User>, name: string) {
    exists i :: 0 <= i < |users| && users[i].name == name
  }

  /** Some row of the user table has this id. */
  predicate HasUser(users: seq<User>, id: nat) {
    exists i :: 0 <= i < |users| && users[i].id == id
  }

  /** Every session belongs to a user of the table. */
  predicate SessionsOwned(users: seq<User>, sessions: seq<Session>) {
    forall k :: 0 <= k < |sessions| ==> HasUser(users, sessions[k].userId)
  }

  lemma OwnedAfterNewUser(users: seq<User>, sessions: seq<Session>, u: User)
    requires SessionsOwned(users, sessions)
    ensures SessionsOwned(users + [u], sessions)
  {
    forall k | 0 <= k < |sessions| ensures HasUser(users + [u], sessions[k].userId) {
      var i :| 0 <= i < |users| && users[i].id == sessions[k].userId;
      assert (users + [u])[i] == users[i];
    }
  }

  lemma OwnedAfterNewSession(users: seq<User>, sessions: seq<Session>, s: Session)
    requires SessionsOwned(users, sessions) && HasUser(users, s.userId)
    ensures SessionsOwned(users, sessions + [s])
  {
    forall k | 0 <= k < |sessions| + 1 ensures HasUser(users, (sessions + [s])[k].userId) {
      if k < |sessions| { assert (sessions + [s])[k] == sessions[k]; }
    }
  }

  /** Names are unique and ids are serial, below the next value of the sequence. */
  predicate UsersValid(users: seq<User>, nextUserId: nat) {
    && (forall i, j :: 0 <= i < |users| && 0 <= j < |users| && i != j ==> users[i].name != users[j].name)
    && (forall i :: 0 <= i < |users| ==> users[i].id < nextUserId)
    && (forall i, j :: 0 <= i < j < |users| ==> users[i].id < users[j].id)
  }

  /** How `sign_up` ends. */
  datatype SignUpOutcome = SignUpInvalid | SignUpNameTaken | SignedUp(userId: nat)

  function SignUpStatus(o: SignUpOutcome): int {
    if o.SignedUp? then 201 else 400
  }

  class AuthStore {
    var users: seq<User>
    var sessions: seq<Session>
    /** The next value of the user id sequence. */
    var nextUserId: nat
    ghost var outbox: seq<UserCreated>

    /** Names are unique, ids are serial, and every session belongs to a user. */
    predicate Valid()
      reads this
    {
      UsersValid(users, nextUserId) && SessionsOwned(users, sessions)
    }

    constructor ()
      ensures Valid() && users == [] && sessions == [] && nextUserId == 1 && outbox == []
    {
      users := [];
      sessions := [];
      nextUserId := 1;
      outbox := [];
    }

    /**
     * `sign_up`: stores the password's hash, never the password; a taken
     * name is refused without a new user or message, but the INSERT has
     * already drawn its id from the sequence.
     */
    method SignUp(username: Option<string>, password: Option<string>, hash: string -> string) returns (outcome: SignUpOutcome)
      requires Valid()
      modifies this
      ensures Valid() && sessions == old(sessions)
      ensures outcome == SignUpInvalid <==> !SignUpValid(username, password)
      ensures outcome == SignUpNameTaken <==> SignUpValid(username, password) && NameTaken(old(users), username.value)
      ensures !outcome.SignedUp? ==> users == old(users) && outbox == old(outbox)
      ensures nextUserId == old(nextUserId) + (if SignUpValid(username, password) then 1 else 0)
      ensures outcome.SignedUp? ==>
        && outcome.userId == old(nextUserId)
        && users == old(users) + [User(outcome.userId, username.value, hash(password.value))]
        && outbox == old(outbox) + [UserCreated(outcome.userId)]
    {
      if !SignUpValid(username, password) {
        return SignUpInvalid;
      }
      var id := nextUserId;
      nextUserId := nextUserId + 1;
      if NameTaken(users, username.value) {
        return SignUpNameTaken;
      }
      var u := User(id, username.value, hash(password.value));
      OwnedAfterNewUser(users, sessions, u);
      users := users + [u];
      outbox := outbox + [UserCreated(id)];
      outcome := SignedUp(id);
    }

    /** `sign_in`: 400 for an invalid body, 401 unless the name and password hash match a user, else a new session. */
    method SignIn(username: Option<string>, password: Option<string>, hash: string -> string, newToken: string)
      returns (status: int, token: Option<string>)
      requires Valid()
      modifies this
      ensures Valid() && users == old(users) && nextUserId == old(nextUserId) && outbox == old(outbox)
      ensures status == 400 <==> !SignInValid(username, password)
      ensures status == 401 <==> SignInValid(username, password) && FindUser(users, username.value, hash(password.value)).None?
      ensures status != 200 ==> token.None? && sessions == old(sessions)
      ensures status == 200 ==>
        && token == Some(newToken)
        && sessions == old(sessions) + [Session(FindUser(users, username.value, hash(password.value)).value.id, newToken)]
      ensures status in {200, 400, 401}
    {
      if !SignInValid(username, password) {
        return 400, None;
      }
      var user := FindUser(users, username.value, hash(password.value));
      if user.None? {
        return 401, None;
      }
      var i :| 0 <= i < |users| && users[i] == user.value;
      assert HasUser(users, user.value.id);
      OwnedAfterNewSession(users, sessions, Session(user.value.id, newToken));
      sessions := sessions + [Session(user.value.id, newToken)];
      status, token := 200, Some(newToken);
    }

    /** `auth`: 401 for a bad header or an unknown token, else the session's user id as `X-User-Id`. */
    method Auth(authorization: Option<string>) returns (status: int, userIdHeader: Option<string>)
      requires Valid()
      ensures var token := HeaderToken(authorization);
        && (status == 401 <==> token.None? || SessionUser(sessions, token.value).None?)
        && (status != 401 ==> status == 200 && userIdHeader == Some(IntToText(SessionUser(sessions, token.value).value)))
        && (status == 401 ==> userIdHeader.None?)
    {
      var token := HeaderToken(authorization);
      if token.None? {
        return 401, None;
      }
      var user := SessionUser(sessions, token.value);
      if user.None? {
        return 401, None;
      }
      status, userIdHeader := 200, Some(IntToText(user.value));
    }
  }

  /** The `X-User-Id` value reads back, with `int(...)`, as the session's user id. */
  lemma UserIdHeaderReadBack(userId: nat)
    ensures ParseInt(IntToText(userId)) == Some(userId as int)
  {
    IntToTextRoundTrip(userId);
  }
}
