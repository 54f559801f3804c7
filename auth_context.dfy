/**
 * The authentication session (contexts/AuthContext.tsx): the signed-in user,
 * the bearer token and a loading flag in memory, backed by a secure key-value
 * store holding the entries "user" and "token". The HTTP reply and the outcome
 * of every store call are inputs. A ghost log records the state updates and
 * store calls in the order they are made.
 */
module Auth {
  import opened Wrappers
  import Decimal

  datatype User = User(name: string, email: string)

  const UserKey := "user"
  const TokenKey := "token"

  // ---------------------------------------------------------------------------
  // The persisted form of a user. It stands in for JSON.stringify and
  // JSON.parse: the length of the name, a colon, the name, the e-mail.

  function EncodeUser(u: User): (s: string)
    ensures s != ""
  {
    Decimal.NatToString(|u.name|) + ":" + u.name + u.email
  }

  /** How many digits `s` starts with. */
  function LeadingDigits(s: string): (k: nat)
    ensures k <= |s|
    ensures forall i :: 0 <= i < k ==> Decimal.IsDigit(s[i])
    ensures k < |s| ==> !Decimal.IsDigit(s[k])
    decreases |s|
  {
    if s == [] || !Decimal.IsDigit(s[0]) then 0 else 1 + LeadingDigits(s[1..])
  }

  /** Reads a stored user back; `None` where JSON.parse would throw. */
  function DecodeUser(s: string): (u: Option<User>)
    ensures u.Some? ==> |u.value.name| + |u.value.email| < |s|
  {
    var k := LeadingDigits(s);
    if k == 0 || k == |s| || s[k] != ':' then None
    else
      var n := Decimal.ParseNat(s[..k]);
      var rest := s[k + 1..];
      if n <= |rest| then Some(User(rest[..n], rest[n..])) else None
  }

  lemma {:induction false} LeadingDigitsOf(a: string, b: string)
    requires Decimal.AllDigits(a)
    requires b == [] || !Decimal.IsDigit(b[0])
    ensures LeadingDigits(a + b) == |a|
    decreases |a|
  {
    if a != [] {
      assert (a + b)[1..] == a[1..] + b;
      LeadingDigitsOf(a[1..], b);
    }
  }

  /** A stored user reads back as the same user. */
  lemma UserRoundTrip(u: User)
    ensures DecodeUser(EncodeUser(u)) == Some(u)
  {
    var digits := Decimal.NatToString(|u.name|);
    var s := EncodeUser(u);
    assert s == digits + (":" + u.name + u.email);
    LeadingDigitsOf(digits, ":" + u.name + u.email);
    assert s[..|digits|] == digits;
    Decimal.ParseNatToString(|u.name|);
    assert s[|digits| + 1..] == u.name + u.email;
  }

  // ---------------------------------------------------------------------------
  // Inputs and results.

  /** The outcome of one SecureStore call. */
  datatype StoreCall = Done | Failed(reason: string)

  /** The reply to a login or register request. */
  datatype Reply =
    | Unreachable(reason: string)                           // fetch or res.json() rejected
    | Refused(error: Option<string>, message: Option<string>)  // res.ok is false
    | Accepted(user: User, token: string)                   // res.ok is true

  datatype Request =
    | LoginRequest(email: string, password: string)
    | RegisterRequest(name: string, email: string, password: string, role: string)

  /** How the returned promise settles. */
  datatype Outcome = Resolved | Rejected(message: string)

  datatype Event =
    | SetUser(user: Option<User>)
    | SetToken(token: Option<string>)
    | SetLoading(loading: bool)
    | StoreGet(key: string)
    | StoreSet(key: string)
    | StoreDelete(key: string)

  /** `data.error || "Login failed"` and its register twin. */
  function FailureText(field: Option<string>, fallback: string): (s: string)
    requires fallback != ""
    ensures s != ""
    ensures field.Some? && field.value != "" ==> s == field.value
    ensures field.None? || field.value == "" ==> s == fallback
  {
    if field.Some? && field.value != "" then field.value else fallback
  }

  // ---------------------------------------------------------------------------
  // Restoring the session at start-up.

  function Get(store: map<string, string>, key: string): (v: Option<string>) {
    if key in store then Some(store[key]) else None
  }

  /** A present, non-empty stored string (`if (stored)`). */
  predicate Truthy(v: Option<string>) {
    v.Some? && v.value != ""
  }

  /** What start-up restores: `None` leaves the field as it was. */
  datatype Restored = Restored(user: Option<User>, token: Option<string>)

  /**
   * Restoring from `store`: read "user", then "token"; parse the user; set the
   * user, then the token. A failing read or parse ends the attempt.
   */
  function Restore(store: map<string, string>, userRead: StoreCall, tokenRead: StoreCall): (r: Restored)
    ensures r.user.Some? <==>
              userRead.Done? && tokenRead.Done? && Truthy(Get(store, UserKey)) &&
              DecodeUser(store[UserKey]).Some?
    ensures r.user.Some? ==> r.user == DecodeUser(store[UserKey])
    ensures r.token.Some? <==>
              userRead.Done? && tokenRead.Done? && Truthy(Get(store, TokenKey)) &&
              (Truthy(Get(store, UserKey)) ==> DecodeUser(store[UserKey]).Some?)
    ensures r.token.Some? ==> r.token == Some(store[TokenKey])
  {
    if userRead.Failed? || tokenRead.Failed? then Restored(None, None)
    else
      var storedUser, storedToken := Get(store, UserKey), Get(store, TokenKey);
      var token := if Truthy(storedToken) then storedToken else None;
      if !Truthy(storedUser) then Restored(None, token)
      else
        match DecodeUser(storedUser.value)
        case None => Restored(None, None)
        case Some(u) => Restored(Some(u), token)
  }

  /** What a sign-in persisted is restored on the next start, unless the token is "". */
  lemma RestoreAfterSignIn(store: map<string, string>, u: User, t: string)
    ensures Restore(store[UserKey := EncodeUser(u)][TokenKey := t], Done, Done) ==
              Restored(Some(u), if t == "" then None else Some(t))
  {
    var s := store[UserKey := EncodeUser(u)][TokenKey := t];
    assert s[UserKey] == EncodeUser(u);
    UserRoundTrip(u);
  }

  /** After a complete logout nothing is restored. */
  lemma RestoreAfterLogout(store: map<string, string>)
    ensures Restore(store - {UserKey, TokenKey}, Done, Done) == Restored(None, None)
  {
    assert UserKey !in store - {UserKey, TokenKey};
    assert TokenKey !in store - {UserKey, TokenKey};
  }

  /**
   * A logout whose "token" deletion failed leaves the token stored, and the
   * next start restores it without a user.
   */
  lemma RestoreAfterPartialLogout(store: map<string, string>)
    requires TokenKey in store && store[TokenKey] != ""
    ensures Restore(store - {UserKey}, Done, Done) == Restored(None, Some(store[TokenKey]))
  {
    assert UserKey !in store - {UserKey};
    assert (store - {UserKey})[TokenKey] == store[TokenKey];
  }

  // ---------------------------------------------------------------------------

  class AuthSession {
    var user: Option<User>
    var token: Option<string>
    var loading: bool
    /** The secure store's entries. */
    var store: map<string, string>
    ghost var events: seq<Event>

    /** The provider mounts over whatever an earlier run left in the store. */
    constructor (persisted: map<string, string>)
      ensures user == None && token == None && loading
      ensures store == persisted && events == []
    {
      user, token, loading := None, None, true;
      store := persisted;
      events := [];
    }

    /**
     * The state after a successful reply carrying `u` and `t`, from a store
     * `store0` and log `events0`: memory is set first, then "user" is written,
     * then "token"; the first failing write rejects and stops the sequence.
     */
    ghost predicate SignedIn(store0: map<string, string>, events0: seq<Event>, u: User, t: string,
                             userWrite: StoreCall, tokenWrite: StoreCall, outcome: Outcome)
      reads this
    {
      var first := events0 + [SetUser(Some(u)), SetToken(Some(t)), StoreSet(UserKey)];
      && user == Some(u) && token == Some(t)
      && (userWrite.Failed? ==>
            store == store0 && events == first && outcome == Rejected(userWrite.reason))
      && (userWrite.Done? && tokenWrite.Failed? ==>
            store == store0[UserKey := EncodeUser(u)] && events == first + [StoreSet(TokenKey)] &&
            outcome == Rejected(tokenWrite.reason))
      && (userWrite.Done? && tokenWrite.Done? ==>
            store == store0[UserKey := EncodeUser(u)][TokenKey := t] &&
            events == first + [StoreSet(TokenKey)] && outcome == Resolved)
    }

    /** The part `login` and `register` share once the reply is ok. */
    method SignIn(u: User, t: string, userWrite: StoreCall, tokenWrite: StoreCall) returns (outcome: Outcome)
      modifies this
      ensures SignedIn(old(store), old(events), u, t, userWrite, tokenWrite, outcome)
      ensures loading == old(loading)
    {
      user := Some(u);
      events := events + [SetUser(Some(u))];
      token := Some(t);
      events := events + [SetToken(Some(t))];
      events := events + [StoreSet(UserKey)];
      if userWrite.Failed? {
        return Rejected(userWrite.reason);
      }
      store := store[UserKey := EncodeUser(u)];
      events := events + [StoreSet(TokenKey)];
      if tokenWrite.Failed? {
        return Rejected(tokenWrite.reason);
      }
      store := store[TokenKey := t];
      outcome := Resolved;
    }

    /** `login(email, password)`. */
    method Login(email: string, password: string, reply: Reply, userWrite: StoreCall, tokenWrite: StoreCall)
      returns (sent: Request, outcome: Outcome)
      modifies this
      ensures sent == LoginRequest(email, password)
      ensures loading == old(loading)
      ensures !reply.Accepted? ==>
                user == old(user) && token == old(token) && store == old(store) && events == old(events)
      ensures reply.Unreachable? ==> outcome == Rejected(reply.reason)
      ensures reply.Refused? ==> outcome == Rejected(FailureText(reply.error, "Login failed"))
      ensures reply.Accepted? ==>
                SignedIn(old(store), old(events), reply.user, reply.token, userWrite, tokenWrite, outcome)
    {
      sent := LoginRequest(email, password);
      match reply
      case Unreachable(reason) =>
        outcome := Rejected(reason);
      case Refused(error, _) =>
        outcome := Rejected(FailureText(error, "Login failed"));
      case Accepted(u, t) =>
        outcome := SignIn(u, t, userWrite, tokenWrite);
    }

    /** `register(name, email, password)`: always asks for role "user". */
    method Register(name: string, email: string, password: string, reply: Reply,
                    userWrite: StoreCall, tokenWrite: StoreCall)
      returns (sent: Request, outcome: Outcome)
      modifies this
      ensures sent == RegisterRequest(name, email, password, "user")
      ensures loading == old(loading)
      ensures !reply.Accepted? ==>
                user == old(user) && token == old(token) && store == old(store) && events == old(events)
      ensures reply.Unreachable? ==> outcome == Rejected(reply.reason)
      ensures reply.Refused? ==> outcome == Rejected(FailureText(reply.message, "Registration failed"))
      ensures reply.Accepted? ==>
                SignedIn(old(store), old(events), reply.user, reply.token, userWrite, tokenWrite, outcome)
    {
      sent := RegisterRequest(name, email, password, "user");
      match reply
      case Unreachable(reason) =>
        outcome := Rejected(reason);
      case Refused(_, message) =>
        outcome := Rejected(FailureText(message, "Registration failed"));
      case Accepted(u, t) =>
        outcome := SignIn(u, t, userWrite, tokenWrite);
    }

    /**
     * `logout()`: memory is cleared before the store is touched; "user" is
     * deleted, then "token"; true only when both deletions succeed.
     */
    method Logout(userDelete: StoreCall, tokenDelete: StoreCall) returns (ok: bool)
      modifies this
      ensures user == None && token == None && loading == old(loading)
      ensures ok <==> userDelete.Done? && tokenDelete.Done?
      ensures userDelete.Failed? ==>
                store == old(store) &&
                events == old(events) + [SetUser(None), SetToken(None), StoreDelete(UserKey)]
      ensures userDelete.Done? && tokenDelete.Failed? ==>
                store == old(store) - {UserKey} &&
                events == old(events) + [SetUser(None), SetToken(None), StoreDelete(UserKey), StoreDelete(TokenKey)]
      ensures ok ==>
                store == old(store) - {UserKey, TokenKey} &&
                events == old(events) + [SetUser(None), SetToken(None), StoreDelete(UserKey), StoreDelete(TokenKey)]
    {
      user := None;
      token := None;
      events := events + [SetUser(None), SetToken(None), StoreDelete(UserKey)];
      if userDelete.Failed? {
        return false;
      }
      store := store - {UserKey};
      events := events + [StoreDelete(TokenKey)];
      if tokenDelete.Failed? {
        return false;
      }
      store := store - {TokenKey};
      assert store == old(store) - {UserKey, TokenKey};
      ok := true;
    }

    /**
     * The mount effect, run once while `loading` is still true: restore what
     * the store holds and, whatever happens, end with `loading` false.
     */
    method Rehydrate(userRead: StoreCall, tokenRead: StoreCall)
      requires loading
      modifies this
      ensures !loading && store == old(store)
      ensures var r := Restore(old(store), userRead, tokenRead);
              user == (if r.user.Some? then r.user else old(user)) &&
              token == (if r.token.Some? then r.token else old(token))
      ensures |events| > |old(events)| && events[..|old(events)|] == old(events)
      ensures events[|events| - 1] == SetLoading(false)
    {
      var r := Restore(store, userRead, tokenRead);
      events := events + [StoreGet(UserKey)];
      if userRead.Done? {
        events := events + [StoreGet(TokenKey)];
      }
      if r.user.Some? {
        user := r.user;
        events := events + [SetUser(r.user)];
      }
      if r.token.Some? {
        token := r.token;
        events := events + [SetToken(r.token)];
      }
      loading := false;
      events := events + [SetLoading(false)];
    }
  }

  /**
   * A logout whose "user" deletion fails leaves the store as the login wrote
   * it, so the next start signs the user back in.
   */
  method FailedLogoutSignsBackIn(u: User, t: string)
    requires t != ""
  {
    var first := new AuthSession(map[]);
    first.Rehydrate(Done, Done);
    var _, outcome := first.Login(u.email, "secret", Accepted(u, t), Done, Done);
    var ok := first.Logout(Failed("keystore locked"), Done);
    assert !ok && first.user == None && first.token == None;
    var second := new AuthSession(first.store);
    RestoreAfterSignIn(map[], u, t);
    second.Rehydrate(Done, Done);
    assert second.user == Some(u) && second.token == Some(t);
  }

  /** A login survives an app restart: the next session restores it. */
  method SessionSurvivesRestart(u: User, t: string)
    requires t != ""
  {
    var first := new AuthSession(map[]);
    first.Rehydrate(Done, Done);
    var _, outcome := first.Login(u.email, "secret", Accepted(u, t), Done, Done);
    assert outcome == Resolved;
    var second := new AuthSession(first.store);
    RestoreAfterSignIn(map[], u, t);
    second.Rehydrate(Done, Done);
    assert second.user == Some(u) && second.token == Some(t) && !second.loading;
  }
}
