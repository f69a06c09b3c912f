/**
 * The session manager: login against the fixed user table, a session record
 * persisted under `pediatria-auth` with its creation time, lazy eight-hour
 * expiry when the application starts, logout and the permission check that
 * every screen consults. Times are milliseconds since the epoch (`Date.now()`)
 * and are passed in.
 */
module Auth {
  import opened Wrappers
  import opened Records
  import opened Roles
  import opened Storage

  /** An account of the fixed user table. */
  datatype User = User(username: string, password: string, role: string, name: string,
                       crm: Option<string>, specialty: Option<string>)

  const Thais := User("thais", "THAIS2024", Medico, "Dra. Thais Cordeiro", Some("52 101870-1"), Some("Pediatria"))
  const FrontDesk := User("secretaria", "SEC2024", Secretaria, "Secretária", None, None)

  /** `Object.values(USERS)`. */
  const Users: seq<User> := [Thais, FrontDesk]

  /** Eight hours in milliseconds. */
  const SessionTtl := 8 * 60 * 60 * 1000

  const InvalidCredentials := "Usuário ou senha incorretos"

  /** `users.find(u => u.username === username && u.password === password)`. */
  function FindUser(users: seq<User>, username: string, password: string): (r: Option<User>)
    ensures r.Some? <==> exists i :: 0 <= i < |users| && users[i].username == username && users[i].password == password
    ensures r.Some? ==> r.value in users && r.value.username == username && r.value.password == password
  {
    if users == [] then None
    else if users[0].username == username && users[0].password == password then Some(users[0])
    else
      var r := FindUser(users[1..], username, password);
      assert forall i :: 1 <= i < |users| ==> users[i] == users[1..][i - 1];
      r
  }

  /** The user object kept in memory and persisted: only username, name, role and specialty. */
  function Snapshot(u: User): SessionUser
  {
    SessionUser(u.username, u.name, u.role, u.specialty)
  }

  /** The persisted session record `{user, timestamp}`. */
  function SessionRecord(u: User, now: int): Value
  {
    SessionDoc(Snapshot(u), now)
  }

  /** The result of `login`. */
  datatype LoginResult = Success(user: SessionUser) | Failure(error: string)

  /** What the start-up check does with the stored session record. */
  datatype RestoreDecision =
    | NoSession             // nothing stored, or the empty text: stay logged out, touch nothing
    | Resume(user: SessionUser)
    | Discard               // expired or unreadable: remove it and stay logged out

  /**
   * The start-up check: a stored empty text is skipped like a missing one; a
   * session record younger than eight hours is resumed; any other stored value
   * is discarded. The other document shapes `Value` can hold carry no
   * `timestamp` field, so the comparison with NaN fails and they are discarded.
   */
  function RestoreDecisionFor(stored: Option<Value>, now: int): (r: RestoreDecision)
    ensures r.NoSession? <==> stored.None? || stored == Some(Malformed(""))
    ensures r.Resume? <==> stored.Some? && stored.value.SessionDoc? && now - stored.value.timestamp < SessionTtl
    ensures r.Resume? ==> r.user == stored.value.user
  {
    match stored
    case None => NoSession
    case Some(Malformed(text)) => if text == "" then NoSession else Discard
    case Some(SessionDoc(u, t)) => if now - t < SessionTtl then Resume(u) else Discard
    case Some(_) => Discard
  }

  /** Login succeeds for exactly the two table entries, and only with exact credentials. */
  lemma LoginCredentials(username: string, password: string)
    ensures FindUser(Users, username, password).Some? <==>
      (username == "thais" && password == "THAIS2024") || (username == "secretaria" && password == "SEC2024")
    ensures FindUser(Users, "thais", "THAIS2024") == Some(Thais)
    ensures FindUser(Users, "secretaria", "SEC2024") == Some(FrontDesk)
  {
  }

  /** The snapshot is blind to the password and the CRM: two accounts differing only there persist the same user. */
  lemma SnapshotOmitsSecrets(u: User, password: string, crm: Option<string>)
    ensures Snapshot(u.(password := password, crm := crm)) == Snapshot(u)
  {
  }

  /** The window is strict: 7h59m59.999s after login resumes, exactly 8h does not. */
  lemma SessionWindow(u: SessionUser, t: int)
    ensures RestoreDecisionFor(Some(SessionDoc(u, t)), t + SessionTtl - 1) == Resume(u)
    ensures RestoreDecisionFor(Some(SessionDoc(u, t)), t + SessionTtl) == Discard
    ensures RestoreDecisionFor(Some(SessionDoc(u, t)), t + SessionTtl + 60 * 1000) == Discard
  {
  }

  /** A login followed by a restart within eight hours resumes the same user. */
  lemma LoginThenRestore(u: User, t: int, now: int)
    requires t <= now < t + SessionTtl
    ensures RestoreDecisionFor(Some(SessionRecord(u, t)), now) == Resume(Snapshot(u))
  {
  }

  /** An unreadable record is discarded, except the empty text, which is left where it is. */
  lemma MalformedSessionDiscarded(text: string, now: int)
    ensures text != "" ==> RestoreDecisionFor(Some(Malformed(text)), now) == Discard
    ensures text == "" ==> RestoreDecisionFor(Some(Malformed(text)), now) == NoSession
  {
  }

  /** The authentication state held by the provider. */
  class AuthState {
    const store: Store
    var user: Option<SessionUser>
    var isAuthenticated: bool

    /** The invariant every transition keeps. */
    predicate Valid()
      reads this
    {
      isAuthenticated <==> user.Some?
    }

    /** Provider mount: start logged out, then run the start-up check on the stored record. */
    constructor Restore(store: Store, now: int)
      modifies store
      ensures this.store == store && Valid()
      ensures match RestoreDecisionFor(old(store.GetItem(AuthKey)), now)
        case NoSession => user.None? && store.data == old(store.data)
        case Resume(u) => user == Some(u) && store.data == old(store.data)
        case Discard => user.None? && store.data == old(store.data) - {AuthKey}
    {
      this.store := store;
      user := None;
      isAuthenticated := false;
      new;
      var decision := RestoreDecisionFor(store.GetItem(AuthKey), now);
      match decision
      case NoSession =>
      case Resume(u) =>
        user := Some(u);
        isAuthenticated := true;
      case Discard =>
        store.RemoveItem(AuthKey);
    }

    /** `login(username, password)`. */
    method Login(username: string, password: string, now: int) returns (r: LoginResult)
      requires Valid()
      modifies this, store
      ensures Valid()
      ensures match FindUser(Users, username, password)
        case Some(u) =>
          r == Success(Snapshot(u)) && user == Some(Snapshot(u))
          && store.data == old(store.data)[AuthKey := SessionRecord(u, now)]
        case None =>
          r == Failure(InvalidCredentials) && user == old(user) && isAuthenticated == old(isAuthenticated)
          && store.data == old(store.data)
    {
      var found := FindUser(Users, username, password);
      match found
      case Some(u) =>
        user := Some(Snapshot(u));
        isAuthenticated := true;
        store.SetItem(AuthKey, SessionRecord(u, now));
        r := Success(Snapshot(u));
      case None =>
        r := Failure(InvalidCredentials);
    }

    /** `logout()`. */
    method Logout()
      modifies this, store
      ensures Valid() && user.None? && !isAuthenticated
      ensures store.data == old(store.data) - {AuthKey}
    {
      user := None;
      isAuthenticated := false;
      store.RemoveItem(AuthKey);
    }

    /** `checkPermission(permission)`: nobody logged in holds nothing. */
    function CheckPermission(permission: string): (r: bool)
      reads this
      ensures user.None? ==> !r
      ensures user.Some? ==> (r <==> HasPermission(user.value.role, permission))
    {
      match user
      case None => false
      case Some(u) => HasPermission(u.role, permission)
    }

    function IsMedico(): (r: bool)
      reads this
      ensures r <==> user.Some? && user.value.role == Medico
    {
      user.Some? && user.value.role == Medico
    }

    function IsSecretaria(): (r: bool)
      reads this
      ensures r <==> user.Some? && user.value.role == Secretaria
    {
      user.Some? && user.value.role == Secretaria
    }
  }

  /** Logged in at the front desk, no clinical record can be read or written and no patient deleted. */
  lemma FrontDeskSessionLimits(a: AuthState, permission: string)
    requires a.user == Some(Snapshot(FrontDesk))
    requires permission in ClinicalPermissions || permission == CadastroDelete
    ensures !a.CheckPermission(permission)
    ensures a.CheckPermission(CadastroUpdate)
  {
    SecretariaGrant();
  }
}
