/** The auth store (`useAuth` in `src/hooks/useAuth.ts`): a directory of
    registered users with their plain-text passwords and a session of zero or
    one user. Both live in the browser key-value store; a state update plus a
    store write is one pure transition. The clock and `crypto.randomUUID()` are
    parameters. */
module Auth {
  import opened Base
  import opened HealthTypes

  /** A directory entry, `User & { password: string }`. */
  datatype StoredUser = StoredUser(id: RecordId, email: string, name: string, createdAt: Timestamp,
                                   password: string)

  /** The keys `health_tracker_auth` (the session) and `health_tracker_users` (the
      directory); `None` is an absent key. */
  datatype AuthStorage = AuthStorage(session: Option<User>, users: Option<seq<StoredUser>>)

  /** The hook's state: the signed-in user, the loading flag and the storage. */
  datatype AuthState = AuthState(user: Option<User>, isLoading: bool, storage: AuthStorage)

  /** `{ success: boolean; error?: string }` */
  datatype AuthResult = AuthResult(success: bool, error: Option<string>)

  const InvalidCredentials: string := "Invalid email or password"
  const EmailTaken: string := "Email already registered"

  /** The stored directory, or the empty list when the key is absent. */
  function Directory(st: AuthStorage): seq<StoredUser>
  {
    match st.users
    case None => []
    case Some(users) => users
  }

  /** `const { password: _, ...userWithoutPassword } = entry` */
  function WithoutPassword(e: StoredUser): (u: User)
    ensures u.id == e.id && u.email == e.email && u.name == e.name && u.createdAt == e.createdAt
  {
    User(e.id, e.email, e.name, e.createdAt)
  }

  function StoredEmail(e: StoredUser): string { e.email }

  function Credentials(e: StoredUser): (string, string) { (e.email, e.password) }

  /** Some directory entry has exactly this email and password. */
  predicate Registered(ds: seq<StoredUser>, email: string, password: string)
  {
    exists i :: 0 <= i < |ds| && Credentials(ds[i]) == (email, password)
  }

  /** Entry `i` is the first one with exactly this email and password. */
  predicate FirstMatch(ds: seq<StoredUser>, email: string, password: string, i: int)
  {
    && 0 <= i < |ds| && Credentials(ds[i]) == (email, password)
    && forall j :: 0 <= j < i ==> Credentials(ds[j]) != (email, password)
  }

  /** `users.some(u => u.email === email)` */
  predicate EmailListed(ds: seq<StoredUser>, email: string)
  {
    exists i :: 0 <= i < |ds| && ds[i].email == email
  }

  /** The directory holds each email at most once. */
  predicate EmailsUnique(ds: seq<StoredUser>)
  {
    forall i, j :: 0 <= i < j < |ds| ==> ds[i].email != ds[j].email
  }

  /** The hook on mount: no user yet and still loading; storage is only read. */
  function Mount(storage: AuthStorage): (s: AuthState)
    ensures s.user.None? && s.isLoading && s.storage == storage
  {
    AuthState(None, true, storage)
  }

  /** The restore effect: a stored session becomes the user; loading ends either way. */
  function Restore(s: AuthState): (r: AuthState)
    ensures !r.isLoading && r.storage == s.storage
    ensures s.storage.session.Some? ==> r.user == s.storage.session
    ensures s.storage.session.None? ==> r.user == s.user
  {
    match s.storage.session
    case Some(u) => s.(user := Some(u), isLoading := false)
    case None => s.(isLoading := false)
  }

  /** `login`: the first directory entry with exactly this email and password,
      minus its password, becomes the session; otherwise nothing changes. */
  function Login(s: AuthState, email: string, password: string): (r: (AuthState, AuthResult))
    ensures r.1.success <==> Registered(Directory(s.storage), email, password)
    ensures r.1.success ==>
      && r.1.error == None
      && r.0.isLoading == s.isLoading
      && r.0.storage.users == s.storage.users
      && r.0.user.Some? && r.0.storage.session == r.0.user
    ensures forall i :: FirstMatch(Directory(s.storage), email, password, i) ==>
      r.0.user == Some(WithoutPassword(Directory(s.storage)[i]))
    ensures !r.1.success ==> r.0 == s && r.1.error == Some(InvalidCredentials)
  {
    var ds := Directory(s.storage);
    match FirstIndex(ds, Credentials, (email, password))
    case Some(i) =>
      assert forall k :: FirstMatch(ds, email, password, k) ==> k == i;
      var u := WithoutPassword(ds[i]);
      (s.(user := Some(u), storage := s.storage.(session := Some(u))), AuthResult(true, None))
    case None =>
      assert forall i :: 0 <= i < |ds| ==> Credentials(ds[i]) != (email, password);
      (s, AuthResult(false, Some(InvalidCredentials)))
  }

  /** `signup`: refuse an email already in the directory; otherwise append one
      entry and start a session for it, without its password. */
  function Signup(s: AuthState, email: string, password: string, name: string,
                  freshId: RecordId, now: Timestamp): (r: (AuthState, AuthResult))
    ensures EmailListed(Directory(s.storage), email) ==>
      r.0 == s && r.1 == AuthResult(false, Some(EmailTaken))
    ensures !EmailListed(Directory(s.storage), email) ==>
      && r.1 == AuthResult(true, None)
      && r.0.storage.users == Some(Directory(s.storage) + [StoredUser(freshId, email, name, now, password)])
      && r.0.user == Some(User(freshId, email, name, now))
      && r.0.storage.session == r.0.user
      && r.0.isLoading == s.isLoading
  {
    var ds := Directory(s.storage);
    if FirstIndex(ds, StoredEmail, email).Some? then
      (s, AuthResult(false, Some(EmailTaken)))
    else
      assert forall i :: 0 <= i < |ds| ==> StoredEmail(ds[i]) != email;
      var entry := StoredUser(freshId, email, name, now, password);
      var u := WithoutPassword(entry);
      (AuthState(Some(u), s.isLoading, AuthStorage(Some(u), Some(ds + [entry]))), AuthResult(true, None))
  }

  /** `logout`: clear the session whatever the state. */
  function Logout(s: AuthState): (r: AuthState)
    ensures r.user.None? && r.storage.session.None?
    ensures r.storage.users == s.storage.users && r.isLoading == s.isLoading
  {
    s.(user := None, storage := s.storage.(session := None))
  }

  /** `isAuthenticated: !!user` */
  predicate IsAuthenticated(s: AuthState)
  {
    s.user.Some?
  }

  /** The session in memory is the stored one, and it is a directory entry minus
      its password. */
  predicate SessionListed(s: AuthState)
  {
    && s.user == s.storage.session
    && (s.user.Some? ==>
          exists i :: 0 <= i < |Directory(s.storage)| && WithoutPassword(Directory(s.storage)[i]) == s.user.value)
  }
}
