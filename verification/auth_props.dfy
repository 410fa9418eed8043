/** Properties of the auth store across calls: emails stay unique, the session
    is always a directory entry without its password, a fresh signup can log in
    at once, and the persisted session survives a reload. */
module AuthProps {
  import opened Base
  import opened HealthTypes
  import opened Auth

  /** A signup keeps the directory's emails pairwise distinct. */
  lemma SignupKeepsEmailsUnique(s: AuthState, email: string, password: string, name: string,
                                freshId: RecordId, now: Timestamp)
    requires EmailsUnique(Directory(s.storage))
    ensures EmailsUnique(Directory(Signup(s, email, password, name, freshId, now).0.storage))
  {
    var ds := Directory(s.storage);
    if !EmailListed(ds, email) {
      var r := Directory(Signup(s, email, password, name, freshId, now).0.storage);
      forall i, j | 0 <= i < j < |r|
        ensures r[i].email != r[j].email
      {
        if j == |ds| {
          assert r[i] == ds[i];
        } else {
          assert r[i] == ds[i] && r[j] == ds[j];
        }
      }
    }
  }

  /** A login keeps the session a listed user without a password. */
  lemma LoginKeepsSessionListed(s: AuthState, email: string, password: string)
    requires SessionListed(s)
    ensures SessionListed(Login(s, email, password).0)
  {
    var ds := Directory(s.storage);
    var r := Login(s, email, password);
    if r.1.success {
      var i := FirstIndex(ds, Credentials, (email, password)).value;
      assert r.0.user == Some(WithoutPassword(ds[i]));
      assert Directory(r.0.storage) == ds;
    }
  }

  /** A signup keeps the session a listed user without a password. */
  lemma SignupKeepsSessionListed(s: AuthState, email: string, password: string, name: string,
                                 freshId: RecordId, now: Timestamp)
    requires SessionListed(s)
    ensures SessionListed(Signup(s, email, password, name, freshId, now).0)
  {
    var ds := Directory(s.storage);
    if !EmailListed(ds, email) {
      var r := Signup(s, email, password, name, freshId, now).0;
      assert WithoutPassword(Directory(r.storage)[|ds|]) == r.user.value;
    }
  }

  /** After a logout nobody is signed in, and a second logout changes nothing. */
  lemma LogoutIdempotent(s: AuthState)
    ensures !IsAuthenticated(Logout(s)) && SessionListed(Logout(s))
    ensures Logout(Logout(s)) == Logout(s)
  {
  }

  /** A stored session that lists its user is restored as it was written: reopening
      the app after a login or a signup yields the same signed-in user. */
  lemma RestoreAfterLogin(s: AuthState, email: string, password: string)
    requires SessionListed(s)
    ensures var r := Login(s, email, password).0;
      Restore(Mount(r.storage)).user == r.user
  {
  }

  /** A successful signup can log in at once with the same email and password, and
      the login signs in the very user the signup created. */
  lemma SignupThenLogin(s: AuthState, email: string, password: string, name: string,
                        freshId: RecordId, now: Timestamp)
    requires !EmailListed(Directory(s.storage), email)
    ensures var r := Signup(s, email, password, name, freshId, now).0;
      && Login(r, email, password).1.success
      && Login(r, email, password).0.user == r.user
  {
    var ds := Directory(s.storage);
    var r := Signup(s, email, password, name, freshId, now).0;
    var ds' := Directory(r.storage);
    assert Credentials(ds'[|ds|]) == (email, password);
    assert forall j :: 0 <= j < |ds| ==> ds'[j] == ds[j] && ds[j].email != email;
  }

  /** The same email cannot sign up twice. */
  lemma SignupTwiceRefused(s: AuthState, email: string, password: string, name: string,
                           freshId: RecordId, now: Timestamp,
                           password2: string, name2: string, freshId2: RecordId, now2: Timestamp)
    ensures var r := Signup(s, email, password, name, freshId, now).0;
      Signup(r, email, password2, name2, freshId2, now2).1 == AuthResult(false, Some(EmailTaken))
  {
    var ds := Directory(s.storage);
    if !EmailListed(ds, email) {
      var r := Signup(s, email, password, name, freshId, now).0;
      assert Directory(r.storage)[|ds|].email == email;
    }
  }

  /** A worked session: Ann signs up, logs out, mistypes the password, then logs in. */
  lemma AnnSession()
    ensures var s0 := Restore(Mount(AuthStorage(None, None)));
      var (s1, signedUp) := Signup(s0, "ann@example.com", "pw1", "Ann", "id-1", "t0");
      var s2 := Logout(s1);
      var (s3, wrong) := Login(s2, "ann@example.com", "pw2");
      var (s4, right) := Login(s3, "ann@example.com", "pw1");
      && signedUp.success && !s0.isLoading && !IsAuthenticated(s0)
      && !wrong.success && wrong.error == Some(InvalidCredentials) && s3 == s2
      && right.success && s4.user == Some(User("id-1", "ann@example.com", "Ann", "t0"))
  {
    var s0 := Restore(Mount(AuthStorage(None, None)));
    var (s1, _) := Signup(s0, "ann@example.com", "pw1", "Ann", "id-1", "t0");
    assert Directory(s1.storage) == [StoredUser("id-1", "ann@example.com", "Ann", "t0", "pw1")];
    var s2 := Logout(s1);
    assert Credentials(Directory(s2.storage)[0]) == ("ann@example.com", "pw1");
  }
}
