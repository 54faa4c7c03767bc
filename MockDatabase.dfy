/**
 * The browser-side user store (frontend/src/utils/mockDatabase.js): a list
 * of user records kept under one storage key, seeded with an administrator
 * and a scientist on first start. The browser's storage is the class
 * `LocalStorage` below, one field per key the application uses; the JSON
 * encoding of the stored values is not modelled.
 */
module MockDatabase {
  import opened Wrappers

  datatype User = User(
    id: int,
    email: string,
    password: string,
    role: string,
    status: string,
    name: string,
    createdAt: string)

  /** A stored user without the password, as the login session keeps it. */
  datatype SessionUser = SessionUser(
    id: int,
    email: string,
    role: string,
    status: string,
    name: string,
    createdAt: string)

  function WithoutPassword(u: User): (s: SessionUser)
    ensures s.id == u.id && s.email == u.email && s.role == u.role
    ensures s.status == u.status && s.name == u.name && s.createdAt == u.createdAt
  {
    SessionUser(u.id, u.email, u.role, u.status, u.name, u.createdAt)
  }

  /**
   * The two accounts a fresh store starts with. Each record reads the clock
   * itself, so the two creation times are separate inputs.
   */
  function SeedUsers(adminCreatedAt: string, scientistCreatedAt: string): seq<User> {
    [ User(1, "admin@spaceex.org", "Admin123!", "admin", "approved", "System Administrator", adminCreatedAt),
      User(2, "scientist@spaceex.org", "Science123!", "scientist", "approved", "Research Scientist",
           scientistCreatedAt) ]
  }

  /** The seed users have ids 1 and 2, are approved, and have distinct emails. */
  lemma SeedUsersFacts(t1: string, t2: string)
    ensures |SeedUsers(t1, t2)| == 2
    ensures SeedUsers(t1, t2)[0].id == 1 && SeedUsers(t1, t2)[1].id == 2
    ensures forall u :: u in SeedUsers(t1, t2) ==> u.status == "approved"
    ensures IdsUnique(SeedUsers(t1, t2)) && EmailsUnique(SeedUsers(t1, t2))
    ensures StatusesKnown(SeedUsers(t1, t2))
  {
    var s := SeedUsers(t1, t2);
    assert s[0].email[0] == 'a' && s[1].email[0] == 's';
  }

  /** No two users share an id. */
  ghost predicate IdsUnique(users: seq<User>) {
    forall i, j :: 0 <= i < j < |users| ==> users[i].id != users[j].id
  }

  /** No two users share an email. */
  ghost predicate EmailsUnique(users: seq<User>) {
    forall i, j :: 0 <= i < j < |users| ==> users[i].email != users[j].email
  }

  /** Every status is one of the two the application writes. */
  ghost predicate StatusesKnown(users: seq<User>) {
    forall u :: u in users ==> u.status == "pending" || u.status == "approved"
  }

  /** `users.find(user => user.email === email) || null`. */
  function FindByEmail(users: seq<User>, email: string): (r: Option<User>)
    ensures r.None? <==> forall u :: u in users ==> u.email != email
    ensures r.Some? ==> r.value.email == email
    ensures r.Some? ==> exists k :: (0 <= k < |users| && users[k] == r.value
      && forall i :: 0 <= i < k ==> users[i].email != email)
    decreases |users|
  {
    if |users| == 0 then None
    else if users[0].email == email then Some(users[0])
    else
      var r := FindByEmail(users[1..], email);
      if r.Some? then
        ghost var k :| 0 <= k < |users[1..]| && users[1..][k] == r.value
          && forall i :: 0 <= i < k ==> users[1..][i].email != email;
        assert users[k + 1] == r.value;
        r
      else r
  }

  /** A user appended after users without that email is the one found. */
  lemma FindAppended(users: seq<User>, u: User)
    requires FindByEmail(users, u.email).None?
    ensures FindByEmail(users + [u], u.email) == Some(u)
  {
    var s := users + [u];
    assert u in s;
    var r := FindByEmail(s, u.email);
    var k :| 0 <= k < |s| && s[k] == r.value && forall i :: 0 <= i < k ==> s[i].email != u.email;
    assert forall i :: 0 <= i < |users| ==> s[i] == users[i] && users[i] in users;
  }

  /** Appending a user with another email does not change what is found. */
  lemma {:induction false} FindPastAppended(users: seq<User>, u: User, email: string)
    requires u.email != email
    ensures FindByEmail(users + [u], email) == FindByEmail(users, email)
    decreases |users|
  {
    if |users| > 0 {
      assert (users + [u])[1..] == users[1..] + [u];
      FindPastAppended(users[1..], u, email);
    }
  }

  /** With unique emails the user found is the only one with that email. */
  lemma FindByEmailUnique(users: seq<User>, email: string, k: nat)
    requires EmailsUnique(users)
    requires k < |users| && users[k].email == email
    ensures FindByEmail(users, email) == Some(users[k])
  {
    var r := FindByEmail(users, email);
    assert users[k] in users;
    var j :| 0 <= j < |users| && users[j] == r.value
      && forall i :: 0 <= i < j ==> users[i].email != email;
    assert j == k;
  }

  /** `Math.max(...users.map(user => user.id))`. */
  function MaxId(users: seq<User>): (m: int)
    requires |users| > 0
    ensures forall u :: u in users ==> u.id <= m
    ensures exists u :: u in users && u.id == m
    decreases |users|
  {
    if |users| == 1 then users[0].id
    else
      var rest := MaxId(users[1..]);
      assert forall u :: u in users ==> u == users[0] || u in users[1..];
      if users[0].id > rest then users[0].id else rest
  }

  /** `generateId`: one more than the largest id, or 1 for no users. */
  function NextId(users: seq<User>): (id: int)
    ensures |users| == 0 ==> id == 1
    ensures |users| > 0 ==> id == MaxId(users) + 1
    ensures forall u :: u in users ==> u.id < id
  {
    if |users| > 0 then MaxId(users) + 1 else 1
  }

  /** A user appended with the next id keeps the ids unique. */
  lemma NextIdKeepsIdsUnique(users: seq<User>, u: User)
    requires IdsUnique(users) && u.id == NextId(users)
    ensures IdsUnique(users + [u])
  {
    var s := users + [u];
    forall i, j | 0 <= i < j < |s| ensures s[i].id != s[j].id {
      if j == |users| {
        assert s[i] in users;
      }
    }
  }

  /** The browser's storage: the user list and the login session, each absent until written. */
  class LocalStorage {
    /** The value under 'spaceex_user_database'. */
    var userDatabase: Option<seq<User>>
    /** The value under 'spaceex_user_session'. */
    var userSession: Option<SessionUser>

    /** Storage of a browser that has never run the application. */
    constructor ()
      ensures userDatabase == None && userSession == None
    {
      userDatabase, userSession := None, None;
    }

    /** `initializeDB`: seed the store only when no user list is stored. */
    method InitializeDB(adminTime: string, scientistTime: string)
      modifies this
      ensures old(userDatabase).None? ==> userDatabase == Some(SeedUsers(adminTime, scientistTime))
      ensures old(userDatabase).Some? ==> userDatabase == old(userDatabase)
      ensures userDatabase.Some?
      ensures userSession == old(userSession)
    {
      if userDatabase.None? {
        userDatabase := Some(SeedUsers(adminTime, scientistTime));
      }
    }

    /** `getAllUsers`: the stored list, or no users when nothing is stored. */
    function GetAllUsers(): (users: seq<User>)
      reads this
      ensures userDatabase.None? ==> users == []
      ensures userDatabase.Some? ==> users == userDatabase.value
    {
      userDatabase.GetOr([])
    }

    /** `saveUsers`: overwrite the stored list; reading it back gives `users`. */
    method SaveUsers(users: seq<User>)
      modifies this
      ensures userDatabase == Some(users)
      ensures GetAllUsers() == users
      ensures userSession == old(userSession)
    {
      userDatabase := Some(users);
    }

    /** `findUserByEmail` over the stored list. */
    function FindUserByEmail(email: string): (r: Option<User>)
      reads this
      ensures r.Some? ==> r.value in GetAllUsers() && r.value.email == email
      ensures r.None? <==> forall u :: u in GetAllUsers() ==> u.email != email
    {
      FindByEmail(GetAllUsers(), email)
    }

    /** `generateId` over the stored list: an id no stored user has. */
    function GenerateId(): (id: int)
      reads this
      ensures GetAllUsers() == [] ==> id == 1
      ensures GetAllUsers() != [] ==> id == MaxId(GetAllUsers()) + 1
      ensures forall u :: u in GetAllUsers() ==> u.id != id
    {
      NextId(GetAllUsers())
    }
  }
}
