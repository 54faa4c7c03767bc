/**
 * The authentication provider (frontend/src/context/AuthContext.jsx):
 * signup, login, logout and the administrator's approve and reject, all
 * reading and writing the user list in the browser's storage.
 */
module AuthContext {
  import opened Wrappers
  import opened Seqs
  import JsText
  import opened MockDatabase

  /** The sign-up form's fields, as `signup` receives them. */
  datatype SignupData = SignupData(
    email: string,
    password: string,
    confirmPassword: string,
    role: string,
    name: string)

  /** What `signup` and `login` return. */
  datatype Response = Response(success: bool, message: string, user: Option<SessionUser>)

  const DuplicateEmail := "An account with this email already exists."
  const SignupApproved := "Signup successful! You can now log in."
  const SignupPending := "Signup successful! Your account is pending admin approval."
  const InvalidCredentials := "Invalid email or password."
  const PendingApproval := "Your account is still pending approval."
  const LoginSuccessful := "Login successful!"

  /** Only the plain `user` role is approved at once; every other role waits for an administrator. */
  function StatusFor(role: string): (status: string)
    ensures status == "approved" <==> role == "user"
    ensures status == "pending" <==> role != "user"
  {
    if role == "user" then "approved" else "pending"
  }

  /**
   * `userData.name || userData.email.split('@')[0]`: the given name, or else
   * the whole email when it has no '@', and otherwise the part before its first '@'.
   */
  function DefaultName(data: SignupData): (name: string)
    ensures data.name != "" ==> name == data.name
    ensures data.name == "" ==> name <= data.email && '@' !in name
    ensures data.name == "" && '@' !in data.email ==> name == data.email
    ensures data.name == "" && '@' in data.email ==>
      |name| < |data.email| && data.email[..|name| + 1] == name + "@"
  {
    JsText.SplitFirstIsPrefix(data.email, '@');
    if data.name != "" then data.name
    else
      var parts := JsText.Split(data.email, '@');
      if '@' !in data.email then
        JsText.SplitWithoutSep(data.email, '@');
        parts[0]
      else
        JsText.SplitFirstEndsAtSep(data.email, '@');
        parts[0]
  }


  /** The record `signup` appends for a fresh email: a new id, the status its role earns, and no other change to the form data. */
  function NewUser(users: seq<User>, data: SignupData, now: string): (u: User)
    ensures forall v :: v in users ==> v.id != u.id
    ensures u.status == "approved" || u.status == "pending"
    ensures u.email == data.email && u.password == data.password && u.role == data.role && u.createdAt == now
  {
    User(NextId(users), data.email, data.password, data.role, StatusFor(data.role), DefaultName(data), now)
  }

  /** The response of `signup` and the user list it leaves behind. */
  function SignupOutcome(users: seq<User>, data: SignupData, now: string): (r: (Response, seq<User>))
    ensures !r.0.success <==> exists u :: u in users && u.email == data.email
    ensures !r.0.success ==> r == (Response(false, DuplicateEmail, None), users)
    ensures r.0.success ==> r.0.user.None? && r.1 == users + [NewUser(users, data, now)]
    ensures r.0.success ==> (r.0.message == SignupApproved <==> data.role == "user")
    ensures r.0.success ==> (r.0.message == SignupPending <==> data.role != "user")
  {
    if FindByEmail(users, data.email).Some? then (Response(false, DuplicateEmail, None), users)
    else
      var status := StatusFor(data.role);
      (Response(true, if status == "approved" then SignupApproved else SignupPending, None),
       users + [NewUser(users, data, now)])
  }

  /** The response of `login`; nothing in the store changes. */
  function LoginOutcome(users: seq<User>, email: string, password: string): (r: Response)
    ensures r.success <==> r.user.Some?
    ensures r.success ==> r.message == LoginSuccessful
    ensures !r.success ==> r.message == InvalidCredentials || r.message == PendingApproval
  {
    var found := FindByEmail(users, email);
    if found.None? || found.value.password != password then Response(false, InvalidCredentials, None)
    else if found.value.status == "pending" then Response(false, PendingApproval, None)
    else Response(true, LoginSuccessful, Some(WithoutPassword(found.value)))
  }

  /** `users.map(...)` in `approveUser`: every user with the id becomes approved, nobody else changes. */
  function Approved(users: seq<User>, id: int): (r: seq<User>)
    ensures |r| == |users|
    ensures forall k :: 0 <= k < |users| && users[k].id != id ==> r[k] == users[k]
    ensures forall k :: 0 <= k < |users| && users[k].id == id ==> r[k] == users[k].(status := "approved")
  {
    seq(|users|, k requires 0 <= k < |users| => if users[k].id == id then users[k].(status := "approved") else users[k])
  }

  function HasOtherId(id: int): User -> bool {
    (u: User) => u.id != id
  }

  /** `users.filter(user => user.id !== userId)` in `rejectUser`. */
  function Rejected(users: seq<User>, id: int): (r: seq<User>)
    ensures forall u :: u in r <==> u in users && u.id != id
    ensures |r| <= |users|
  {
    Filter(users, HasOtherId(id))
  }

  /** Rejection keeps the order of the users that remain. */
  lemma RejectedKeepsOrder(a: seq<User>, b: seq<User>, id: int)
    ensures Rejected(a + b, id) == Rejected(a, id) + Rejected(b, id)
  {
    FilterConcat(a, b, HasOtherId(id));
  }

  // ------------------------------------------------- store invariant

  /** What the store keeps true: ids and emails are unique and every status is known. */
  ghost predicate StoreInvariant(users: seq<User>) {
    IdsUnique(users) && EmailsUnique(users) && StatusesKnown(users)
  }

  /** The seeded store satisfies the invariant. */
  lemma SeedKeepsInvariant(t1: string, t2: string)
    ensures StoreInvariant(SeedUsers(t1, t2))
  {
    SeedUsersFacts(t1, t2);
  }

  /** A successful signup appends a user whose id and email are new and whose status is known. */
  lemma SignupKeepsInvariant(users: seq<User>, data: SignupData, now: string)
    requires StoreInvariant(users)
    ensures StoreInvariant(SignupOutcome(users, data, now).1)
  {
    var r := SignupOutcome(users, data, now);
    if r.0.success {
      var u := NewUser(users, data, now);
      NextIdKeepsIdsUnique(users, u);
      var s := users + [u];
      forall i, j | 0 <= i < j < |s| ensures s[i].email != s[j].email {
        if j == |users| {
          assert s[i] in users;
        }
      }
      assert forall v :: v in s ==> v in users || v == u;
    }
  }

  /** Approving changes only statuses, to a known one. */
  lemma ApproveKeepsInvariant(users: seq<User>, id: int)
    requires StoreInvariant(users)
    ensures StoreInvariant(Approved(users, id))
  {
    var r := Approved(users, id);
    forall v | v in r ensures v.status == "pending" || v.status == "approved" {
      var k :| 0 <= k < |r| && r[k] == v;
      assert users[k] in users;
    }
  }

  /** Ids and emails stay unique in any filtered list. */
  lemma {:induction false} FilterKeepsUnique(users: seq<User>, keep: User -> bool)
    requires IdsUnique(users) && EmailsUnique(users)
    ensures IdsUnique(Filter(users, keep)) && EmailsUnique(Filter(users, keep))
    decreases |users|
  {
    if |users| > 0 {
      var rest := Filter(users[1..], keep);
      FilterKeepsUnique(users[1..], keep);
      if keep(users[0]) {
        var s := [users[0]] + rest;
        forall i, j | 0 <= i < j < |s| ensures s[i].id != s[j].id && s[i].email != s[j].email {
          if i == 0 {
            assert s[j] in users[1..];
            var m :| 0 <= m < |users[1..]| && users[1..][m] == s[j];
            assert users[m + 1] == s[j];
          }
        }
      }
    }
  }

  /** Rejecting removes users and keeps the invariant of the rest. */
  lemma RejectKeepsInvariant(users: seq<User>, id: int)
    requires StoreInvariant(users)
    ensures StoreInvariant(Rejected(users, id))
  {
    FilterKeepsUnique(users, HasOtherId(id));
  }

  // ------------------------------------------------- login facts

  /** Over unique emails, login succeeds exactly for the stored email and password of a user who is not pending. */
  lemma LoginSucceedsIff(users: seq<User>, email: string, password: string)
    requires EmailsUnique(users)
    ensures LoginOutcome(users, email, password).success <==>
      exists u :: u in users && u.email == email && u.password == password && u.status != "pending"
    ensures LoginOutcome(users, email, password).success ==>
      exists u :: u in users && u.email == email && LoginOutcome(users, email, password).user == Some(WithoutPassword(u))
  {
    if exists u :: u in users && u.email == email && u.password == password && u.status != "pending" {
      var u :| u in users && u.email == email && u.password == password && u.status != "pending";
      var k :| 0 <= k < |users| && users[k] == u;
      FindByEmailUnique(users, email, k);
    }
  }

  /** An unknown email and a wrong password get the same answer. */
  lemma UnknownEmailLikeWrongPassword(users: seq<User>, email: string, password: string, u: User)
    requires EmailsUnique(users)
    requires forall v :: v in users ==> v.email != email
    requires u in users && u.password != password
    ensures LoginOutcome(users, email, password) == LoginOutcome(users, u.email, password)
      == Response(false, InvalidCredentials, None)
  {
    var k :| 0 <= k < |users| && users[k] == u;
    FindByEmailUnique(users, u.email, k);
  }

  /** Right after signing up, logging in with the same email and password succeeds exactly for the `user` role. */
  lemma LoginAfterSignup(users: seq<User>, data: SignupData, now: string)
    requires forall u :: u in users ==> u.email != data.email
    ensures var after := SignupOutcome(users, data, now).1;
      && LoginOutcome(after, data.email, data.password).success <==> data.role == "user"
    ensures var after := SignupOutcome(users, data, now).1;
      data.role != "user" ==> LoginOutcome(after, data.email, data.password) == Response(false, PendingApproval, None)
  {
    FindAppended(users, NewUser(users, data, now));
  }

  /** Once an administrator approves the id of a pending user, that user can log in. */
  lemma LoginAfterApprove(users: seq<User>, k: nat, password: string)
    requires EmailsUnique(users)
    requires k < |users| && users[k].password == password
    ensures LoginOutcome(Approved(users, users[k].id), users[k].email, password)
      == Response(true, LoginSuccessful, Some(WithoutPassword(users[k].(status := "approved"))))
  {
    var r := Approved(users, users[k].id);
    assert EmailsUnique(r) by {
      forall i, j | 0 <= i < j < |r| ensures r[i].email != r[j].email {
        assert r[i].email == users[i].email && r[j].email == users[j].email;
      }
    }
    FindByEmailUnique(r, users[k].email, k);
  }

  // ------------------------------------------------- the provider

  /** The provider's state: the current user, over the browser's storage. */
  class AuthProvider {
    const storage: LocalStorage
    var currentUser: Option<SessionUser>
    var loading: bool

    /** The provider once its mount effect has run: a stored session is restored. */
    constructor (storage: LocalStorage)
      ensures this.storage == storage
      ensures currentUser == storage.userSession && !loading
    {
      this.storage := storage;
      currentUser := storage.userSession;
      loading := false;
    }

    /** `signup`: a duplicate email changes nothing; otherwise one user is appended and saved. */
    method Signup(data: SignupData, now: string) returns (result: Response)
      modifies storage
      ensures var outcome := SignupOutcome(old(storage.GetAllUsers()), data, now);
        && result == outcome.0
        && (result.success ==> storage.userDatabase == Some(outcome.1))
        && (!result.success ==> storage.userDatabase == old(storage.userDatabase))
      ensures storage.userSession == old(storage.userSession)
    {
      var users := storage.GetAllUsers();
      var userExists := FindByEmail(users, data.email);
      if userExists.Some? {
        return Response(false, DuplicateEmail, None);
      }
      var status := StatusFor(data.role);
      var newUser := User(storage.GenerateId(), data.email, data.password, data.role, status, DefaultName(data), now);
      users := users + [newUser];
      storage.SaveUsers(users);
      result := Response(true, if status == "approved" then SignupApproved else SignupPending, None);
    }

    /** `login`: on success the session holds the user without the password; otherwise nothing changes. */
    method Login(email: string, password: string) returns (result: Response)
      modifies this, storage
      ensures result == LoginOutcome(old(storage.GetAllUsers()), email, password)
      ensures result.success ==> currentUser == result.user && storage.userSession == result.user
      ensures !result.success ==> currentUser == old(currentUser) && storage.userSession == old(storage.userSession)
      ensures storage.userDatabase == old(storage.userDatabase) && loading == old(loading)
    {
      var users := storage.GetAllUsers();
      var foundUser := FindByEmail(users, email);
      if foundUser.None? || foundUser.value.password != password {
        return Response(false, InvalidCredentials, None);
      }
      if foundUser.value.status == "pending" {
        return Response(false, PendingApproval, None);
      }
      var userSession := WithoutPassword(foundUser.value);
      currentUser := Some(userSession);
      storage.userSession := Some(userSession);
      result := Response(true, LoginSuccessful, Some(userSession));
    }

    /** `logout`: no current user and no stored session. */
    method Logout()
      modifies this, storage
      ensures currentUser == None && storage.userSession == None
      ensures storage.userDatabase == old(storage.userDatabase) && loading == old(loading)
    {
      currentUser := None;
      storage.userSession := None;
    }

    /** `approveUser`: the approved list is saved and returned. */
    method ApproveUser(userId: int) returns (updatedUsers: seq<User>)
      modifies storage
      ensures updatedUsers == Approved(old(storage.GetAllUsers()), userId)
      ensures storage.userDatabase == Some(updatedUsers) && storage.userSession == old(storage.userSession)
    {
      var users := storage.GetAllUsers();
      updatedUsers := Approved(users, userId);
      storage.SaveUsers(updatedUsers);
    }

    /** `rejectUser`: the list without that id is saved and returned. */
    method RejectUser(userId: int) returns (updatedUsers: seq<User>)
      modifies storage
      ensures updatedUsers == Rejected(old(storage.GetAllUsers()), userId)
      ensures storage.userDatabase == Some(updatedUsers) && storage.userSession == old(storage.userSession)
    {
      var users := storage.GetAllUsers();
      updatedUsers := Rejected(users, userId);
      storage.SaveUsers(updatedUsers);
    }
  }
}
