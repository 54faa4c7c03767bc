/**
 * The administrator's dashboard (frontend/src/pages/AdminDashboard.jsx):
 * the users split by status, and the counts shown as statistics.
 */
module AdminDashboard {
  import opened Seqs
  import opened MockDatabase
  import opened AuthContext

  function HasStatus(status: string): User -> bool {
    (u: User) => u.status == status
  }

  function HasRole(role: string): User -> bool {
    (u: User) => u.role == role
  }

  /** `users.filter(user => user.status === 'pending')`. */
  function PendingUsers(users: seq<User>): (r: seq<User>)
    ensures forall u :: u in r <==> u in users && u.status == "pending"
  {
    Filter(users, HasStatus("pending"))
  }

  /** `users.filter(user => user.status === 'approved')`. */
  function ApprovedUsers(users: seq<User>): (r: seq<User>)
    ensures forall u :: u in r <==> u in users && u.status == "approved"
  {
    Filter(users, HasStatus("approved"))
  }

  /** The pending list keeps store order: pending users of an earlier part of the store come first. */
  lemma PendingKeepsOrder(a: seq<User>, b: seq<User>)
    ensures PendingUsers(a + b) == PendingUsers(a) + PendingUsers(b)
  {
    FilterConcat(a, b, HasStatus("pending"));
  }

  /** The approved list keeps store order too. */
  lemma ApprovedKeepsOrder(a: seq<User>, b: seq<User>)
    ensures ApprovedUsers(a + b) == ApprovedUsers(a) + ApprovedUsers(b)
  {
    FilterConcat(a, b, HasStatus("approved"));
  }

  datatype UserCounts = UserCounts(total: nat, pending: nat, approved: nat, admins: nat, scientists: nat, regularUsers: nat)

  /**
   * `userCounts`. The role counts cover approved users only, so together
   * they never exceed the approved count, and the two status counts never
   * exceed the total.
   */
  function CountUsers(users: seq<User>): (c: UserCounts)
    ensures c.total == |users| && c.pending == |PendingUsers(users)| && c.approved == |ApprovedUsers(users)|
    ensures c.admins == Count(ApprovedUsers(users), HasRole("admin"))
    ensures c.scientists == Count(ApprovedUsers(users), HasRole("scientist"))
    ensures c.regularUsers == Count(ApprovedUsers(users), HasRole("user"))
    ensures c.admins + c.scientists + c.regularUsers <= c.approved
    ensures c.pending + c.approved <= c.total
  {
    var approved := ApprovedUsers(users);
    CountDisjoint3(approved, HasRole("admin"), HasRole("scientist"), HasRole("user"));
    CountDisjoint(users, HasStatus("pending"), HasStatus("approved"));
    UserCounts(|users|, |PendingUsers(users)|, |approved|,
               Count(approved, HasRole("admin")), Count(approved, HasRole("scientist")),
               Count(approved, HasRole("user")))
  }

  /** In a store whose statuses are all known, every user is either pending or approved. */
  lemma StatusesPartition(users: seq<User>)
    requires StatusesKnown(users)
    ensures CountUsers(users).pending + CountUsers(users).approved == CountUsers(users).total
  {
    CountComplement(users, HasStatus("pending"), HasStatus("approved"));
  }

  /** Approving an id takes exactly the users with that id off the pending list, keeping the others in order. */
  lemma {:induction false} ApproveLeavesPending(users: seq<User>, id: int)
    ensures PendingUsers(Approved(users, id)) == Filter(PendingUsers(users), HasOtherId(id))
    decreases |users|
  {
    if |users| > 0 {
      var a := Approved(users, id);
      assert a[1..] == Approved(users[1..], id);
      ApproveLeavesPending(users[1..], id);
      var head := if users[0].status == "pending" then [users[0]] else [];
      FilterConcat(head, PendingUsers(users[1..]), HasOtherId(id));
    }
  }

  /** Rejecting an id takes exactly the users with that id off the pending list, keeping the others in order. */
  lemma RejectLeavesPending(users: seq<User>, id: int)
    ensures PendingUsers(Rejected(users, id)) == Filter(PendingUsers(users), HasOtherId(id))
  {
    FilterCommute(users, HasOtherId(id), HasStatus("pending"));
  }
}
