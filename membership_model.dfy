/**
  The membership table: (user, organization, role) rows, with no duplicate
  check on insertion and a role update that does not filter on the
  organization.
*/
module MembershipModel {
  import opened Wrappers
  import opened Database

  /** The `{ role }` row that `getUserRole` returns. */
  datatype RoleRow = RoleRow(role: Option<string>)

  /** `rows[0]` of `select ... from membership where user_id = $1`, taking
      the table order for the order the query leaves open. */
  function FirstOfUser(rows: seq<Membership>, userId: int): (r: Option<Membership>)
    ensures r.Some? ==> r.value in rows && r.value.userId == userId
    ensures r.None? <==> forall m :: m in rows ==> m.userId != userId
  {
    if rows == [] then None
    else if rows[0].userId == userId then Some(rows[0])
    else FirstOfUser(rows[1..], userId)
  }

  /** The row picked is the earliest row of that user, whatever its
      organization. */
  lemma {:induction false} FirstOfUserIsEarliest(rows: seq<Membership>, userId: int, i: int)
    requires 0 <= i < |rows| && rows[i].userId == userId
    requires forall j :: 0 <= j < i ==> rows[j].userId != userId
    ensures FirstOfUser(rows, userId) == Some(rows[i])
  {
    if i > 0 {
      FirstOfUserIsEarliest(rows[1..], userId, i - 1);
    }
  }

  /** The `org_id` column of `select org_id from membership where user_id = $1`. */
  function OrgsOfUser(rows: seq<Membership>, userId: int): (r: seq<int>)
    ensures forall m :: m in rows && m.userId == userId ==> m.orgId in r
    ensures forall o :: o in r ==> exists m :: m in rows && m.userId == userId && m.orgId == o
    ensures |r| <= |rows|
  {
    if rows == [] then []
    else if rows[0].userId == userId then [rows[0].orgId] + OrgsOfUser(rows[1..], userId)
    else OrgsOfUser(rows[1..], userId)
  }

  /** `update membership set role = $1 where user_id = $2`. */
  function SetRoleOfUser(rows: seq<Membership>, userId: int, role: string): (r: seq<Membership>)
    ensures |r| == |rows|
    ensures forall i :: 0 <= i < |rows| ==>
      r[i] == if rows[i].userId == userId then rows[i].(role := Some(role)) else rows[i]
  {
    if rows == [] then []
    else [if rows[0].userId == userId then rows[0].(role := Some(role)) else rows[0]]
         + SetRoleOfUser(rows[1..], userId, role)
  }

  /** `addMember(user_id, org_id)`: insert one row with the given user and
      organization; the role is whatever the column default supplies, given
      here as `roleDefault`. No duplicate check is made. */
  method AddMember(store: Store, userId: int, orgId: int, roleDefault: Option<string>, fault: bool)
    returns (r: Option<Membership>)
    modifies store`memberships
    ensures r.Some? <==> !fault
    ensures fault ==> store.memberships == old(store.memberships)
    ensures !fault ==> r.value == Membership(userId, orgId, roleDefault)
    ensures !fault ==> store.memberships == old(store.memberships) + [r.value]
  {
    if fault {
      return None;
    }
    var m := Membership(userId, orgId, roleDefault);
    store.memberships := store.memberships + [m];
    r := Some(m);
  }

  /** `getUserRole(user_id)`: the role of the user's earliest membership in
      any organization, or undefined when the user has none or the query
      fails. */
  function GetUserRole(store: Store, userId: int, fault: bool): (r: Option<RoleRow>)
    reads store
    ensures fault ==> r.None?
    ensures r.Some? ==> exists m :: m in store.memberships && m.userId == userId && m.role == r.value.role
    ensures !fault && r.None? ==> forall m :: m in store.memberships ==> m.userId != userId
  {
    if fault then None
    else match FirstOfUser(store.memberships, userId)
      case None => None
      case Some(m) => Some(RoleRow(m.role))
  }

  /** `updateUserRole(role, user_id)`: every row of the user, in every
      organization, gets the new role; the statement has no RETURNING
      clause, so the caller always receives undefined. */
  method UpdateUserRole(store: Store, role: string, userId: int, fault: bool)
    returns (r: Option<Membership>)
    modifies store`memberships
    ensures r.None?
    ensures store.memberships == if fault then old(store.memberships)
                                 else SetRoleOfUser(old(store.memberships), userId, role)
    ensures !fault ==> forall m :: m in store.memberships && m.userId == userId ==> m.role == Some(role)
  {
    if !fault {
      store.memberships := SetRoleOfUser(store.memberships, userId, role);
    }
    r := None;
  }

  /** `getUserOrgs(user_id)`: the organization of every membership row of
      the user, possibly none; a failing query yields undefined. */
  function GetUserOrgs(store: Store, userId: int, fault: bool): (r: Option<seq<int>>)
    reads store
    ensures r.Some? <==> !fault
    ensures r.Some? ==> forall o :: o in r.value <==>
      exists m :: m in store.memberships && m.userId == userId && m.orgId == o
  {
    if fault then None else Some(OrgsOfUser(store.memberships, userId))
  }

  /** Adding a member and then changing that user's role makes the role
      lookup return the new role: the last write wins. */
  lemma LastRoleWins(rows: seq<Membership>, userId: int, orgId: int, roleDefault: Option<string>, role: string)
    ensures var after := SetRoleOfUser(rows + [Membership(userId, orgId, roleDefault)], userId, role);
            FirstOfUser(after, userId).Some? && FirstOfUser(after, userId).value.role == Some(role)
  {
    var added := rows + [Membership(userId, orgId, roleDefault)];
    var after := SetRoleOfUser(added, userId, role);
    assert after[|rows|].userId == userId;
    var m := FirstOfUser(after, userId).value;
    var k :| 0 <= k < |after| && after[k] == m;
  }
}
