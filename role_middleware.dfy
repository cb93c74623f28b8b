/**
  The role gate placed in front of guarded ticket endpoints: it resolves the
  ticket's owning organization, then the acting user's membership role in
  that organization, and lets the request through only on an exact match
  with the role the endpoint requires. It reads the tables and writes none.
*/
module RoleMiddleware {
  import opened Wrappers
  import opened JsValues
  import opened Database
  import TicketModel
  import MembershipModel

  /** Either hand the request to the next handler, or answer it. */
  datatype Decision = Next | Respond(status: int, message: string)

  /** `rows[0]` of `select role from membership where user_id = $1 and org_id = $2`,
      taking the table order for the order the query leaves open. */
  function MembershipOf(rows: seq<Membership>, userId: int, orgId: int): (r: Option<Membership>)
    ensures r.Some? ==> r.value in rows && r.value.userId == userId && r.value.orgId == orgId
    ensures r.None? <==> forall m :: m in rows ==> !(m.userId == userId && m.orgId == orgId)
  {
    if rows == [] then None
    else if rows[0].userId == userId && rows[0].orgId == orgId then Some(rows[0])
    else MembershipOf(rows[1..], userId, orgId)
  }

  /** The user holds exactly `role` in the organization owning ticket `ticketId`. */
  ghost predicate HoldsRoleFor(role: string, userId: int, ticketId: int, tickets: seq<Ticket>, members: seq<Membership>)
  {
    exists t, m :: t in tickets && m in members && t.id == ticketId
                   && m.userId == userId && m.orgId == t.orgId && m.role == Some(role)
  }

  /** `roleHandler(role)` applied to a request whose authenticated user id is
      `userId` (undefined when no user is attached) and whose body is `body`.
      `fault` stands for either lookup query failing in the database. */
  function RoleHandler(role: string, userId: Value, body: Body,
                       tickets: seq<Ticket>, members: seq<Membership>, fault: bool): (d: Decision)
    ensures d.Next? || d.status == 401 || d.status == 403 || d.status == 500
    ensures !Truthy(userId) || !Truthy(Field(body, "ticket_id")) <==> d.Respond? && d.status == 401
    ensures d.Next? ==> && Truthy(userId) && Truthy(Field(body, "ticket_id")) && !fault
                        && ParamAsInt(userId).Some? && ParamAsInt(Field(body, "ticket_id")).Some?
                        && HoldsRoleFor(role, ParamAsInt(userId).value, ParamAsInt(Field(body, "ticket_id")).value, tickets, members)
    ensures Truthy(userId) && Truthy(Field(body, "ticket_id")) && fault ==> d == Respond(500, "Internal Server Error")
  {
    var ticketId := Field(body, "ticket_id");
    if !Truthy(userId) || !Truthy(ticketId) then Respond(401, "Forbidden")
    else if fault then Respond(500, "Internal Server Error")
    else match ParamAsInt(ticketId)
      case None => Respond(500, "Internal Server Error")
      case Some(tid) =>
        match TicketModel.FindById(tickets, tid)
        // `ticketResult.rows[0].org_id` on an empty result throws
        case None => Respond(500, "Internal Server Error")
        case Some(t) =>
          match ParamAsInt(userId)
          case None => Respond(500, "Internal Server Error")
          case Some(uid) =>
            match MembershipOf(members, uid, t.orgId)
            case None => Respond(403, "Forbidden1")
            case Some(m) => if m.role != Some(role) then Respond(403, "Forbidden2") else Next
  }

  /** A ticket id that reads as no integer, or names no ticket, is answered
      with 500: the conversion or `rows[0].org_id` throws. */
  lemma MissingTicketIs500(role: string, userId: Value, body: Body,
                           tickets: seq<Ticket>, members: seq<Membership>)
    requires Truthy(userId) && Truthy(Field(body, "ticket_id"))
    requires || ParamAsInt(Field(body, "ticket_id")).None?
             || TicketModel.FindById(tickets, ParamAsInt(Field(body, "ticket_id")).value).None?
    ensures RoleHandler(role, userId, body, tickets, members, false) == Respond(500, "Internal Server Error")
  {
  }

  /** With no membership in the ticket's organization the answer is 403
      "Forbidden1". */
  lemma NoMembershipIs403(role: string, userId: Value, body: Body,
                          tickets: seq<Ticket>, members: seq<Membership>, uid: int, tid: int, t: Ticket)
    requires Truthy(userId) && ParamAsInt(userId) == Some(uid)
    requires Truthy(Field(body, "ticket_id")) && ParamAsInt(Field(body, "ticket_id")) == Some(tid)
    requires TicketModel.FindById(tickets, tid) == Some(t)
    requires MembershipOf(members, uid, t.orgId).None?
    ensures RoleHandler(role, userId, body, tickets, members, false) == Respond(403, "Forbidden1")
  {
  }

  /** The comparison is exact: when the user's membership row in the ticket's
      organization carries any other role, the answer is 403 "Forbidden2",
      whatever rows other users or other organizations hold. In particular
      ADMIN does not satisfy an AGENT guard. */
  lemma OnlyExactRolePasses(role: string, userId: Value, body: Body,
                            tickets: seq<Ticket>, members: seq<Membership>, uid: int, tid: int, t: Ticket, m: Membership)
    requires Truthy(userId) && ParamAsInt(userId) == Some(uid)
    requires Truthy(Field(body, "ticket_id")) && ParamAsInt(Field(body, "ticket_id")) == Some(tid)
    requires TicketModel.FindById(tickets, tid) == Some(t)
    requires MembershipOf(members, uid, t.orgId) == Some(m)
    requires m.role != Some(role)
    ensures RoleHandler(role, userId, body, tickets, members, false) == Respond(403, "Forbidden2")
  {
  }

  /** The converse: when the user's membership row in the ticket's
      organization carries the required role, the request passes. */
  lemma SoleRolePasses(role: string, userId: Value, body: Body,
                       tickets: seq<Ticket>, members: seq<Membership>, uid: int, tid: int, t: Ticket, m: Membership)
    requires Truthy(userId) && ParamAsInt(userId) == Some(uid)
    requires Truthy(Field(body, "ticket_id")) && ParamAsInt(Field(body, "ticket_id")) == Some(tid)
    requires TicketModel.FindById(tickets, tid) == Some(t)
    requires MembershipOf(members, uid, t.orgId) == Some(m)
    requires m.role == Some(role)
    ensures RoleHandler(role, userId, body, tickets, members, false) == Next
  {
  }

  /** Because the role update does not filter on the organization, giving a
      user ADMIN through it opens the ADMIN guard on the tickets of every
      organization the user belongs to, not just one. */
  lemma {:induction false} RoleChangeReachesEveryOrg(userId: Value, body: Body, tickets: seq<Ticket>,
                                                     members: seq<Membership>, uid: int, tid: int, t: Ticket)
    requires Truthy(userId) && ParamAsInt(userId) == Some(uid)
    requires Truthy(Field(body, "ticket_id")) && ParamAsInt(Field(body, "ticket_id")) == Some(tid)
    requires TicketModel.FindById(tickets, tid) == Some(t)
    requires exists m :: m in members && m.userId == uid && m.orgId == t.orgId
    ensures RoleHandler("ADMIN", userId, body, tickets, MembershipModel.SetRoleOfUser(members, uid, "ADMIN"), false) == Next
  {
    var after := MembershipModel.SetRoleOfUser(members, uid, "ADMIN");
    var m :| m in members && m.userId == uid && m.orgId == t.orgId;
    var k :| 0 <= k < |members| && members[k] == m;
    assert after[k] in after && after[k].userId == uid && after[k].orgId == t.orgId;
    var n := MembershipOf(after, uid, t.orgId).value;
    var j :| 0 <= j < |after| && after[j] == n;
    SoleRolePasses("ADMIN", userId, body, tickets, after, uid, tid, t, n);
  }
}
