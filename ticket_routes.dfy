/**
  The ticket router: the static table from endpoint path to the role its
  guard requires, and the order in which a guarded route runs the gate and
  then the handler.
*/
module TicketRoutes {
  import opened Wrappers
  import opened JsValues
  import opened Database
  import RoleMiddleware

  datatype Endpoint =
    | Create | GetTickets | AssignTicket | UpdateTicketStatus
    | UpdateTicket | DeleteTicket | AddTicketMessage | GetTicketMessage

  function Path(e: Endpoint): string
  {
    match e
    case Create => "/create"
    case GetTickets => "/get-tickets"
    case AssignTicket => "/assign-ticket"
    case UpdateTicketStatus => "/update-ticket-status"
    case UpdateTicket => "/update-ticket"
    case DeleteTicket => "/delete-ticket"
    case AddTicketMessage => "/add-ticket-message"
    case GetTicketMessage => "/get-ticket-message"
  }

  /** The endpoint registered under a path, if any. */
  function Lookup(path: string): (r: Option<Endpoint>)
    ensures r.Some? ==> Path(r.value) == path
  {
    if path == "/create" then Some(Create)
    else if path == "/get-tickets" then Some(GetTickets)
    else if path == "/assign-ticket" then Some(AssignTicket)
    else if path == "/update-ticket-status" then Some(UpdateTicketStatus)
    else if path == "/update-ticket" then Some(UpdateTicket)
    else if path == "/delete-ticket" then Some(DeleteTicket)
    else if path == "/add-ticket-message" then Some(AddTicketMessage)
    else if path == "/get-ticket-message" then Some(GetTicketMessage)
    else None
  }

  /** Every endpoint is reached by its own path. */
  lemma LookupPath(e: Endpoint)
    ensures Lookup(Path(e)) == Some(e)
  {
  }

  /** The role passed to `roleHandler` on each route, None for an unguarded one. */
  function RequiredRole(e: Endpoint): (r: Option<string>)
    ensures r == Some("ADMIN") <==> e in {AssignTicket, UpdateTicketStatus, UpdateTicket, DeleteTicket}
    ensures r == Some("AGENT") <==> e in {AddTicketMessage, GetTicketMessage}
    ensures r == None <==> e in {Create, GetTickets}
  {
    match e
    case Create => None
    case GetTickets => None
    case AssignTicket => Some("ADMIN")
    case UpdateTicketStatus => Some("ADMIN")
    case UpdateTicket => Some("ADMIN")
    case DeleteTicket => Some("ADMIN")
    case AddTicketMessage => Some("AGENT")
    case GetTicketMessage => Some("AGENT")
  }

  /** What the router does with a request: run the controller, or answer it
      from the gate. */
  datatype Dispatch = RunHandler | Rejected(status: int, message: string)

  /** A guarded route runs the gate first; the handler runs only when the
      gate calls `next()`. */
  function Route(e: Endpoint, userId: Value, body: Body,
                 tickets: seq<Ticket>, members: seq<Membership>, fault: bool): (r: Dispatch)
    ensures r == RunHandler <==>
      RequiredRole(e).None? || RoleMiddleware.RoleHandler(RequiredRole(e).value, userId, body, tickets, members, fault).Next?
    ensures r.Rejected? ==> RequiredRole(e).Some?
    ensures r.Rejected? ==>
      RoleMiddleware.RoleHandler(RequiredRole(e).value, userId, body, tickets, members, fault)
      == RoleMiddleware.Respond(r.status, r.message)
  {
    match RequiredRole(e)
    case None => RunHandler
    case Some(role) =>
      match RoleMiddleware.RoleHandler(role, userId, body, tickets, members, fault)
      case Next => RunHandler
      case Respond(status, message) => Rejected(status, message)
  }

  /** Unguarded routes reach their handler even without an authenticated user. */
  lemma UnguardedAlwaysRun(userId: Value, body: Body, tickets: seq<Ticket>, members: seq<Membership>, fault: bool)
    ensures Route(Create, userId, body, tickets, members, fault) == RunHandler
    ensures Route(GetTickets, userId, body, tickets, members, fault) == RunHandler
  {
  }

  /** A user whose only role is AGENT is refused with 403 on every ADMIN
      route for an existing ticket, delete-ticket included, whether the ids
      arrive as numbers or as text. */
  lemma AgentRefusedOnAdminRoutes(e: Endpoint, userId: Value, body: Body,
                                  tickets: seq<Ticket>, members: seq<Membership>, uid: int, tid: int)
    requires RequiredRole(e) == Some("ADMIN")
    requires Truthy(userId) && ParamAsInt(userId) == Some(uid)
    requires Truthy(Field(body, "ticket_id")) && ParamAsInt(Field(body, "ticket_id")) == Some(tid)
    requires exists t :: t in tickets && t.id == tid
    requires forall m :: m in members && m.userId == uid ==> m.role == Some("AGENT")
    ensures Route(e, userId, body, tickets, members, false).Rejected?
    ensures Route(e, userId, body, tickets, members, false).status == 403
  {
  }

  /** Symmetrically, a user whose only role is ADMIN is refused on the two
      message routes, which require AGENT. */
  lemma AdminRefusedOnAgentRoutes(e: Endpoint, userId: Value, body: Body,
                                  tickets: seq<Ticket>, members: seq<Membership>, uid: int, tid: int)
    requires RequiredRole(e) == Some("AGENT")
    requires Truthy(userId) && ParamAsInt(userId) == Some(uid)
    requires Truthy(Field(body, "ticket_id")) && ParamAsInt(Field(body, "ticket_id")) == Some(tid)
    requires exists t :: t in tickets && t.id == tid
    requires forall m :: m in members && m.userId == uid ==> m.role == Some("ADMIN")
    ensures Route(e, userId, body, tickets, members, false).Rejected?
    ensures Route(e, userId, body, tickets, members, false).status == 403
  {
  }
}
