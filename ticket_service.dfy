/**
  The ticket service: eight wrappers over the ticket and history models.
  Each returns the model's result when it is truthy and otherwise throws,
  logs and returns undefined. Every row and every array, the empty one
  included, is truthy, so only undefined from the model (or a throw) turns
  into undefined here.
*/
module TicketService {
  import opened Wrappers
  import opened Database
  import TicketModel
  import TicketHistoryModel

  /** What the service's `deleteTicket` hands back: the model function
      `deleteTicket` itself on success, undefined otherwise. */
  datatype DeleteReply = DeleteFunction | Undefined

  method CreateTicket(store: Store, title: string, description: string, orgId: int,
                      status: string, priority: string, fault: bool)
    returns (r: Option<Ticket>)
    requires store.Valid()
    modifies store`tickets, store`nextTicketId
    ensures store.Valid()
    ensures r.Some? <==> !fault
    ensures fault ==> store.tickets == old(store.tickets)
    ensures !fault ==> store.tickets == old(store.tickets) + [r.value]
    ensures !fault ==> r.value == Ticket(old(store.nextTicketId), title, description, orgId, status, priority, None, None)
  {
    var newTicket := TicketModel.CreateTicket(store, title, description, orgId, status, priority, fault);
    if newTicket.None? {
      return None;
    }
    r := newTicket;
  }

  /** An organization without tickets yields the empty list, not undefined. */
  function GetTickets(store: Store, orgId: int, fault: bool): (r: Option<seq<Ticket>>)
    reads store
    ensures r.Some? <==> !fault
    ensures r.Some? ==> forall t :: t in r.value <==> t in store.tickets && t.orgId == orgId
    ensures !fault && (forall t :: t in store.tickets ==> t.orgId != orgId) ==> r == Some([])
  {
    match TicketModel.GetTicketByOrg(store, orgId, fault)
    case None => None
    case Some(tickets) =>
      assert tickets != [] ==> tickets[0] in tickets;
      Some(tickets)
  }

  method AssignTicket(store: Store, id: int, createdBy: int, assignedTo: int, fault: bool)
    returns (r: Option<Ticket>)
    requires store.Valid()
    modifies store`tickets
    ensures store.Valid()
    ensures r.Some? <==> !fault && TicketModel.FindById(old(store.tickets), id).Some?
    ensures r.Some? ==> r.value == TicketModel.FindById(old(store.tickets), id).value.(createdBy := Some(createdBy), assignedTo := Some(assignedTo))
    ensures store.tickets == if fault then old(store.tickets)
                             else TicketModel.UpdateWhereId(old(store.tickets), id, TicketModel.SetAssignees(createdBy, assignedTo))
  {
    var assignedTicket := TicketModel.AssignTicket(store, id, createdBy, assignedTo, fault);
    if assignedTicket.None? {
      return None;
    }
    r := assignedTicket;
  }

  /** Only the status update: no history entry is appended. */
  method UpdateTicketStatus(store: Store, status: string, ticketId: int, fault: bool)
    returns (r: Option<Ticket>)
    requires store.Valid()
    modifies store`tickets
    ensures store.Valid()
    ensures store.history == old(store.history)
    ensures r.Some? <==> !fault && TicketModel.FindById(old(store.tickets), ticketId).Some?
    ensures r.Some? ==> r.value == TicketModel.FindById(old(store.tickets), ticketId).value.(status := status)
    ensures store.tickets == if fault then old(store.tickets)
                             else TicketModel.UpdateWhereId(old(store.tickets), ticketId, TicketModel.SetStatus(status))
  {
    var updatedTicket := TicketModel.UpdateTicketStatus(store, status, ticketId, fault);
    if updatedTicket.None? {
      return None;
    }
    r := updatedTicket;
  }

  method UpdateTicket(store: Store, title: string, description: string, ticketId: int, fault: bool)
    returns (r: Option<Ticket>)
    requires store.Valid()
    modifies store`tickets
    ensures store.Valid()
    ensures store.history == old(store.history)
    ensures r.Some? <==> !fault && TicketModel.FindById(old(store.tickets), ticketId).Some?
    ensures r.Some? ==> r.value == TicketModel.FindById(old(store.tickets), ticketId).value.(title := title, description := description)
    ensures store.tickets == if fault then old(store.tickets)
                             else TicketModel.UpdateWhereId(old(store.tickets), ticketId, TicketModel.SetContent(title, description))
  {
    var updatedTicket := TicketModel.UpdateTicket(store, title, description, ticketId, fault);
    if updatedTicket.None? {
      return None;
    }
    r := updatedTicket;
  }

  /** On success this returns the model function, not the deleted row; when
      the model throws (missing ticket or a database error) it returns
      undefined, and the transaction has left both tables unchanged. */
  method DeleteTicket(store: Store, ticketId: int, fault: Option<TicketModel.Step>) returns (r: DeleteReply)
    requires store.Valid()
    modifies store`tickets, store`history, store`clientsInUse
    ensures store.Valid()
    ensures store.clientsInUse == old(store.clientsInUse)
    ensures r == DeleteFunction <==> fault.None? && TicketModel.FindById(old(store.tickets), ticketId).Some?
    ensures store.tickets == if r == DeleteFunction then TicketModel.DeleteWhereId(old(store.tickets), ticketId)
                             else old(store.tickets)
    ensures store.history == if r == DeleteFunction then TicketModel.WithoutTicket(old(store.history), ticketId)
                             else old(store.history)
  {
    var deletedTicket := TicketModel.DeleteTicket(store, ticketId, fault);
    if deletedTicket.Failure? {
      // the model's throw is caught and logged
      return Undefined;
    }
    r := DeleteFunction;
  }

  /** Forwards (ticket_id, new_status, user_id) unchanged to the ledger. */
  method AddTicketMessage(store: Store, ticketId: int, newStatus: string, userId: int, fault: bool)
    returns (r: Option<HistoryEntry>)
    requires store.Valid()
    modifies store`history, store`nextHistoryId
    ensures store.Valid()
    ensures r.Some? <==> !fault
    ensures r.Some? ==> r.value.ticketId == ticketId && r.value.newStatus == newStatus && r.value.changedBy == userId
    ensures store.history == if fault then old(store.history) else old(store.history) + [r.value]
  {
    var newMessage := TicketHistoryModel.AddTicketHistory(store, ticketId, newStatus, userId, fault);
    if newMessage.None? {
      return None;
    }
    r := newMessage;
  }

  /** A ticket without history yields the empty list, not undefined. */
  function GetTicketMessage(store: Store, ticketId: int, fault: bool): (r: Option<seq<HistoryEntry>>)
    reads store
    ensures r.Some? <==> !fault
    ensures r.Some? ==> forall e :: e in r.value <==> e in store.history && e.ticketId == ticketId
    ensures !fault && (forall e :: e in store.history ==> e.ticketId != ticketId) ==> r == Some([])
  {
    match TicketHistoryModel.GetTicketHistory(store, ticketId, fault)
    case None => None
    case Some(messages) =>
      assert messages != [] ==> messages[0] in messages;
      Some(messages)
  }
}
