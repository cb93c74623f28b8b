/**
  The tickets table: insertion, the two reads, the three single-statement
  updates, and the transactional delete that also clears the ticket's
  history.
*/
module TicketModel {
  import opened Wrappers
  import opened Database
  import TicketHistoryModel

  /** The SET clause of each UPDATE statement on `tickets`. No clause names
      `id`, `org_id` or `priority`. */
  datatype SetClause =
    | SetAssignees(createdBy: int, assignedTo: int)
    | SetStatus(status: string)
    | SetContent(title: string, description: string)

  function Apply(c: SetClause, t: Ticket): Ticket
  {
    match c
    case SetAssignees(creator, assignee) => t.(createdBy := Some(creator), assignedTo := Some(assignee))
    case SetStatus(s) => t.(status := s)
    case SetContent(title, description) => t.(title := title, description := description)
  }

  /** The columns a clause writes are the ones it names; every other column,
      `org_id` among them, keeps its value. */
  lemma ApplyWritesOnlyNamedColumns(c: SetClause, t: Ticket)
    ensures Apply(c, t).id == t.id && Apply(c, t).orgId == t.orgId && Apply(c, t).priority == t.priority
    ensures !c.SetAssignees? ==> Apply(c, t).createdBy == t.createdBy && Apply(c, t).assignedTo == t.assignedTo
    ensures !c.SetStatus? ==> Apply(c, t).status == t.status
    ensures !c.SetContent? ==> Apply(c, t).title == t.title && Apply(c, t).description == t.description
  {
  }

  /** The first row with the given id (`rows[0]` of a select by id). */
  function FindById(rows: seq<Ticket>, id: int): (r: Option<Ticket>)
    ensures r.Some? ==> r.value in rows && r.value.id == id
    ensures r.None? <==> forall t :: t in rows ==> t.id != id
  {
    if rows == [] then None
    else if rows[0].id == id then Some(rows[0])
    else FindById(rows[1..], id)
  }

  /** `select * from tickets where org_id = $1`, in table order. */
  function OfOrg(rows: seq<Ticket>, orgId: int): (r: seq<Ticket>)
    ensures forall t :: t in r <==> t in rows && t.orgId == orgId
    ensures |r| <= |rows|
  {
    if rows == [] then []
    else if rows[0].orgId == orgId then [rows[0]] + OfOrg(rows[1..], orgId)
    else OfOrg(rows[1..], orgId)
  }

  /** `update tickets set <c> where id = $id`. */
  function UpdateWhereId(rows: seq<Ticket>, id: int, c: SetClause): (r: seq<Ticket>)
    ensures |r| == |rows|
    ensures forall i :: 0 <= i < |rows| ==> r[i] == if rows[i].id == id then Apply(c, rows[i]) else rows[i]
  {
    if rows == [] then []
    else [if rows[0].id == id then Apply(c, rows[0]) else rows[0]] + UpdateWhereId(rows[1..], id, c)
  }

  /** `delete from tickets where id = $1`, keeping the order of the rest. */
  function DeleteWhereId(rows: seq<Ticket>, id: int): (r: seq<Ticket>)
    ensures forall t :: t in r <==> t in rows && t.id != id
    ensures |r| <= |rows|
  {
    if rows == [] then []
    else if rows[0].id == id then DeleteWhereId(rows[1..], id)
    else [rows[0]] + DeleteWhereId(rows[1..], id)
  }

  /** `delete from ticket_history where ticket_id = $1`. */
  function WithoutTicket(rows: seq<HistoryEntry>, ticketId: int): (r: seq<HistoryEntry>)
    ensures forall e :: e in r <==> e in rows && e.ticketId != ticketId
    ensures |r| <= |rows|
  {
    if rows == [] then []
    else if rows[0].ticketId == ticketId then WithoutTicket(rows[1..], ticketId)
    else [rows[0]] + WithoutTicket(rows[1..], ticketId)
  }

  /** No UPDATE statement of this file writes `org_id`: every row keeps
      its id and its owning organization. */
  lemma UpdateKeepsKeysAndOrgs(rows: seq<Ticket>, id: int, c: SetClause)
    ensures forall i :: 0 <= i < |rows| ==>
      UpdateWhereId(rows, id, c)[i].id == rows[i].id && UpdateWhereId(rows, id, c)[i].orgId == rows[i].orgId
  {
    forall i | 0 <= i < |rows|
      ensures UpdateWhereId(rows, id, c)[i].id == rows[i].id && UpdateWhereId(rows, id, c)[i].orgId == rows[i].orgId
    {
      ApplyWritesOnlyNamedColumns(c, rows[i]);
    }
  }

  /** With ids a key, the row an UPDATE returns is the old row with the
      clause applied, and undefined when no row has the id. */
  lemma {:induction false} FindAfterUpdate(rows: seq<Ticket>, id: int, c: SetClause)
    ensures FindById(UpdateWhereId(rows, id, c), id)
         == if FindById(rows, id).Some? then Some(Apply(c, FindById(rows, id).value)) else None
  {
    if rows != [] {
      ApplyWritesOnlyNamedColumns(c, rows[0]);
      var r := UpdateWhereId(rows, id, c);
      assert r[1..] == UpdateWhereId(rows[1..], id, c);
      if rows[0].id != id {
        FindAfterUpdate(rows[1..], id, c);
      }
    }
  }

  /** An inserted row with a fresh id is found by that id. */
  lemma {:induction false} FindAfterInsert(rows: seq<Ticket>, t: Ticket)
    requires forall u :: u in rows ==> u.id != t.id
    ensures FindById(rows + [t], t.id) == Some(t)
  {
    if rows == [] {
      assert rows + [t] == [t];
    } else {
      assert (rows + [t])[1..] == rows[1..] + [t];
      FindAfterInsert(rows[1..], t);
    }
  }

  /** Filtering rows out of a keyed table leaves it keyed. */
  lemma {:induction false} DeleteKeepsKeys(rows: seq<Ticket>, id: int, next: int)
    requires Keyed(rows, TicketId, next)
    ensures Keyed(DeleteWhereId(rows, id), TicketId, next)
  {
    if rows != [] {
      var tail := rows[1..];
      assert Keyed(tail, TicketId, next);
      DeleteKeepsKeys(tail, id, next);
      if rows[0].id != id {
        var rest := DeleteWhereId(tail, id);
        assert forall u :: u in tail ==> u.id != rows[0].id by {
          forall u | u in tail ensures u.id != rows[0].id {
            var k :| 0 <= k < |tail| && tail[k] == u;
            assert rows[k + 1] == u;
          }
        }
        PrependKeyed(rows[0], rest, TicketId, next);
      }
    }
  }

  /** Filtering entries out of the history leaves its ids a key. */
  lemma {:induction false} WithoutTicketKeepsKeys(rows: seq<HistoryEntry>, ticketId: int, next: int)
    requires Keyed(rows, HistoryId, next)
    ensures Keyed(WithoutTicket(rows, ticketId), HistoryId, next)
  {
    if rows != [] {
      var tail := rows[1..];
      assert Keyed(tail, HistoryId, next);
      WithoutTicketKeepsKeys(tail, ticketId, next);
      if rows[0].ticketId != ticketId {
        var rest := WithoutTicket(tail, ticketId);
        assert forall u :: u in tail ==> u.id != rows[0].id by {
          forall u | u in tail ensures u.id != rows[0].id {
            var k :| 0 <= k < |tail| && tail[k] == u;
            assert rows[k + 1] == u;
          }
        }
        PrependKeyed(rows[0], rest, HistoryId, next);
      }
    }
  }

  /** After the cascade no history entry of the deleted ticket is left, and
      the history of every other ticket is exactly what it was. */
  lemma {:induction false} CascadeLeavesNoOrphans(rows: seq<HistoryEntry>, ticketId: int, other: int)
    ensures TicketHistoryModel.ForTicket(WithoutTicket(rows, ticketId), ticketId) == []
    ensures other != ticketId ==>
      TicketHistoryModel.ForTicket(WithoutTicket(rows, ticketId), other) == TicketHistoryModel.ForTicket(rows, other)
  {
    if rows != [] {
      CascadeLeavesNoOrphans(rows[1..], ticketId, other);
      if rows[0].ticketId != ticketId {
        var r := WithoutTicket(rows, ticketId);
        assert r[0] == rows[0] && r[1..] == WithoutTicket(rows[1..], ticketId);
      }
    }
  }

  /** `createTicket(title, description, org_id, status, priority)`: insert
      one row with a fresh id, the five given columns and no assignee, and
      return it; a failing insert is swallowed and yields undefined. */
  method CreateTicket(store: Store, title: string, description: string, orgId: int,
                      status: string, priority: string, fault: bool)
    returns (r: Option<Ticket>)
    requires store.Valid()
    modifies store`tickets, store`nextTicketId
    ensures store.Valid()
    ensures r.Some? <==> !fault
    ensures fault ==> store.tickets == old(store.tickets) && store.nextTicketId == old(store.nextTicketId)
    ensures !fault ==> r.value == Ticket(old(store.nextTicketId), title, description, orgId, status, priority, None, None)
    ensures !fault ==> store.tickets == old(store.tickets) + [r.value]
    ensures !fault ==> FindById(store.tickets, r.value.id) == r
  {
    if fault {
      return None;
    }
    var t := Ticket(store.nextTicketId, title, description, orgId, status, priority, None, None);
    FindAfterInsert(store.tickets, t);
    store.tickets := store.tickets + [t];
    store.nextTicketId := store.nextTicketId + 1;
    r := Some(t);
  }

  /** `getTicketByOrg(org_id)`: exactly the tickets of that organization,
      possibly none; a failing query yields undefined. */
  function GetTicketByOrg(store: Store, orgId: int, fault: bool): (r: Option<seq<Ticket>>)
    reads store
    ensures r.Some? <==> !fault
    ensures r.Some? ==> forall t :: t in r.value <==> t in store.tickets && t.orgId == orgId
  {
    if fault then None else Some(OfOrg(store.tickets, orgId))
  }

  /** `getTicketById(id)`: the row with that id, or undefined when there is
      none or the query fails. */
  function GetTicketById(store: Store, id: int, fault: bool): (r: Option<Ticket>)
    reads store
    ensures fault ==> r.None?
    ensures r.Some? ==> r.value in store.tickets && r.value.id == id
    ensures !fault && r.None? ==> forall t :: t in store.tickets ==> t.id != id
  {
    if fault then None else FindById(store.tickets, id)
  }

  /** The shared shape of the three UPDATE ... RETURNING * statements. */
  method UpdateRow(store: Store, id: int, c: SetClause, fault: bool) returns (r: Option<Ticket>)
    requires store.Valid()
    modifies store`tickets
    ensures store.Valid()
    ensures store.tickets == if fault then old(store.tickets) else UpdateWhereId(old(store.tickets), id, c)
    ensures r == if fault || FindById(old(store.tickets), id).None? then None
                 else Some(Apply(c, FindById(old(store.tickets), id).value))
    ensures forall i :: 0 <= i < |store.tickets| ==> store.tickets[i].orgId == old(store.tickets)[i].orgId
  {
    UpdateKeepsKeysAndOrgs(store.tickets, id, c);
    if fault {
      return None;
    }
    FindAfterUpdate(store.tickets, id, c);
    store.tickets := UpdateWhereId(store.tickets, id, c);
    r := FindById(store.tickets, id);
  }

  /** `assignTicket(id, created_by, assigned_to)`: only `created_by` and
      `assigned_to` of that row change. */
  method AssignTicket(store: Store, id: int, createdBy: int, assignedTo: int, fault: bool)
    returns (r: Option<Ticket>)
    requires store.Valid()
    modifies store`tickets
    ensures store.Valid()
    ensures store.tickets == if fault then old(store.tickets)
                             else UpdateWhereId(old(store.tickets), id, SetAssignees(createdBy, assignedTo))
    ensures r.Some? <==> !fault && FindById(old(store.tickets), id).Some?
    ensures r.Some? ==> r.value == FindById(old(store.tickets), id).value.(createdBy := Some(createdBy), assignedTo := Some(assignedTo))
  {
    r := UpdateRow(store, id, SetAssignees(createdBy, assignedTo), fault);
  }

  /** `updateTicketStatus(status, ticket_id)`: only `status` changes; no
      history entry is written. */
  method UpdateTicketStatus(store: Store, status: string, ticketId: int, fault: bool)
    returns (r: Option<Ticket>)
    requires store.Valid()
    modifies store`tickets
    ensures store.Valid()
    ensures store.history == old(store.history)
    ensures store.tickets == if fault then old(store.tickets)
                             else UpdateWhereId(old(store.tickets), ticketId, SetStatus(status))
    ensures r.Some? <==> !fault && FindById(old(store.tickets), ticketId).Some?
    ensures r.Some? ==> r.value == FindById(old(store.tickets), ticketId).value.(status := status)
  {
    r := UpdateRow(store, ticketId, SetStatus(status), fault);
  }

  /** `updateTicket(title, description, ticket_id)`: only `title` and
      `description` change; no history entry is written. */
  method UpdateTicket(store: Store, title: string, description: string, ticketId: int, fault: bool)
    returns (r: Option<Ticket>)
    requires store.Valid()
    modifies store`tickets
    ensures store.Valid()
    ensures store.history == old(store.history)
    ensures store.tickets == if fault then old(store.tickets)
                             else UpdateWhereId(old(store.tickets), ticketId, SetContent(title, description))
    ensures r.Some? <==> !fault && FindById(old(store.tickets), ticketId).Some?
    ensures r.Some? ==> r.value == FindById(old(store.tickets), ticketId).value.(title := title, description := description)
  {
    r := UpdateRow(store, ticketId, SetContent(title, description), fault);
  }

  /** The statement of the delete transaction at which the database fails. */
  datatype Step = Connect | Begin | DeleteHistoryRows | DeleteTicketRow | Commit

  /** What `deleteTicket` throws. */
  datatype Thrown = TicketNotFound | QueryError

  /** The statements inside the try block of `deleteTicket`, after BEGIN:
      the history delete, the ticket delete, the row-count check and COMMIT.
      A failure leaves whatever the statements already did; the caller rolls
      it back. */
  method DeleteStatements(store: Store, ticketId: int, fault: Option<Step>) returns (outcome: Result<Ticket, Thrown>)
    requires store.Valid() && fault != Some(Connect)
    modifies store`tickets, store`history
    ensures store.Valid()
    ensures outcome.Success? <==> fault.None? && FindById(old(store.tickets), ticketId).Some?
    ensures outcome.Success? ==> outcome.value == FindById(old(store.tickets), ticketId).value
    ensures outcome.Success? ==> store.tickets == DeleteWhereId(old(store.tickets), ticketId)
    ensures outcome.Success? ==> store.history == WithoutTicket(old(store.history), ticketId)
    ensures outcome == Failure(TicketNotFound) <==>
      (fault.None? || fault == Some(Commit)) && FindById(old(store.tickets), ticketId).None?
  {
    if fault == Some(Begin) || fault == Some(DeleteHistoryRows) {
      return Failure(QueryError);
    }
    WithoutTicketKeepsKeys(store.history, ticketId, store.nextHistoryId);
    store.history := WithoutTicket(store.history, ticketId);
    if fault == Some(DeleteTicketRow) {
      return Failure(QueryError);
    }
    assert fault.None? || fault.value.Commit?;
    var deleted := FindById(store.tickets, ticketId);
    DeleteKeepsKeys(store.tickets, ticketId, store.nextTicketId);
    store.tickets := DeleteWhereId(store.tickets, ticketId);
    if deleted.None? {
      outcome := Failure(TicketNotFound);
    } else if fault == Some(Commit) {
      outcome := Failure(QueryError);
    } else {
      outcome := Success(deleted.value);
    }
  }

  /** `deleteTicket(ticket_id)`: on a dedicated client, BEGIN, delete the
      ticket's history, delete the ticket, throw "Ticket not found" when no
      row went, COMMIT and return the deleted row; on any throw ROLLBACK and
      rethrow; release the client on every path. */
  method DeleteTicket(store: Store, ticketId: int, fault: Option<Step>) returns (r: Result<Ticket, Thrown>)
    requires store.Valid()
    modifies store`tickets, store`history, store`clientsInUse
    ensures store.Valid()
    ensures store.clientsInUse == old(store.clientsInUse)
    ensures r.Success? <==> fault.None? && FindById(old(store.tickets), ticketId).Some?
    ensures r.Success? ==> r.value == FindById(old(store.tickets), ticketId).value
    ensures r.Success? ==> store.tickets == DeleteWhereId(old(store.tickets), ticketId)
    ensures r.Success? ==> store.history == WithoutTicket(old(store.history), ticketId)
    ensures r.Success? ==> TicketHistoryModel.ForTicket(store.history, ticketId) == []
    ensures r.Failure? ==> store.tickets == old(store.tickets) && store.history == old(store.history)
    ensures r == Failure(TicketNotFound) <==>
      (fault.None? || fault == Some(Commit)) && FindById(old(store.tickets), ticketId).None?
  {
    if fault == Some(Connect) {
      // pool.connect() throws before the try block: nothing to roll back or release
      return Failure(QueryError);
    }
    store.clientsInUse := store.clientsInUse + 1;
    // BEGIN
    var savedTickets, savedHistory := store.tickets, store.history;
    CascadeLeavesNoOrphans(store.history, ticketId, ticketId);
    r := DeleteStatements(store, ticketId, fault);
    if r.Failure? {
      // ROLLBACK
      store.tickets, store.history := savedTickets, savedHistory;
    }
    // finally: client.release()
    store.clientsInUse := store.clientsInUse - 1;
  }
}
