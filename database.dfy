/**
  The relational store behind the connection pool: one table per row type,
  kept in insertion order, with the serial counters that hand out fresh ids
  and the number of pool clients currently checked out.
*/
module Database {
  import opened Wrappers

  /** A row of `tickets`. `created_by` and `assigned_to` are NULL until a
      ticket is assigned. */
  datatype Ticket = Ticket(
    id: int,
    title: string,
    description: string,
    orgId: int,
    status: string,
    priority: string,
    createdBy: Option<int>,
    assignedTo: Option<int>)

  /** A row of `ticket_history`. */
  datatype HistoryEntry = HistoryEntry(id: int, ticketId: int, newStatus: string, changedBy: int)

  /** A row of `membership`. The role is None when the column holds NULL. */
  datatype Membership = Membership(userId: int, orgId: int, role: Option<string>)

  /** A row of `organization`. */
  datatype Organization = Organization(id: int, name: string)

  /** The ids `key` gives the rows are a key of the table, and all of them
      were handed out below the serial counter `next`. */
  ghost predicate Keyed<T>(rows: seq<T>, key: T -> int, next: int)
  {
    && (forall i :: 0 <= i < |rows| ==> key(rows[i]) < next)
    && (forall i, j :: 0 <= i < j < |rows| ==> key(rows[i]) != key(rows[j]))
  }

  function TicketId(t: Ticket): int { t.id }
  function HistoryId(e: HistoryEntry): int { e.id }
  function OrganizationId(o: Organization): int { o.id }

  /** Putting a row with a fresh id below the counter in front of a keyed
      table leaves it keyed. */
  lemma PrependKeyed<T>(x: T, rest: seq<T>, key: T -> int, next: int)
    requires Keyed(rest, key, next) && key(x) < next
    requires forall u :: u in rest ==> key(u) != key(x)
    ensures Keyed([x] + rest, key, next)
  {
    var r := [x] + rest;
    forall i, j | 0 <= i < j < |r| ensures key(r[i]) != key(r[j]) {
      assert r[j] == rest[j - 1];
      if i > 0 {
        assert r[i] == rest[i - 1];
      }
    }
  }

  class Store {
    var tickets: seq<Ticket>
    var history: seq<HistoryEntry>
    var memberships: seq<Membership>
    var organizations: seq<Organization>
    var nextTicketId: int
    var nextHistoryId: int
    var nextOrganizationId: int
    var clientsInUse: nat

    ghost predicate Valid()
      reads this`tickets, this`history, this`organizations
      reads this`nextTicketId, this`nextHistoryId, this`nextOrganizationId
    {
      && Keyed(tickets, TicketId, nextTicketId)
      && Keyed(history, HistoryId, nextHistoryId)
      && Keyed(organizations, OrganizationId, nextOrganizationId)
    }

    /** An empty database whose serial columns start at 1. */
    constructor ()
      ensures Valid()
      ensures tickets == [] && history == [] && memberships == [] && organizations == []
      ensures nextTicketId == 1 && nextHistoryId == 1 && nextOrganizationId == 1
      ensures clientsInUse == 0
    {
      tickets, history, memberships, organizations := [], [], [], [];
      nextTicketId, nextHistoryId, nextOrganizationId := 1, 1, 1;
      clientsInUse := 0;
    }
  }
}
