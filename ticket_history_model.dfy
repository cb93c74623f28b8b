/**
  The ticket history ledger: appending one status-change entry and listing
  the entries of one ticket. Nothing here updates or removes an entry.
*/
module TicketHistoryModel {
  import opened Wrappers
  import opened Database

  /** The rows of `select * from ticket_history where ticket_id = $1`, in
      table order (the query itself promises no order). */
  function ForTicket(rows: seq<HistoryEntry>, ticketId: int): (r: seq<HistoryEntry>)
    ensures forall e :: e in r <==> e in rows && e.ticketId == ticketId
    ensures |r| <= |rows|
  {
    if rows == [] then []
    else if rows[0].ticketId == ticketId then [rows[0]] + ForTicket(rows[1..], ticketId)
    else ForTicket(rows[1..], ticketId)
  }

  /** Appending an entry adds it to the listing of its own ticket, at the
      end, and leaves the listing of every other ticket as it was. */
  lemma {:induction false} ForTicketAppend(rows: seq<HistoryEntry>, e: HistoryEntry, ticketId: int)
    ensures ForTicket(rows + [e], ticketId)
         == if e.ticketId == ticketId then ForTicket(rows, ticketId) + [e] else ForTicket(rows, ticketId)
  {
    if rows == [] {
      assert rows + [e] == [e];
      assert [e][1..] == [];
    } else {
      assert (rows + [e])[0] == rows[0];
      assert (rows + [e])[1..] == rows[1..] + [e];
      ForTicketAppend(rows[1..], e, ticketId);
    }
  }

  /** An append grows the history of its ticket by exactly one entry. */
  lemma AppendGrowsByOne(rows: seq<HistoryEntry>, e: HistoryEntry)
    ensures |ForTicket(rows + [e], e.ticketId)| == |ForTicket(rows, e.ticketId)| + 1
    ensures forall t :: t != e.ticketId ==> ForTicket(rows + [e], t) == ForTicket(rows, t)
  {
    ForTicketAppend(rows, e, e.ticketId);
    forall t | t != e.ticketId
      ensures ForTicket(rows + [e], t) == ForTicket(rows, t)
    {
      ForTicketAppend(rows, e, t);
    }
  }

  /** `addTicketHistory(ticket_id, new_status, user_id)`: insert one entry
      whose author is `user_id` and return it; a failing insert is swallowed
      and yields undefined. */
  method AddTicketHistory(store: Store, ticketId: int, newStatus: string, userId: int, fault: bool)
    returns (r: Option<HistoryEntry>)
    requires store.Valid()
    modifies store`history, store`nextHistoryId
    ensures store.Valid()
    ensures r.Some? <==> !fault
    ensures fault ==> store.history == old(store.history) && store.nextHistoryId == old(store.nextHistoryId)
    ensures !fault ==> r.value == HistoryEntry(old(store.nextHistoryId), ticketId, newStatus, userId)
    ensures !fault ==> store.history == old(store.history) + [r.value]
    ensures !fault ==> |ForTicket(store.history, ticketId)| == |ForTicket(old(store.history), ticketId)| + 1
    ensures forall t :: t != ticketId ==> ForTicket(store.history, t) == ForTicket(old(store.history), t)
  {
    if fault {
      return None;
    }
    var entry := HistoryEntry(store.nextHistoryId, ticketId, newStatus, userId);
    AppendGrowsByOne(store.history, entry);
    store.history := store.history + [entry];
    store.nextHistoryId := store.nextHistoryId + 1;
    r := Some(entry);
  }

  /** `getTicketHistory(ticket_id)`: exactly the entries of that ticket,
      possibly none; a failing query yields undefined. */
  function GetTicketHistory(store: Store, ticketId: int, fault: bool): (r: Option<seq<HistoryEntry>>)
    reads store
    ensures r.Some? <==> !fault
    ensures r.Some? ==> forall e :: e in r.value <==> e in store.history && e.ticketId == ticketId
  {
    if fault then None else Some(ForTicket(store.history, ticketId))
  }
}
