/**
  A client of the model that walks through the ticket life cycle: an
  organization, an ADMIN and an AGENT member, one ticket, and a status
  change. It shows that the guard and the store behave as the contracts
  promise, and that a status change leaves the history empty.
*/
module Walkthrough {
  import opened Wrappers
  import opened JsValues
  import opened Database
  import OrganizationModel
  import MembershipModel
  import TicketModel
  import TicketHistoryModel
  import TicketService
  import TicketRoutes
  import RoleMiddleware
  import TicketValidator

  /** A fresh database holding only organization "Acme". */
  method SetupOrganization() returns (store: Store, orgId: int)
    ensures fresh(store)
    ensures store.Valid() && store.history == [] && store.tickets == [] && store.nextTicketId == 1
    ensures store.memberships == [] && store.organizations == [Organization(orgId, "Acme")]
  {
    store := new Store();
    var acme := OrganizationModel.CreateOrganization(store, "Acme", false);
    orgId := acme.value.id;
  }

  /** Organization "Acme" with user 7 as ADMIN and user 8 as AGENT. */
  method SetupMembers() returns (store: Store, orgId: int)
    ensures fresh(store)
    ensures store.Valid() && store.history == [] && store.tickets == [] && store.nextTicketId == 1
    ensures store.memberships == [Membership(7, orgId, Some("ADMIN")), Membership(8, orgId, Some("AGENT"))]
  {
    store, orgId := SetupOrganization();
    var _ := MembershipModel.AddMember(store, 7, orgId, None, false);
    var _ := MembershipModel.UpdateUserRole(store, "ADMIN", 7, false);
    assert store.memberships == [Membership(7, orgId, Some("ADMIN"))];
    var _ := MembershipModel.AddMember(store, 8, orgId, None, false);
    var _ := MembershipModel.UpdateUserRole(store, "AGENT", 8, false);
  }

  /** The same organization and members, and one open ticket in it. */
  method Setup() returns (store: Store, ticket: Ticket)
    ensures fresh(store)
    ensures store.Valid() && store.history == [] && store.tickets == [ticket]
    ensures ticket.id == 1 && ticket.status == "OPEN"
    ensures store.memberships == [Membership(7, ticket.orgId, Some("ADMIN")), Membership(8, ticket.orgId, Some("AGENT"))]
  {
    var orgId;
    store, orgId := SetupMembers();
    var created := TicketService.CreateTicket(store, "Printer", "Printer on floor 2 jams", orgId, "OPEN", "LOW", false);
    ticket := created.value;
  }

  /** On that store the ADMIN passes the guard of update-ticket-status and
      the AGENT is refused. */
  lemma GuardOnSetup(ticket: Ticket, members: seq<Membership>, body: Body)
    requires ticket.id == 1 && body == map["ticket_id" := Num(1)]
    requires members == [Membership(7, ticket.orgId, Some("ADMIN")), Membership(8, ticket.orgId, Some("AGENT"))]
    ensures TicketRoutes.Route(TicketRoutes.UpdateTicketStatus, Num(7), body, [ticket], members, false)
         == TicketRoutes.RunHandler
    ensures TicketRoutes.Route(TicketRoutes.UpdateTicketStatus, Num(8), body, [ticket], members, false)
         == TicketRoutes.Rejected(403, "Forbidden2")
  {
    assert Field(body, "ticket_id") == Num(1);
    assert TicketModel.FindById([ticket], 1) == Some(ticket);
    assert RoleMiddleware.MembershipOf(members, 7, ticket.orgId) == Some(members[0]);
    assert RoleMiddleware.MembershipOf(members, 8, ticket.orgId) == Some(members[1]);
  }

  /** A form-encoded request carries `ticket_id` as text. On the same store
      the text "1" is read as ticket 1, so the guard decides as for the
      number, and the text "abc" is answered with 500. */
  lemma TextTicketIdOnSetup(ticket: Ticket, members: seq<Membership>)
    requires ticket.id == 1
    requires members == [Membership(7, ticket.orgId, Some("ADMIN")), Membership(8, ticket.orgId, Some("AGENT"))]
    ensures TicketRoutes.Route(TicketRoutes.UpdateTicketStatus, Num(7), map["ticket_id" := Str("1")], [ticket], members, false)
         == TicketRoutes.RunHandler
    ensures TicketRoutes.Route(TicketRoutes.UpdateTicketStatus, Num(8), map["ticket_id" := Str("1")], [ticket], members, false)
         == TicketRoutes.Rejected(403, "Forbidden2")
    ensures TicketRoutes.Route(TicketRoutes.UpdateTicketStatus, Num(7), map["ticket_id" := Str("abc")], [ticket], members, false)
         == TicketRoutes.Rejected(500, "Internal Server Error")
  {
    var one: Body := map["ticket_id" := Str("1")];
    var abc: Body := map["ticket_id" := Str("abc")];
    assert Field(one, "ticket_id") == Str("1") && Field(abc, "ticket_id") == Str("abc");
    assert ParseIntText("1") == Some(1);
    assert !IsIntText("abc") by {
      assert !IsDigit('a');
    }
    assert TicketModel.FindById([ticket], 1) == Some(ticket);
    assert RoleMiddleware.MembershipOf(members, 7, ticket.orgId) == Some(members[0]);
    assert RoleMiddleware.MembershipOf(members, 8, ticket.orgId) == Some(members[1]);
  }

  /** The delete-ticket rules only ask for a non-empty ticket id, so the
      number 0 passes them; the guard treats 0 as missing and answers 401. */
  lemma ZeroTicketIdPassesRulesNotGuard(tickets: seq<Ticket>, members: seq<Membership>)
    ensures TicketValidator.DeleteTicket(map["ticket_id" := Num(0)])
    ensures TicketRoutes.Route(TicketRoutes.DeleteTicket, Num(7), map["ticket_id" := Num(0)], tickets, members, false)
         == TicketRoutes.Rejected(401, "Forbidden")
  {
    assert Field(map["ticket_id" := Num(0)], "ticket_id") == Num(0);
    assert ToText(Num(0)) == "0";
  }

  method StatusChangeByAdmin()
  {
    var store, ticket := Setup();
    var body := map["ticket_id" := Num(1)];
    GuardOnSetup(ticket, store.memberships, body);
    var updated := TicketService.UpdateTicketStatus(store, "RESOLVED", ticket.id, false);
    assert TicketModel.FindById([ticket], 1) == Some(ticket);
    assert updated == Some(ticket.(status := "RESOLVED"));
    // the status change wrote no history entry
    assert TicketHistoryModel.ForTicket(store.history, ticket.id) == [];
  }
}
