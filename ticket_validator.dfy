/** The field rules of each ticket endpoint. */
module TicketValidator {
  import opened JsValues
  import opened FieldRules

  /** The values `isIn` accepts for a status. The accompanying message names
      only OPEN, IN_PROGRESS and CLOSED; RESOLVED is accepted too. */
  const Statuses: seq<string> := ["OPEN", "IN_PROGRESS", "RESOLVED", "CLOSED"]

  const Priorities: seq<string> := ["LOW", "MEDIUM", "HIGH"]

  /** `trim().escape().notEmpty().isLength({ min })`. */
  predicate SanitizedMinLength(san: Sanitizers, v: Value, min: nat)
  {
    var s := san.escape(san.trim(ToText(v)));
    NotEmpty(s) && |s| >= min
  }

  predicate Title(san: Sanitizers, v: Value)
  {
    SanitizedMinLength(san, v, 5)
  }

  predicate Description(san: Sanitizers, v: Value)
  {
    SanitizedMinLength(san, v, 10)
  }

  /** `notEmpty().isIn(Statuses)` on the raw field. */
  predicate Status(v: Value)
  {
    NotEmpty(ToText(v)) && ToText(v) in Statuses
  }

  predicate Priority(v: Value)
  {
    NotEmpty(ToText(v)) && ToText(v) in Priorities
  }

  /** `notEmpty().trim().escape().isIn(Statuses)`, as for `new_status`. */
  predicate SanitizedStatus(san: Sanitizers, v: Value)
  {
    NotEmpty(ToText(v)) && san.escape(san.trim(ToText(v))) in Statuses
  }

  /** `trim().escape().notEmpty().isInt()`, as for `org_id` of get-tickets. */
  predicate SanitizedIntField(san: Sanitizers, v: Value)
  {
    var s := san.escape(san.trim(ToText(v)));
    NotEmpty(s) && IsInt(s)
  }

  predicate CreateTicket(san: Sanitizers, body: Body)
  {
    && Title(san, Field(body, "title"))
    && Description(san, Field(body, "description"))
    && IntField(Field(body, "org_id"))
    && Status(Field(body, "status"))
    && Priority(Field(body, "priority"))
  }

  predicate GetTickets(san: Sanitizers, body: Body)
  {
    SanitizedIntField(san, Field(body, "org_id"))
  }

  predicate AssignTicket(body: Body)
  {
    && Present(Field(body, "ticket_id"))
    && IntField(Field(body, "created_by"))
    && IntField(Field(body, "assigned_to"))
  }

  predicate UpdateTicketStatus(body: Body)
  {
    Status(Field(body, "status")) && Present(Field(body, "ticket_id"))
  }

  predicate UpdateTicket(san: Sanitizers, body: Body)
  {
    && Title(san, Field(body, "title"))
    && Description(san, Field(body, "description"))
    && Present(Field(body, "ticket_id"))
  }

  predicate DeleteTicket(body: Body)
  {
    Present(Field(body, "ticket_id"))
  }

  predicate AddTicketMessage(san: Sanitizers, body: Body)
  {
    && Present(Field(body, "ticket_id"))
    && SanitizedStatus(san, Field(body, "new_status"))
    && IntField(Field(body, "user_id"))
  }

  predicate GetTicketMessage(body: Body)
  {
    Present(Field(body, "ticket_id"))
  }

  /** The status check accepts exactly the four status names, given as
      strings; RESOLVED is one of them. */
  lemma StatusAcceptsExactlyFour(v: Value)
    ensures Status(v) <==> v.Str? && (v.s == "OPEN" || v.s == "IN_PROGRESS" || v.s == "RESOLVED" || v.s == "CLOSED")
  {
    if Status(v) {
      OnlyStringsSpellWords(v, ToText(v));
    }
  }

  /** The priority check accepts exactly LOW, MEDIUM and HIGH, given as strings. */
  lemma PriorityAcceptsExactlyThree(v: Value)
    ensures Priority(v) <==> v.Str? && (v.s == "LOW" || v.s == "MEDIUM" || v.s == "HIGH")
  {
    if Priority(v) {
      OnlyStringsSpellWords(v, ToText(v));
    }
  }

  /** When the sanitizers leave the text alone, a title is accepted exactly
      when it has at least five characters and a description at least ten. */
  lemma LengthBounds(san: Sanitizers, v: Value)
    requires san.trim(ToText(v)) == ToText(v) && san.escape(ToText(v)) == ToText(v)
    ensures Title(san, v) <==> |ToText(v)| >= 5
    ensures Description(san, v) <==> |ToText(v)| >= 10
  {
  }

  /** A create request that passes the rules carries an organization id that
      reads as an integer, a status among the four, and a priority among the
      three. */
  lemma CreateTicketFields(san: Sanitizers, body: Body)
    requires CreateTicket(san, body)
    ensures ParseIntText(ToText(Field(body, "org_id"))).Some?
    ensures Field(body, "status").Str? && Field(body, "status").s in Statuses
    ensures Field(body, "priority").Str? && Field(body, "priority").s in Priorities
  {
    StatusAcceptsExactlyFour(Field(body, "status"));
    PriorityAcceptsExactlyThree(Field(body, "priority"));
  }

  /** get-tickets wants an organization id that is integer text once trimmed
      and escaped. */
  lemma GetTicketsFields(san: Sanitizers, body: Body)
    requires GetTickets(san, body)
    ensures ParseIntText(san.escape(san.trim(ToText(Field(body, "org_id"))))).Some?
  {
  }

  /** assign-ticket wants some ticket id, and integer creator and assignee ids.
      The ticket id itself is only checked for presence. */
  lemma AssignTicketFields(body: Body)
    ensures AssignTicket(body) <==>
      && ToText(Field(body, "ticket_id")) != ""
      && ParseIntText(ToText(Field(body, "created_by"))).Some?
      && ParseIntText(ToText(Field(body, "assigned_to"))).Some?
    ensures (Field(body, "ticket_id") == Str("abc") && Field(body, "created_by") == Num(1)
             && Field(body, "assigned_to") == Num(2)) ==> AssignTicket(body)
  {
    NumberIsIntField(1);
    NumberIsIntField(2);
  }

  /** update-ticket-status takes the same four statuses as ticket creation;
      add-ticket-message takes them after trimming and escaping, and also
      wants an integer author id. */
  lemma StatusEndpoints(san: Sanitizers, body: Body)
    ensures UpdateTicketStatus(body) ==> Field(body, "status").Str? && Field(body, "status").s in Statuses
    ensures AddTicketMessage(san, body) ==> ParseIntText(ToText(Field(body, "user_id"))).Some?
    ensures AddTicketMessage(san, body) ==> san.escape(san.trim(ToText(Field(body, "new_status")))) in Statuses
    ensures var v := Field(body, "new_status");
            san.trim(ToText(v)) == ToText(v) && san.escape(ToText(v)) == ToText(v) ==>
            (SanitizedStatus(san, v) <==> Status(v))
  {
    StatusAcceptsExactlyFour(Field(body, "status"));
  }

  /** update-ticket takes a title of at least five characters, a description
      of at least ten, and some ticket id, when the sanitizers leave the text
      alone. */
  lemma UpdateTicketFields(san: Sanitizers, body: Body)
    requires var title := ToText(Field(body, "title"));
             san.trim(title) == title && san.escape(title) == title
    requires var description := ToText(Field(body, "description"));
             san.trim(description) == description && san.escape(description) == description
    ensures UpdateTicket(san, body) <==>
      && |ToText(Field(body, "title"))| >= 5
      && |ToText(Field(body, "description"))| >= 10
      && ToText(Field(body, "ticket_id")) != ""
  {
    LengthBounds(san, Field(body, "title"));
    LengthBounds(san, Field(body, "description"));
  }

  /** delete-ticket and get-ticket-message only ask that the ticket id have
      non-empty text, so `false` and `0` pass them, while a missing field or
      `null` does not. */
  lemma TicketIdOnlyEndpoints(body: Body)
    ensures DeleteTicket(body) <==> ToText(Field(body, "ticket_id")) != ""
    ensures GetTicketMessage(body) <==> DeleteTicket(body)
    ensures Field(body, "ticket_id") in {Bool(false), Num(0)} ==> DeleteTicket(body)
    ensures Field(body, "ticket_id") in {Undefined, Null} ==> !DeleteTicket(body)
  {
    assert ToText(Num(0)) == "0";
  }
}
