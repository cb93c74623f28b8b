# Multi-tenant ticket system: data and authorization layer

This project models the data and authorization layer of a multi-tenant
ticketing backend. The backend is an Express application over PostgreSQL.
Tickets belong to organizations. Users are members of organizations with a
role (ADMIN or AGENT). Every status change or message on a ticket is meant to
be recorded in a ticket-history ledger.

The model has four parts.

- **Store.** `Database.Store` is one class holding the four tables as
  sequences of rows:
  - `tickets`
  - `history` (the ticket-history ledger)
  - `memberships`
  - `organizations`

  It also holds the serial counters that hand out fresh ids, and the number
  of pool clients checked out. Each SQL statement of the model files is a
  method that changes only the fields its statement touches, or a function
  that only reads. Any query may fail inside the database. A failure is an
  input: `fault`, or the failing step of the delete transaction. It becomes
  `None`, which stands for the `undefined` the code returns after catching
  the error.
- **Service wrappers.** `TicketService` holds the eight service functions.
  They turn a falsy or failed model result into `undefined`. The delete
  wrapper returns the function value `deleteTicket` on success.
- **Access gate.**
  - `RoleMiddleware.RoleHandler` is the role middleware's decision: 401, 403,
    500 or pass. It looks up the ticket's organization and then the caller's
    membership in it.
  - `TicketRoutes` is the endpoint → required-role table, plus the order in
    which a guarded route runs the gate and then the handler.
- **Request validators.** `TicketValidator` and `OrganizationValidator` turn
  the express-validator chains into predicates over a request body of
  JavaScript values. `JsValues` models:
  - JavaScript truthiness;
  - the conversion of a field to text;
  - the integer grammar of `isInt`;
  - how PostgreSQL reads a parameter bound to an integer column.

`Walkthrough` walks through one concrete scenario in the model, proved rather
than executed: an ADMIN changes a ticket's status, and no history entry
results.

## Where the evident intent and the code differ

The model follows the code in each case.

- **Status updates write no history.** The history table records a
  `new_status` and who made the change (`changed_by`), which suggests every
  status change is meant to be logged. In the code, `updateTicketStatus`
  runs only the UPDATE
  (src/services/ticket.service.js:56-67). History is written only by
  add-ticket-message.
- **Role changes ignore the organization.** `updateUserRole` has no
  organization filter (src/models/membership.model.js:34). A role change
  reaches every organization the user belongs to.
- **A missing ticket gives 500.** A `ticket_id` that names no ticket makes the
  gate fail on `rows[0].org_id`, so the answer is 500, not 404.
- **There is no MEMBER role.** The validators accept only ADMIN and AGENT.
- **The delete wrapper returns a function.** On success the service returns
  the model function `deleteTicket` itself, not the deleted row.
- **RESOLVED is accepted.** The status validator's message lists three
  states, but RESOLVED is accepted too.

## Model

| member | source | states |
|---|---|---|
| JsValues.ParseIntText | src/validators/ticket.validator.js:20-24 | text is read as an integer exactly when it matches the integer grammar of `isInt` (optional sign, then digits) |
| JsValues.IntTextRoundTrip | src/validators/ticket.validator.js:20-24 | the decimal text of every integer passes `isInt` and reads back as that same integer |
| JsValues.ParamAsInt | src/middlewares/role.middleware.js:17-20 | a truthy value bound to an integer parameter converts exactly when it is a number or integer text, and a number keeps its value |
| JsValues.IntTextParamRead | src/middlewares/role.middleware.js:17-20 | for a truthy field whose text passes `isInt`, the database reads the same integer that the text spells |
| FieldRules.NumberIsIntField | src/validators/ticket.validator.js:20-24 | every JavaScript integer of magnitude below 10^21, which `String` prints in plain decimal, passes a `notEmpty().isInt()` chain |
| FieldRules.IntFieldIsReadAsInt | src/validators/ticket.validator.js:20-24 | a truthy field that passes `notEmpty().isInt()` never makes an integer query parameter fail, and is read as the integer its text spells |
| FieldRules.OnlyStringsSpellWords | src/validators/ticket.validator.js:26-30 | only a string field can have a word such as OPEN or ADMIN as its text, so `isIn` over such words accepts strings only |
| TicketValidator.StatusAcceptsExactlyFour | src/validators/ticket.validator.js:26-30 | the status check accepts exactly OPEN, IN_PROGRESS, RESOLVED and CLOSED as strings, RESOLVED included |
| TicketValidator.PriorityAcceptsExactlyThree | src/validators/ticket.validator.js:32-36 | the priority check accepts exactly LOW, MEDIUM and HIGH as strings |
| TicketValidator.LengthBounds | src/validators/ticket.validator.js:4-18 | on text the sanitizers leave unchanged, a title is accepted iff it has at least 5 characters and a description iff it has at least 10 |
| TicketValidator.CreateTicketFields | src/validators/ticket.validator.js:3-37 | an accepted create request has integer org_id text, one of the four statuses and one of the three priorities |
| TicketValidator.GetTicketsFields | src/validators/ticket.validator.js:39-47 | an accepted get-tickets request has an org_id whose trimmed and escaped text is integer text |
| TicketValidator.AssignTicketFields | src/validators/ticket.validator.js:49-63 | assign-ticket is accepted iff ticket_id is non-empty and created_by and assigned_to are integer text; a non-numeric ticket_id such as "abc" is accepted |
| TicketValidator.StatusEndpoints | src/validators/ticket.validator.js:65-115 | update-ticket-status accepts only the four statuses; add-ticket-message needs integer user_id and one of the four statuses after trim and escape, which is the same test when the sanitizers change nothing |
| TicketValidator.UpdateTicketFields | src/validators/ticket.validator.js:75-93 | on text the sanitizers leave unchanged, update-ticket is accepted iff the title has at least 5 characters, the description at least 10 and ticket_id non-empty text |
| TicketValidator.TicketIdOnlyEndpoints | src/validators/ticket.validator.js:95-119 | delete-ticket and get-ticket-message are accepted iff ticket_id has non-empty text, so `false` and `0` pass and a missing field or `null` does not |
| TicketValidator.CreateTicket | src/validators/ticket.validator.js:3-37 | the create-ticket chain: sanitized title of at least 5 and description of at least 10 characters, integer org_id, one of four statuses, one of three priorities |
| TicketValidator.GetTickets | src/validators/ticket.validator.js:39-47 | the get-tickets chain: org_id is integer text after trim and escape |
| TicketValidator.AssignTicket | src/validators/ticket.validator.js:49-63 | the assign-ticket chain: ticket_id present, created_by and assigned_to integer text |
| TicketValidator.UpdateTicketStatus | src/validators/ticket.validator.js:65-73 | the update-ticket-status chain: one of the four statuses, ticket_id present |
| TicketValidator.UpdateTicket | src/validators/ticket.validator.js:75-93 | the update-ticket chain: sanitized title and description lengths, ticket_id present |
| TicketValidator.DeleteTicket | src/validators/ticket.validator.js:95-97 | the delete-ticket chain: ticket_id present |
| TicketValidator.AddTicketMessage | src/validators/ticket.validator.js:99-115 | the add-ticket-message chain: ticket_id present, new_status among the four after trim and escape, user_id integer text |
| TicketValidator.GetTicketMessage | src/validators/ticket.validator.js:117-119 | the get-ticket-message chain: ticket_id present |
| OrganizationValidator.NameBounds | src/validators/organization.validator.js:3-11 | a name is accepted iff its trimmed length is between 3 and 20, and escaping plays no part in the decision |
| OrganizationValidator.RoleAcceptsExactlyTwo | src/validators/organization.validator.js:26-30 | the role check accepts exactly the strings ADMIN and AGENT |
| OrganizationValidator.MemberRoleRefused | src/validators/organization.validator.js:26-58 | role MEMBER is refused by add-member and by change-user-role |
| OrganizationValidator.NumericIdsAccepted | src/validators/organization.validator.js:13-59 | numeric user and org ids of magnitude below 10^21 with role AGENT pass add-member, change-user-role and get-user-organizations |
| OrganizationValidator.CreateOrganization | src/validators/organization.validator.js:3-11 | the create-organization chain: trimmed name of 3 to 20 characters |
| OrganizationValidator.AddMember | src/validators/organization.validator.js:13-31 | the add-member chain: integer org_id and user_id, role ADMIN or AGENT |
| OrganizationValidator.GetUserOrganizations | src/validators/organization.validator.js:33-39 | the get-user-organizations chain: integer user_id |
| OrganizationValidator.ChangeUserRole | src/validators/organization.validator.js:41-59 | the change-user-role chain: integer user_id and org_id, role ADMIN or AGENT |
| TicketHistoryModel.ForTicket | src/models/ticketHistory.model.js:16-23 | the listing holds exactly the entries with that ticket id, never more rows than the table |
| TicketHistoryModel.ForTicketAppend | src/models/ticketHistory.model.js:5-8 | listing after an append is the old listing plus the new entry when it is for that ticket, and the old listing otherwise |
| TicketHistoryModel.AppendGrowsByOne | src/models/ticketHistory.model.js:5-8 | an append grows its own ticket's history by exactly one and leaves every other ticket's history unchanged |
| TicketHistoryModel.AddTicketHistory | src/models/ticketHistory.model.js:3-14 | appends exactly one entry (fresh id, ticket_id, new_status, changed_by = user_id) and returns it; on a database error it returns undefined and changes nothing; the history of other tickets is unchanged |
| TicketHistoryModel.GetTicketHistory | src/models/ticketHistory.model.js:16-27 | returns exactly the entries with that ticket id, undefined on a database error |
| TicketModel.ApplyWritesOnlyNamedColumns | src/models/ticket.model.js:40-77 | each UPDATE's SET clause writes only the columns it names; id, org_id and priority are never written |
| TicketModel.FindById | src/models/ticket.model.js:28-38 | the row found has that id and is in the table; nothing is found iff no row has that id |
| TicketModel.OfOrg | src/models/ticket.model.js:16-26 | the rows selected are exactly those with that org_id |
| TicketModel.UpdateWhereId | src/models/ticket.model.js:40-77 | UPDATE … WHERE id = $n applies the SET clause to the rows with that id and leaves every other row unchanged, keeping the row count |
| TicketModel.UpdateRow | src/models/ticket.model.js:40-77 | the shared UPDATE … RETURNING shape: the table becomes `UpdateWhereId` of the old one (unchanged on error), every row keeps its org_id, and the result is the old row with the SET clause applied, or undefined when the id is missing |
| TicketModel.DeleteWhereId | src/models/ticket.model.js:93-96 | DELETE … WHERE id = $1 keeps exactly the rows with another id |
| TicketModel.WithoutTicket | src/models/ticket.model.js:87-90 | the history DELETE keeps exactly the entries of other tickets |
| TicketModel.UpdateKeepsKeysAndOrgs | src/models/ticket.model.js:40-77 | no update changes any row's id or org_id |
| TicketModel.FindAfterUpdate | src/models/ticket.model.js:40-77 | after an update, looking up the id finds the updated row exactly when a row was there before |
| TicketModel.FindAfterInsert | src/models/ticket.model.js:3-10 | a row inserted with a fresh id is the one found by that id |
| TicketModel.DeleteKeepsKeys | src/models/ticket.model.js:93-96 | deleting tickets keeps ids distinct and below the serial counter |
| TicketModel.WithoutTicketKeepsKeys | src/models/ticket.model.js:87-90 | deleting history entries keeps their ids distinct and below the serial counter |
| TicketModel.CascadeLeavesNoOrphans | src/models/ticket.model.js:86-90 | after the cascade the deleted ticket has no history, and every other ticket keeps exactly its history |
| TicketModel.CreateTicket | src/models/ticket.model.js:3-14 | inserts exactly one row with the given title, description, org_id, status and priority, a fresh id and no creator or assignee, and returns it; undefined and no change on error |
| TicketModel.GetTicketByOrg | src/models/ticket.model.js:16-26 | returns exactly the rows of that org, possibly none; undefined on error |
| TicketModel.GetTicketById | src/models/ticket.model.js:28-38 | returns the row with that id, or undefined when there is none or on error |
| TicketModel.AssignTicket | src/models/ticket.model.js:40-51 | sets only created_by and assigned_to of the row with that id and returns it; undefined when no row has that id |
| TicketModel.UpdateTicketStatus | src/models/ticket.model.js:53-64 | sets only the status of the row with that id and returns it; writes no history |
| TicketModel.UpdateTicket | src/models/ticket.model.js:66-77 | sets only title and description of the row with that id and returns it; writes no history |
| TicketModel.DeleteStatements | src/models/ticket.model.js:86-103 | the statements of the delete transaction after BEGIN: success iff no step fails and the ticket exists, and then both deletes have happened and the deleted row is returned; "Ticket not found" iff the ticket is missing and no statement before the check fails |
| TicketModel.DeleteTicket | src/models/ticket.model.js:79-111 | on an existing id, removes the ticket and all its history and returns the deleted row; on a missing id it throws "Ticket not found" and rolls back; on any failed step both tables are unchanged; the client is released on every path |
| TicketService.CreateTicket | src/services/ticket.service.js:10-27 | returns the inserted row, or undefined on error |
| TicketService.GetTickets | src/services/ticket.service.js:29-40 | returns the org's tickets, and an empty list rather than undefined when the org has none |
| TicketService.AssignTicket | src/services/ticket.service.js:42-54 | returns the reassigned row, or undefined when the ticket is missing or on error |
| TicketService.UpdateTicketStatus | src/services/ticket.service.js:56-67 | returns the row with its new status, or undefined; history is unchanged |
| TicketService.UpdateTicket | src/services/ticket.service.js:69-80 | returns the row with its new title and description, or undefined; history is unchanged |
| TicketService.DeleteTicket | src/services/ticket.service.js:82-93 | returns the function value on a successful delete and undefined when the ticket is missing or a step fails; the tables change only on success |
| TicketService.AddTicketMessage | src/services/ticket.service.js:95-106 | forwards ticket_id, new_status and user_id unchanged to the history append and returns the new entry |
| TicketService.GetTicketMessage | src/services/ticket.service.js:108-119 | returns the ticket's history, and an empty list rather than undefined when there is none |
| MembershipModel.FirstOfUser | src/models/membership.model.js:18-25 | the row chosen belongs to the user; none is chosen iff the user has no row |
| MembershipModel.FirstOfUserIsEarliest | src/models/membership.model.js:18-25 | the row chosen is the user's first row in table order, whatever its org |
| MembershipModel.OrgsOfUser | src/models/membership.model.js:44-51 | lists the org of every row of the user and only those orgs |
| MembershipModel.SetRoleOfUser | src/models/membership.model.js:31-35 | the UPDATE sets the role on every row of the user, in every org, and leaves other users' rows unchanged |
| MembershipModel.AddMember | src/models/membership.model.js:5-16 | appends one row with the given user and org and the column's default role; there is no duplicate check |
| MembershipModel.GetUserRole | src/models/membership.model.js:18-29 | returns the role of one of the user's rows, or undefined when the user has none or on error |
| MembershipModel.UpdateUserRole | src/models/membership.model.js:31-42 | always returns undefined; every row of the user, in every org, gets the new role |
| MembershipModel.GetUserOrgs | src/models/membership.model.js:44-55 | returns exactly the orgs the user belongs to, possibly none; undefined on error |
| MembershipModel.LastRoleWins | src/models/membership.model.js:5-35 | after addMember and then updateUserRole, the user's role lookup finds a row and reads the new role, whichever org that row belongs to |
| OrganizationModel.FindOrgById | src/models/organization.model.js:16-23 | the row found has that id; none is found iff no row has it |
| OrganizationModel.FindAfterCreate | src/models/organization.model.js:3-10 | an organization inserted with a fresh id is the one found by that id |
| OrganizationModel.CreateOrganization | src/models/organization.model.js:3-14 | inserts exactly one row with the given name and a fresh id and returns it; undefined and no change on error |
| OrganizationModel.FindOrganizationById | src/models/organization.model.js:16-27 | returns the row with that id, or undefined |
| OrganizationModel.ListAllOrganizations | src/models/organization.model.js:29-37 | returns every row, in table order, and changes nothing |
| RoleMiddleware.MembershipOf | src/middlewares/role.middleware.js:24-26 | the row chosen matches both user and org; none is chosen iff no row matches both |
| RoleMiddleware.RoleHandler | src/middlewares/role.middleware.js:3-46 | 401 iff the user id or ticket_id is falsy; the handler runs only when the user's membership in the ticket's org has exactly the required role; a database error gives 500; the result is always pass, 401, 403 or 500 |
| RoleMiddleware.MissingTicketIs500 | src/middlewares/role.middleware.js:17-43 | a truthy ticket_id that reads as no integer (such as "abc"), or names no ticket, gives 500 "Internal Server Error" |
| RoleMiddleware.NoMembershipIs403 | src/middlewares/role.middleware.js:29-31 | with no membership row in the ticket's org the answer is 403 "Forbidden1"; the user id and ticket_id may be numbers or integer text, as a form-encoded body carries them |
| RoleMiddleware.OnlyExactRolePasses | src/middlewares/role.middleware.js:33-35 | when the user's membership row in the ticket's org (the first matching row) carries any role other than the required one, the answer is 403 "Forbidden2", whatever other users hold, so ADMIN does not pass an AGENT guard; the user id and ticket_id may be numbers or integer text, as a form-encoded body carries them |
| RoleMiddleware.SoleRolePasses | src/middlewares/role.middleware.js:29-37 | when the user's membership row in the ticket's org (the first matching row) carries the required role, the handler runs; the user id and ticket_id may be numbers or integer text, as a form-encoded body carries them |
| RoleMiddleware.RoleChangeReachesEveryOrg | src/models/membership.model.js:31-35 | after updateUserRole to ADMIN, the user passes the ADMIN guard on any ticket of any org they belong to; the user id and ticket_id may be numbers or integer text, as a form-encoded body carries them |
| TicketRoutes.Lookup | src/routes/ticket.routes.js:13-20 | a path resolves only to the endpoint registered under it |
| TicketRoutes.LookupPath | src/routes/ticket.routes.js:13-20 | every endpoint resolves from its own path |
| TicketRoutes.RequiredRole | src/routes/ticket.routes.js:13-20 | exactly the four editing routes require ADMIN, exactly the two message routes require AGENT, and create and get-tickets require nothing |
| TicketRoutes.Route | src/routes/ticket.routes.js:13-20 | the handler runs iff the route is unguarded or its gate passes; a rejection comes from the gate of a guarded route |
| TicketRoutes.UnguardedAlwaysRun | src/routes/ticket.routes.js:13-14 | create and get-tickets run their handler whatever the caller |
| TicketRoutes.AgentRefusedOnAdminRoutes | src/routes/ticket.routes.js:15-18 | a user who is only ever AGENT gets 403 on every ADMIN route for an existing ticket, with ids given as numbers or integer text |
| TicketRoutes.AdminRefusedOnAgentRoutes | src/routes/ticket.routes.js:19-20 | a user who is only ever ADMIN gets 403 on every AGENT route for an existing ticket, with ids given as numbers or integer text |
| Walkthrough.SetupOrganization | src/models/organization.model.js:3-14 | a fresh store whose one organization is the created "Acme" row, with the id returned, and whose other tables are empty |
| Walkthrough.SetupMembers | src/models/membership.model.js:5-42 | after addMember and updateUserRole for users 7 and 8, the membership table is exactly user 7 as ADMIN and user 8 as AGENT of that organization |
| Walkthrough.Setup | src/models/ticket.model.js:3-14 | a fresh store holding one OPEN ticket with id 1, no history, an ADMIN member 7 and an AGENT member 8 of its org |
| Walkthrough.GuardOnSetup | src/routes/ticket.routes.js:16 | on that store, member 7 passes the update-ticket-status guard and member 8 gets 403 "Forbidden2" |
| Walkthrough.TextTicketIdOnSetup | src/middlewares/role.middleware.js:17-37 | on that store, the text ticket_id "1" is decided as the number 1 (member 7 passes, member 8 gets 403 "Forbidden2"), and "abc" gets 500 |
| Walkthrough.ZeroTicketIdPassesRulesNotGuard | src/validators/ticket.validator.js:95-97 | a ticket_id of 0 passes the delete-ticket rules, but the guard treats it as missing and answers 401 |

## Left out

- Controllers (src/controllers/*.js) are HTTP plumbing. Each `require` there binds the whole service module, so the calls they make are not modelled.
- The organization service, authentication, JWT and cookies, and the user model are not part of this model. The organization routes, the auth routes, app start-up and the TLS certificate script are not part of it either.
- The validation middleware, which only reports express-validator's findings, is not modelled. The validators' error messages are not modelled either.
- The connection pool is reduced to a count of checked-out clients. Concurrency and isolation levels are not modelled, and the delete transaction is treated as all-or-nothing.
- A failing ROLLBACK is not modelled.
- `serial` ids are modelled as counters that start at 1 and grow by one per insert. Foreign keys are not modelled.
- Column defaults are owned by the database schema. The schema is not part of this model. `MembershipModel.AddMember` takes the role default as an input. A new ticket's `created_by` and `assigned_to` are taken to be NULL.
- The history table's timestamp column is not modelled.
- `trim` and `escape` are given functions (`FieldRules.Sanitizers`); their internals are not modelled. `isLength` counts `char`s, with no surrogate-pair handling.
- Request numbers are unbounded integers. Fractions, the 2^53 precision limit of a double, and array or object field values are not modelled.
- `ToText` writes every number in plain decimal. `String` switches to exponent notation ("1e+21") from magnitude 10^21 on, and `isInt` refuses that text. So `FieldRules.NumberIsIntField` and `OrganizationValidator.NumericIdsAccepted` are stated only below 10^21.
- ticket.routes.js binds the whole controller module under each handler name (src/routes/ticket.routes.js:1-8). Express refuses a handler that is not a function, so as written no ticket route would be registered. `TicketRoutes.Route` takes each route's handler to be the controller function of the same name.
- No ticket route attaches a validator chain, so in the code the validators never run. They are modelled as standalone predicates over the request body. The sanitizers' write-back of trimmed and escaped text into `req.body` is not modelled.
- The 32-bit range of PostgreSQL `integer` and whitespace around integer text are not modelled.
- No query has an ORDER BY, so row order is left to PostgreSQL. The model uses table (insertion) order, and lookups that keep the first row take the first row in that order.
- `console.log` calls and the acting user's identity (`req.user`) are not modelled. The user id is an input to the gate.
- TicketModel.GetTicketById: a found row is stated to have that id and to be in the table. The contract does not say which row is returned when ids repeat; the store's key invariant rules that case out.
- MembershipModel.GetUserRole: its contract gives the role of some row of the user. `MembershipModel.FirstOfUserIsEarliest` pins that row down as the first in table order.
