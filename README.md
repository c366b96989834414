# Expense approval routing — a Dafny model

This project models the server core of a multi-tenant expense-approval
application. An employee submits an expense. It is assigned to the employee's
manager and then moves along the company's role-ordered approval chain
(`approval_steps`) until it is approved or rejected. A company may have one
*special approver*, whose approval is final at once. Every approve and reject
is written to the append-only `approvals` table.

Modules:

- `Wrappers` (`wrappers.dfy`): `Option`, standing for SQL NULL, a missing row, or `undefined`.
- `Tables` (`tables.dfy`): the rows of `users`, `expenses`, `approval_steps` and
  `approvals`, and the single-row lookups the handlers issue (`rows[0]` and `LIMIT 1` read as
  "first row in table order"). It also holds the `Database` class, with one field per table.
  Its `Valid()` invariant says: user ids are unique; each company has at most one special
  approver; expense ids come from a serial counter; an expense is pending exactly when it
  has a current approver; and for every decided expense, the most recent audit record
  carries that decision.
- `Middleware` (`middleware.dfy`): `authenticateToken` and `authorizeRole` as pure functions.
  This covers JavaScript's `split(' ')`, the `Bearer X` token extraction, and the
  normalisation of a single role to a one-element list. `jwt.verify` is a function parameter.
- `Expenses` (`expenses.dfy`): submission, approve and reject are module-level methods that
  take a `Database` and issue their statements in the route's order. The pending list is the
  function `PendingFor` over the tables' values. `Route` is the pure specification of the
  approve chain walk.
- `Admin` (`admin.dfy`): the company user listing, and set-special as two loops over the
  users table (the company-wide clear, then the set on the target).
- `Scenarios` (`scenarios.dfy`): a two-step chain (`manager` then `director`), a special
  approver, a one-step chain, a vacant next role, a rejection, and an employee with no manager.

Points where the code's behaviour is easy to misread, and how the model follows the code:

- Approve is not atomic. The code inserts the audit row *before* looking up the actor's row
  and the chain step, and either lookup can fail. So a missing `users` row or a missing
  `approval_steps` row ends in a server error. The `'approved'` record stays, and the
  expense is unchanged and still waits for the same approver (`ApproveExpense`, `Fault`).
- Nothing in the code assumes the chain is unique per (company, role) or per
  (company, sequence). It reads the first matching row, and so does the model.
- The creation INSERT does not set `status`. The model assumes the schema default
  `'pending'` (`Tables.DefaultStatus`).
- `!manager_id` also rejects a manager id of 0, because 0 is falsy in JavaScript.
  An empty `authorization` header is falsy too: it passes through as the token `""`.
  It is not `null`, so it goes on to verification rather than to 401.

## Model

| member | source | states |
|---|---|---|
| Tables.UserById | expense_management/server/api/expenses.js:154-158 | the row found has the requested id; nothing is found exactly when no row has that id |
| Tables.StepSequence | expense_management/server/api/expenses.js:174-178 | a sequence found belongs to a configured step for that company and role; none exactly when no step has them |
| Tables.StepRoleAt | expense_management/server/api/expenses.js:180-186 | a role found is configured at exactly that sequence for the company; none exactly when no such step exists |
| Tables.HolderIndex | expense_management/server/api/expenses.js:187-190 | the position is that of a holder of the role in the company, and no earlier row holds it; none when no row does |
| Tables.FirstHolder | expense_management/server/api/expenses.js:187-192 | the id returned is that of the first holder in table order; none exactly when nobody in the company holds the role |
| Tables.LastDecision | expense_management/server/api/expenses.js:149-152 | nothing exactly when the log has no record for the expense; otherwise the decision of its latest record |
| Tables.LastDecisionAppend | expense_management/server/api/expenses.js:244-247 | an appended record becomes the latest word on its own expense and changes nothing for others |
| Tables.AuditAfterAppend | expense_management/server/api/expenses.js:149-152 | appending a decision and moving its expense to pending or to that decision keeps "latest record matches terminal status" |
| Tables.RecordKeepsInvariants | expense_management/server/api/expenses.js:149-215 | recording a decision and making its expense consistent keeps every database invariant |
| Tables.DecidedIsAudited | expense_management/server/api/expenses.js:244-247 | every approved or rejected expense has an audit record, and its latest one carries that decision |
| Tables.DecidedIsFinal | expense_management/server/api/expenses.js:139 | a decided expense waits for nobody, so the approve and reject WHERE clauses can never match it again |
| Tables.SpecialUniqueInEveryCompany | expense_management/server/api/admin.js:35-44 | the global special-approver invariant gives "at most one" in each company |
| Middleware.SplitOnSpace | expense_management/server/api/middleware.js:6 | `split(' ')` gives at least one piece, no piece contains a space, and there are two or more pieces exactly when the string has a space |
| Middleware.JoinSplit | expense_management/server/api/middleware.js:6 | re-joining the pieces with single spaces gives back the original header |
| Middleware.SplitJoin | expense_management/server/api/middleware.js:6 | splitting a join of space-free pieces gives back those pieces |
| Middleware.ExtractToken | expense_management/server/api/middleware.js:5-6 | no token exactly when the header is missing, or is non-empty with no space; an empty header yields ""; a token never contains a space |
| Middleware.SecondPiece | expense_management/server/api/middleware.js:6 | for any header made of two or more space-free pieces, the token is exactly the second piece |
| Middleware.BearerRoundTrip | expense_management/server/api/middleware.js:6 | `"<scheme> <token>"` yields exactly `<token>` |
| Middleware.Authenticate | expense_management/server/api/middleware.js:4-15 | 401 exactly when there is no token; 403 exactly when the token fails verification; otherwise the verified payload becomes `req.user` and `next` is called |
| Middleware.NoHeaderIsUnauthorized | expense_management/server/api/middleware.js:5-8 | a request with no authorization header gets 401, whatever the verifier |
| Middleware.NoSpaceIsUnauthorized | expense_management/server/api/middleware.js:6-8 | a non-empty header with no space gets 401 |
| Middleware.BearerIsVerified | expense_management/server/api/middleware.js:10-14 | for `Bearer X`, the outcome is the verifier's verdict on exactly X |
| Middleware.AllowedRoles | expense_management/server/api/middleware.js:21 | a single role becomes the one-element list; a list is kept as it is |
| Middleware.AuthorizeRole | expense_management/server/api/middleware.js:23-27 | `next` is called exactly when the user's role is in the allowed list; otherwise 403 |
| Middleware.OneRoleIsSingletonList | expense_management/server/api/middleware.js:21 | a non-array argument behaves exactly like the one-element list holding it |
| Middleware.OneRoleIsEquality | expense_management/server/api/middleware.js:21-23 | with a single role, the gate admits exactly that role |
| Expenses.SubmitGate | expense_management/server/api/expenses.js:12 | the submission route admits exactly employees |
| Expenses.ReviewGate | expense_management/server/api/expenses.js:123 | the review routes admit exactly managers and directors |
| Expenses.AssignedManager | expense_management/server/api/expenses.js:18-28 | a manager found is nonzero and is the `manager_id` of the submitter's row; an unknown submitter has none |
| Expenses.AssignedManagerOfRow | expense_management/server/api/expenses.js:18-24 | with unique ids, the manager is the submitter's own `manager_id`, with 0 read as missing |
| Expenses.CreateExpense | expense_management/server/api/expenses.js:13-44 | refused with 400 and nothing added exactly when there is no manager; otherwise a fresh id is added, pending, assigned to the manager, with employee and company taken from the actor; invariants kept |
| Expenses.Decided | expense_management/server/api/expenses.js:160-163 | a decided expense keeps its submission fields, takes the terminal status and has no approver |
| Expenses.Route | expense_management/server/api/expenses.js:154-215 | once the audit row is written, approve can only forward, finalise or fail with a server error |
| Expenses.RouteMeaning | expense_management/server/api/expenses.js:154-215 | special actor ⇔ immediate final approval; a forward goes to a company holder of the role configured at exactly sequence+1; "no holder" means that role is vacant; "chain complete" means no step at sequence+1; "config missing" means no step for the actor's role |
| Expenses.SpecialApproverIgnoresChain | expense_management/server/api/expenses.js:154-167 | a special approver's approval is final whatever the chain configuration |
| Expenses.Settle | expense_management/server/api/expenses.js:192-215 | a forward changes only the approver, to a user id, and leaves the status pending; a final outcome sets a terminal status with no approver; an error leaves the expense as it was |
| Expenses.AdvanceExpense | expense_management/server/api/expenses.js:154-215 | the expense becomes the settlement of `Route` on the tables; nothing else changes |
| Expenses.ApproveExpense | expense_management/server/api/expenses.js:124-215 | not the current approver or unknown id: 404 and nothing changes; otherwise exactly one `'approved'` record is appended, and the expense is settled by `Route`; invariants kept |
| Expenses.RejectExpense | expense_management/server/api/expenses.js:228-249 | succeeds exactly when the actor is the current approver; then the expense is rejected with no approver and one `'rejected'` record with the comments is appended; otherwise 404 and nothing changes |
| Expenses.PendingFor | expense_management/server/api/expenses.js:91-97 | every listed expense is pending and assigned to the user, and its row carries the expense's fields and the submitter's name |
| Expenses.PendingListIsActionable | expense_management/server/api/expenses.js:91-97 | under the routing invariant, the list holds exactly the expenses the user may approve or reject (those whose submitter still has a row) |
| Admin.AdminGate | expense_management/server/api/admin.js:11 | the admin routes admit exactly admins |
| Admin.CompanyUsers | expense_management/server/api/admin.js:14-18 | exactly the users whose company is the admin's, each row as often as it occurs in the table (no repeats, none lost) |
| Admin.Designated | expense_management/server/api/admin.js:36-44 | the table keeps its length |
| Admin.DesignatedKeepsRows | expense_management/server/api/admin.js:36-44 | only the special-approver flag of any row changes |
| Admin.DesignatedAtMostOne | expense_management/server/api/admin.js:36-44 | at most one user of the admin's company is flagged afterwards |
| Admin.DesignatedFlagsOnlyTarget | expense_management/server/api/admin.js:36-43 | within the company, a user is flagged exactly when it is the target; the target is flagged whenever it belongs to the company |
| Admin.DesignatedForeignTargetClearsCompany | expense_management/server/api/admin.js:36-44 | a target outside the company, or matching no user, leaves the company with no special approver |
| Admin.DesignatedOtherCompaniesUnchanged | expense_management/server/api/admin.js:37-42 | rows of other companies are unchanged |
| Admin.DesignatedIdempotent | expense_management/server/api/admin.js:36-44 | designating the same target twice gives the same table as doing it once |
| Admin.DesignatedKeepsInvariants | expense_management/server/api/admin.js:36-44 | unique ids and "at most one special approver per company" hold afterwards, stated both globally and company by company |
| Admin.SetSpecialApprover | expense_management/server/api/admin.js:31-45 | the users table becomes the clear-then-set designation; the other tables are unchanged; success is always reported; invariants kept |
| Scenarios.ManagerForwardsToDirector | expense_management/server/api/expenses.js:185-199 | with chain manager:1, director:2, the manager's approval is forwarded to the director |
| Scenarios.DirectorCompletesChain | expense_management/server/api/expenses.js:209-214 | the director's approval is final because there is no step 3 |
| Scenarios.SpecialManagerSkipsDirector | expense_management/server/api/expenses.js:158-166 | a special manager's approval is final, skipping the director |
| Scenarios.OneStepChainCompletes | expense_management/server/api/expenses.js:209-214 | with a one-step chain, the manager's approval is final |
| Scenarios.VacantNextRoleCompletes | expense_management/server/api/expenses.js:200-207 | with no director in the company, the manager's approval is final |

## Left out

- Express wiring, the role gates and the handlers are modelled separately. Each handler takes
  the already-verified `req.user` (`Middleware.Principal`), and each route's gate is a
  constant (`SubmitterRoles`, `ReviewerRoles`, `AdminRoles`) whose meaning
  `Middleware.AuthorizeRole` gives.
- `jwt.verify` and the JWT secret are a foreign library and an env variable. They appear as
  the oracle parameter `verify` of `Middleware.Authenticate`.
- Currency conversion in the pending list is left out: the companies lookup, the rate API
  `fetch`, and float division with `toFixed`. `Expenses.PendingFor` returns the raw rows.
- `created_at` timestamps and the listing's column projections are left out. The listing
  returns whole user rows.
- Route parameters arrive as strings and are cast by the database. The model takes
  expense ids and user ids as numbers, and does not model a malformed id (a 500). For
  set-special (admin.js:31-44) that failure comes from the second UPDATE, after the
  company-wide clear has run: the response is a 500 and the company is left with no special
  approver, which `SetSpecialApprover` (always reporting success) does not capture.
- The model assumes `approval_steps.sequence` is read back as a number, so `sequence + 1`
  at expenses.js:182 is integer addition; a driver that returns the column as a string
  would concatenate instead. This is a schema assumption, like the `'pending'` default.
- Database failures, 500 responses and logging are left out. The exceptions are the two
  failing `rows[0]` reads in approve (`Fault`).
- Concurrency is left out. Each handler is one sequential method. The source's statements
  are not transactional, and races between handlers are not modelled.
- The `GET /my-expenses` listing, `auth.js` (registration, login, bcrypt, token signing,
  the first-user-is-admin bootstrap) and the client are not part of this model.
- The pending list's inner JOIN drops expenses whose submitter has no user row. The
  definition keeps that behaviour, and `PendingListIsActionable` assumes the row exists.
