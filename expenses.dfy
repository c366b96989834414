/**
 The expense routes: submission, the approver's pending list, and the approval
 router that approve and reject drive. Each handler is one sequential method over
 the database, issuing its statements in the order the route does.
 */
module Expenses {
  import opened Wrappers
  import opened Tables
  import opened Middleware

  /** Role gates of the routes: submission is for employees, review for managers and directors. */
  const SubmitterRoles: RoleArg := OneRole("employee")
  const ReviewerRoles: RoleArg := RoleList(["manager", "director"])

  /** The submission route admits exactly employees. */
  lemma SubmitGate(role: string)
    ensures AuthorizeRole(SubmitterRoles, role) == Next <==> role == "employee"
  {
    assert AllowedRoles(SubmitterRoles) == ["employee"];
  }

  /** The review routes admit exactly managers and directors. */
  lemma ReviewGate(role: string)
    ensures AuthorizeRole(ReviewerRoles, role) == Next <==> role == "manager" || role == "director"
  {
    assert AllowedRoles(ReviewerRoles) == ["manager", "director"];
  }

  // ---------------------------------------------------------------------------
  // Submission
  // ---------------------------------------------------------------------------

  /**
   `managerResult.rows[0]?.manager_id` followed by the `!manager_id` test: the
   submitter's manager, or nothing when the user row is missing or its
   `manager_id` is NULL or the falsy 0.
   */
  function AssignedManager(users: seq<User>, employeeId: UserId): (m: Option<UserId>)
    ensures m.Some? ==> m.value != 0 && exists u :: u in users && u.id == employeeId && u.managerId == m
    ensures (forall u :: u in users ==> u.id != employeeId) ==> m.None?
  {
    match UserById(users, employeeId)
    case None => None
    case Some(u) => if u.managerId.Some? && u.managerId.value != 0 then u.managerId else None
  }

  /** With `users.id` a key, the manager found is the submitter's own `manager_id`. */
  lemma AssignedManagerOfRow(users: seq<User>, u: User)
    requires UniqueIds(users) && u in users
    ensures AssignedManager(users, u.id) == if u.managerId == Some(0) then None else u.managerId
  {
    var v := UserById(users, u.id).value;
    var i :| 0 <= i < |users| && users[i] == u;
    var j :| 0 <= j < |users| && users[j] == v;
    assert i == j;
  }

  datatype CreateOutcome =
    | Created(id: ExpenseId)  // 201 with the new row
    | NoManagerAssigned       // 400

  /** `POST /api/expenses` by the authenticated `actor`. */
  method CreateExpense(db: Database, actor: Principal, amount: real, currency: string,
                       category: string, description: string)
    returns (r: CreateOutcome)
    requires db.Valid()
    modifies db
    ensures db.Valid()
    ensures db.users == old(db.users) && db.steps == old(db.steps) && db.approvals == old(db.approvals)
    ensures r == NoManagerAssigned <==> AssignedManager(old(db.users), actor.id).None?
    ensures r == NoManagerAssigned ==> db.expenses == old(db.expenses)
    ensures r.Created? ==>
      && r.id !in old(db.expenses)
      && db.expenses == old(db.expenses)[r.id := Expense(actor.id, actor.companyId, amount, currency,
                                                         category, description, Pending,
                                                         AssignedManager(old(db.users), actor.id))]
  {
    var manager := AssignedManager(db.users, actor.id);
    if manager.None? {
      return NoManagerAssigned;
    }
    var id := db.nextExpenseId;
    db.expenses := db.expenses[id := Expense(actor.id, actor.companyId, amount, currency,
                                             category, description, DefaultStatus, manager)];
    db.nextExpenseId := id + 1;
    r := Created(id);
  }

  // ---------------------------------------------------------------------------
  // Routing decisions
  // ---------------------------------------------------------------------------

  /** The server-side failures of approve: a query whose `rows[0]` is undefined. */
  datatype Fault =
    | ApproverRowMissing  // no `users` row for the actor
    | ChainConfigMissing  // no `approval_steps` row for the actor's role

  datatype FinalReason = BySpecialApprover | NoHolderForNextRole | ChainComplete

  /** What approve or reject reports. */
  datatype RoutingOutcome =
    | NotCurrentApprover                // 404 "not found or you're not the current approver"
    | ServerError(fault: Fault)         // 500
    | Forwarded(to: UserId, role: Role) // reassigned to the holder of the next role
    | FinalApproval(reason: FinalReason)
    | FinalRejection

  /** The fields fixed at submission. */
  predicate SameSubmission(e: Expense, e': Expense) {
    && e'.employeeId == e.employeeId && e'.companyId == e.companyId
    && e'.amount == e.amount && e'.currency == e.currency
    && e'.category == e.category && e'.description == e.description
  }

  /** The terminal UPDATE: status `s` and no current approver. */
  function Decided(e: Expense, s: Status): (e': Expense)
    requires s != Pending
    ensures SameSubmission(e, e') && Consistent(e')
    ensures e'.status == s
  {
    e.(status := s, currentApprover := None)
  }

  /**
   The decision approve takes once the audit row is written, read from the
   tables: `users` for the actor's flag and role, `approval_steps` for the
   actor's sequence number and the role at the next one, `users` again for a
   holder of that role in the expense's company.
   */
  function Route(users: seq<User>, steps: seq<ApprovalStep>, company: CompanyId, actorId: UserId)
    : (r: RoutingOutcome)
    ensures r.ServerError? || r.Forwarded? || r.FinalApproval?
  {
    match UserById(users, actorId)
    case None => ServerError(ApproverRowMissing)
    case Some(actor) =>
      if actor.isSpecialApprover then FinalApproval(BySpecialApprover)
      else match StepSequence(steps, company, actor.role)
        case None => ServerError(ChainConfigMissing)
        case Some(s) =>
          match StepRoleAt(steps, company, s + 1)
          case None => FinalApproval(ChainComplete)
          case Some(nextRole) =>
            match FirstHolder(users, company, nextRole)
            case Some(h) => Forwarded(h, nextRole)
            case None => FinalApproval(NoHolderForNextRole)
  }

  /**
   What each routing outcome says about the tables: which rows were missing,
   which step follows the actor's, and who holds its role.
   */
  lemma RouteMeaning(users: seq<User>, steps: seq<ApprovalStep>, company: CompanyId, actorId: UserId)
    ensures var r := Route(users, steps, company, actorId);
      && (r == ServerError(ApproverRowMissing) <==> forall u :: u in users ==> u.id != actorId)
      && (r == FinalApproval(BySpecialApprover) <==>
            UserById(users, actorId).Some? && UserById(users, actorId).value.isSpecialApprover)
      && (r == ServerError(ChainConfigMissing) ==>
            && UserById(users, actorId).Some?
            && forall st :: st in steps ==>
                 !(st.companyId == company && st.approverRole == UserById(users, actorId).value.role))
      && (r.Forwarded? || r == FinalApproval(NoHolderForNextRole) || r == FinalApproval(ChainComplete) ==>
            && UserById(users, actorId).Some?
            && !UserById(users, actorId).value.isSpecialApprover
            && StepSequence(steps, company, UserById(users, actorId).value.role).Some?)
      && (r.Forwarded? ==>
            && StepRoleAt(steps, company,
                 StepSequence(steps, company, UserById(users, actorId).value.role).value + 1) == Some(r.role)
            && exists h :: h in users && h.id == r.to && Holds(h, company, r.role))
      && (r == FinalApproval(NoHolderForNextRole) ==>
            var next := StepRoleAt(steps, company,
                          StepSequence(steps, company, UserById(users, actorId).value.role).value + 1);
            && next.Some?
            && forall u :: u in users ==> !Holds(u, company, next.value))
      && (r == FinalApproval(ChainComplete) ==>
            var s := StepSequence(steps, company, UserById(users, actorId).value.role).value;
            forall st :: st in steps ==> !(st.companyId == company && st.sequence == s + 1))
  {
  }

  /** The special approver's approval is final whatever the chain configuration says. */
  lemma SpecialApproverIgnoresChain(users: seq<User>, steps: seq<ApprovalStep>, company: CompanyId, a: User)
    requires UniqueIds(users) && a in users && a.isSpecialApprover
    ensures Route(users, steps, company, a.id) == FinalApproval(BySpecialApprover)
  {
    var v := UserById(users, a.id).value;
    var i :| 0 <= i < |users| && users[i] == a;
    var j :| 0 <= j < |users| && users[j] == v;
    assert i == j;
  }

  /** The expense after a routing outcome; only `status` and `current_approver_id` move. */
  function Settle(e: Expense, r: RoutingOutcome): (e': Expense)
    requires Consistent(e) && e.status == Pending
    ensures SameSubmission(e, e') && Consistent(e')
    ensures r.Forwarded? ==> e'.status == e.status && e'.currentApprover == Some(r.to)
    ensures r.FinalApproval? ==> e'.status == Approved && e'.currentApprover.None?
    ensures r == FinalRejection ==> e'.status == Rejected && e'.currentApprover.None?
    ensures r.NotCurrentApprover? || r.ServerError? ==> e' == e
  {
    match r
    case Forwarded(to, _) => e.(currentApprover := Some(to))
    case FinalApproval(_) => Decided(e, Approved)
    case FinalRejection => Decided(e, Rejected)
    case _ => e
  }

  /**
   The part of approve after the audit row is written: the special-approver
   check, the chain lookup and the UPDATE of the expense, in the route's order.
   */
  method AdvanceExpense(db: Database, id: ExpenseId, actorId: UserId) returns (r: RoutingOutcome)
    requires id in db.expenses && Consistent(db.expenses[id]) && db.expenses[id].status == Pending
    modifies db
    ensures r == Route(db.users, db.steps, old(db.expenses)[id].companyId, actorId)
    ensures db.expenses == old(db.expenses)[id := Settle(old(db.expenses)[id], r)]
    ensures db.users == old(db.users) && db.steps == old(db.steps)
    ensures db.approvals == old(db.approvals) && db.nextExpenseId == old(db.nextExpenseId)
  {
    var e := db.expenses[id];
    ghost var routed := Route(db.users, db.steps, e.companyId, actorId);
    var approver := UserById(db.users, actorId);
    if approver.None? {
      assert e == Settle(e, ServerError(ApproverRowMissing));
      assert db.expenses[id := e] == db.expenses;
      return ServerError(ApproverRowMissing);
    }
    if approver.value.isSpecialApprover {
      r := FinalApproval(BySpecialApprover);
      db.expenses := db.expenses[id := Decided(e, Approved)];
      return;
    }
    var currentRole := approver.value.role;
    var currentSequence := StepSequence(db.steps, e.companyId, currentRole);
    if currentSequence.None? {
      assert e == Settle(e, ServerError(ChainConfigMissing));
      assert db.expenses[id := e] == db.expenses;
      return ServerError(ChainConfigMissing);
    }
    var nextRole := StepRoleAt(db.steps, e.companyId, currentSequence.value + 1);
    if nextRole.Some? {
      var nextApprover := FirstHolder(db.users, e.companyId, nextRole.value);
      if nextApprover.Some? {
        r := Forwarded(nextApprover.value, nextRole.value);
        db.expenses := db.expenses[id := e.(currentApprover := nextApprover)];
      } else {
        r := FinalApproval(NoHolderForNextRole);
        db.expenses := db.expenses[id := Decided(e, Approved)];
      }
    } else {
      r := FinalApproval(ChainComplete);
      db.expenses := db.expenses[id := Decided(e, Approved)];
    }
  }

  /**
   `PUT /api/expenses/:id/approve` by `actor`. The audit row is inserted before
   the lookups that can fail, so a server error leaves it in place with the
   expense untouched.
   */
  method ApproveExpense(db: Database, actor: Principal, id: ExpenseId, comments: Option<string>)
    returns (r: RoutingOutcome)
    requires db.Valid()
    modifies db
    ensures db.Valid()
    ensures db.users == old(db.users) && db.steps == old(db.steps) && db.nextExpenseId == old(db.nextExpenseId)
    ensures !AwaitsActor(old(db.expenses), id, actor.id) ==>
              && r == NotCurrentApprover
              && db.expenses == old(db.expenses) && db.approvals == old(db.approvals)
    ensures AwaitsActor(old(db.expenses), id, actor.id) ==>
              && r == Route(old(db.users), old(db.steps), old(db.expenses)[id].companyId, actor.id)
              && db.approvals == old(db.approvals) + [ApprovalRecord(id, actor.id, Approve, comments)]
              && db.expenses == old(db.expenses)[id := Settle(old(db.expenses)[id], r)]
  {
    if id !in db.expenses || db.expenses[id].currentApprover != Some(actor.id) {
      return NotCurrentApprover;
    }
    var e := db.expenses[id];
    var rec := ApprovalRecord(id, actor.id, Approve, comments);
    db.approvals := db.approvals + [rec];
    r := AdvanceExpense(db, id, actor.id);
    RecordKeepsInvariants(old(db.users), old(db.expenses), old(db.approvals), old(db.nextExpenseId),
                          rec, Settle(e, r));
  }

  /**
   `PUT /api/expenses/:id/reject` by `actor`: the conditional UPDATE, then the
   audit row when a row was updated.
   */
  method RejectExpense(db: Database, actor: Principal, id: ExpenseId, comments: Option<string>)
    returns (r: RoutingOutcome)
    requires db.Valid()
    modifies db
    ensures db.Valid()
    ensures db.users == old(db.users) && db.steps == old(db.steps) && db.nextExpenseId == old(db.nextExpenseId)
    ensures r == if AwaitsActor(old(db.expenses), id, actor.id) then FinalRejection else NotCurrentApprover
    ensures r == NotCurrentApprover ==> db.expenses == old(db.expenses) && db.approvals == old(db.approvals)
    ensures r == FinalRejection ==>
              && db.expenses == old(db.expenses)[id := Decided(old(db.expenses)[id], Rejected)]
              && db.approvals == old(db.approvals) + [ApprovalRecord(id, actor.id, Reject, comments)]
  {
    if id !in db.expenses || db.expenses[id].currentApprover != Some(actor.id) {
      return NotCurrentApprover;
    }
    var rec := ApprovalRecord(id, actor.id, Reject, comments);
    RecordKeepsInvariants(db.users, db.expenses, db.approvals, db.nextExpenseId, rec, Decided(db.expenses[id], Rejected));
    db.expenses := db.expenses[id := Decided(db.expenses[id], Rejected)];
    db.approvals := db.approvals + [rec];
    r := FinalRejection;
  }

  // ---------------------------------------------------------------------------
  // The approver's pending list
  // ---------------------------------------------------------------------------

  /** A row of `GET /api/expenses/pending`, before the currency conversion is added. */
  datatype PendingRow = PendingRow(
    amount: real, currency: string, category: string, description: string, employeeName: string)

  /**
   The pending-list query, keyed by expense id: pending expenses assigned to
   `uid`, joined with their submitter's user row for the name.
   */
  function PendingFor(expenses: map<ExpenseId, Expense>, users: seq<User>, uid: UserId)
    : (rows: map<ExpenseId, PendingRow>)
    ensures forall id :: id in rows ==> AwaitsActor(expenses, id, uid) && expenses[id].status == Pending
    ensures forall id :: id in rows ==>
              && id in expenses
              && rows[id].amount == expenses[id].amount && rows[id].currency == expenses[id].currency
              && rows[id].category == expenses[id].category && rows[id].description == expenses[id].description
              && exists u :: u in users && u.id == expenses[id].employeeId && u.name == rows[id].employeeName
  {
    map id | id in expenses && expenses[id].currentApprover == Some(uid) && expenses[id].status == Pending
                            && UserById(users, expenses[id].employeeId).Some?
      :: PendingRow(expenses[id].amount, expenses[id].currency, expenses[id].category,
                    expenses[id].description, UserById(users, expenses[id].employeeId).value.name)
  }

  /**
   Under the routing invariant the pending list holds exactly the expenses the
   user may approve or reject (those whose submitter still has a user row).
   */
  lemma PendingListIsActionable(expenses: map<ExpenseId, Expense>, users: seq<User>, uid: UserId, id: ExpenseId)
    requires AllConsistent(expenses)
    requires id in expenses ==> exists u :: u in users && u.id == expenses[id].employeeId
    ensures id in PendingFor(expenses, users, uid) <==> AwaitsActor(expenses, id, uid)
  {
  }
}
