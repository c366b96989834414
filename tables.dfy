/**
 The persisted state the route handlers work on: the `users`, `expenses`,
 `approval_steps` and `approvals` tables, the single-row lookups the handlers
 issue against them, and the invariants every handler keeps.
 */
module Tables {
  import opened Wrappers

  type UserId = nat
  type CompanyId = nat
  type ExpenseId = nat
  type Role = string

  /** A row of `users`. */
  datatype User = User(
    id: UserId,
    name: string,
    email: string,
    companyId: CompanyId,
    role: Role,
    managerId: Option<UserId>,
    isSpecialApprover: bool)

  datatype Status = Pending | Approved | Rejected

  /** A row of `expenses`; `currentApprover` is the nullable `current_approver_id`. */
  datatype Expense = Expense(
    employeeId: UserId,
    companyId: CompanyId,
    amount: real,
    currency: string,
    category: string,
    description: string,
    status: Status,
    currentApprover: Option<UserId>)

  /** A row of `approval_steps`. */
  datatype ApprovalStep = ApprovalStep(companyId: CompanyId, approverRole: Role, sequence: int)

  /** The `status` column of `approvals`: 'approved' or 'rejected'. */
  datatype Decision = Approve | Reject

  /** A row of the append-only `approvals` audit table. */
  datatype ApprovalRecord = ApprovalRecord(
    expenseId: ExpenseId,
    approverId: UserId,
    decision: Decision,
    comments: Option<string>)

  /**
   The creation INSERT does not name `status`: a new expense gets the column's
   default, which the database schema sets to 'pending'. This constant is that
   assumption about the schema.
   */
  const DefaultStatus: Status := Pending

  /*
   A second schema assumption: `approval_steps.sequence` is an integer column
   that the database driver hands back as a number, so the handler's
   `sequence + 1` is integer addition (as `sequence: int` has it here). A column
   read back as a string would turn that `+` into concatenation.
   */

  /** The user row with the given id; the first one in table order. */
  function UserById(users: seq<User>, id: UserId): (r: Option<User>)
    ensures r.Some? ==> r.value in users && r.value.id == id
    ensures r.None? <==> forall u :: u in users ==> u.id != id
  {
    if |users| == 0 then None
    else if users[0].id == id then Some(users[0])
    else UserById(users[1..], id)
  }

  /** The sequence number of the first step configured for `role` in `company`. */
  function StepSequence(steps: seq<ApprovalStep>, company: CompanyId, role: Role): (r: Option<int>)
    ensures r.Some? ==> ApprovalStep(company, role, r.value) in steps
    ensures r.None? <==> forall st :: st in steps ==> !(st.companyId == company && st.approverRole == role)
  {
    if |steps| == 0 then None
    else if steps[0].companyId == company && steps[0].approverRole == role then Some(steps[0].sequence)
    else StepSequence(steps[1..], company, role)
  }

  /** The role of the first step configured at exactly `sequence` in `company`. */
  function StepRoleAt(steps: seq<ApprovalStep>, company: CompanyId, sequence: int): (r: Option<Role>)
    ensures r.Some? ==> ApprovalStep(company, r.value, sequence) in steps
    ensures r.None? <==> forall st :: st in steps ==> !(st.companyId == company && st.sequence == sequence)
  {
    if |steps| == 0 then None
    else if steps[0].companyId == company && steps[0].sequence == sequence then Some(steps[0].approverRole)
    else StepRoleAt(steps[1..], company, sequence)
  }

  /** User `u` belongs to `company` and has `role`. */
  predicate Holds(u: User, company: CompanyId, role: Role) {
    u.companyId == company && u.role == role
  }

  /** The position of the first user of `company` with `role`, in table order. */
  function HolderIndex(users: seq<User>, company: CompanyId, role: Role): (r: Option<nat>)
    ensures r.Some? ==> r.value < |users| && Holds(users[r.value], company, role)
    ensures r.Some? ==> forall k :: 0 <= k < r.value ==> !Holds(users[k], company, role)
    ensures r.None? ==> forall k :: 0 <= k < |users| ==> !Holds(users[k], company, role)
  {
    if |users| == 0 then None
    else if Holds(users[0], company, role) then Some(0)
    else match HolderIndex(users[1..], company, role)
      case None => None
      case Some(i) => Some(i + 1)
  }

  /**
   The single holder the forwarding query picks: the first user of the company
   with the role, rows taken in table order.
   */
  function FirstHolder(users: seq<User>, company: CompanyId, role: Role): (r: Option<UserId>)
    ensures r.Some? ==> exists k :: 0 <= k < |users| && users[k].id == r.value && Holds(users[k], company, role)
                                   && forall j :: 0 <= j < k ==> !Holds(users[j], company, role)
    ensures r.None? <==> forall u :: u in users ==> !Holds(u, company, role)
  {
    match HolderIndex(users, company, role)
    case Some(i) => Some(users[i].id)
    case None => None
  }

  /** The decision that leaves an expense in status `s`, if `s` is terminal. */
  function DecisionFor(s: Status): (d: Option<Decision>)
    ensures d.None? <==> s == Pending
  {
    match s
    case Pending => None
    case Approved => Some(Approve)
    case Rejected => Some(Reject)
  }

  /** The decision of the most recent audit record about expense `id`, if any. */
  function LastDecision(log: seq<ApprovalRecord>, id: ExpenseId): (r: Option<Decision>)
    ensures r.None? <==> forall k :: 0 <= k < |log| ==> log[k].expenseId != id
    ensures r.Some? ==> exists k :: 0 <= k < |log| && log[k].expenseId == id && log[k].decision == r.value
                                   && forall j :: k < j < |log| ==> log[j].expenseId != id
  {
    if |log| == 0 then None
    else if log[|log| - 1].expenseId == id then Some(log[|log| - 1].decision)
    else LastDecision(log[..|log| - 1], id)
  }

  /** Appending a record makes it the last word on its own expense and on no other. */
  lemma LastDecisionAppend(log: seq<ApprovalRecord>, rec: ApprovalRecord, id: ExpenseId)
    ensures LastDecision(log + [rec], id) == if rec.expenseId == id then Some(rec.decision) else LastDecision(log, id)
  {
    assert (log + [rec])[..|log|] == log;
  }

  /**
   Appending the record of a decision on expense `id` keeps the audit invariant,
   provided the expense afterwards is still pending or carries that decision.
   */
  lemma AuditAfterAppend(expenses: map<ExpenseId, Expense>, log: seq<ApprovalRecord>,
                         rec: ApprovalRecord, e: Expense)
    requires AuditMatches(expenses, log)
    requires e.status == Pending || DecisionFor(e.status) == Some(rec.decision)
    ensures AuditMatches(expenses[rec.expenseId := e], log + [rec])
  {
    var updated := expenses[rec.expenseId := e];
    forall id | id in updated && updated[id].status != Pending
      ensures LastDecision(log + [rec], id) == DecisionFor(updated[id].status)
    {
      LastDecisionAppend(log, rec, id);
    }
  }

  /** A decided expense has at least one audit record, and the latest one carries its decision. */
  lemma DecidedIsAudited(expenses: map<ExpenseId, Expense>, log: seq<ApprovalRecord>, id: ExpenseId)
    requires AuditMatches(expenses, log)
    requires id in expenses && expenses[id].status != Pending
    ensures exists k :: 0 <= k < |log| && log[k].expenseId == id && Some(log[k].decision) == DecisionFor(expenses[id].status)
                        && forall j :: k < j < |log| ==> log[j].expenseId != id
  {
  }

  /** `users.id` is a primary key. */
  predicate UniqueIds(users: seq<User>) {
    forall i, j :: 0 <= i < |users| && 0 <= j < |users| && users[i].id == users[j].id ==> i == j
  }

  /** At most one user of company `c` is flagged as special approver. */
  predicate AtMostOneSpecial(users: seq<User>, c: CompanyId) {
    forall i, j ::
      (0 <= i < |users| && 0 <= j < |users| &&
       users[i].companyId == c && users[j].companyId == c &&
       users[i].isSpecialApprover && users[j].isSpecialApprover) ==> i == j
  }

  /** At most one special approver in every company. */
  predicate SpecialUnique(users: seq<User>) {
    forall i, j ::
      (0 <= i < |users| && 0 <= j < |users| &&
       users[i].companyId == users[j].companyId &&
       users[i].isSpecialApprover && users[j].isSpecialApprover) ==> i == j
  }

  lemma SpecialUniqueInEveryCompany(users: seq<User>, c: CompanyId)
    requires SpecialUnique(users)
    ensures AtMostOneSpecial(users, c)
  {
  }

  /** The routing invariant: an expense is pending exactly when it has a current approver. */
  predicate Consistent(e: Expense) {
    e.status == Pending <==> e.currentApprover.Some?
  }

  predicate AllConsistent(expenses: map<ExpenseId, Expense>) {
    forall id :: id in expenses ==> Consistent(expenses[id])
  }

  /** Every decided expense has an audit record, and its latest one matches the decision. */
  predicate AuditMatches(expenses: map<ExpenseId, Expense>, log: seq<ApprovalRecord>) {
    forall id :: id in expenses && expenses[id].status != Pending ==>
      LastDecision(log, id) == DecisionFor(expenses[id].status)
  }

  /** Expense `id` exists and is waiting for user `uid`: the WHERE clause of approve and reject. */
  predicate AwaitsActor(expenses: map<ExpenseId, Expense>, id: ExpenseId, uid: UserId) {
    id in expenses && expenses[id].currentApprover == Some(uid)
  }

  /** A decided expense waits for nobody, so neither approve nor reject can touch it again. */
  lemma DecidedIsFinal(expenses: map<ExpenseId, Expense>, id: ExpenseId, uid: UserId)
    requires AllConsistent(expenses)
    requires id in expenses && expenses[id].status != Pending
    ensures !AwaitsActor(expenses, id, uid)
  {
  }

  /** The invariants of the database, on the table values. */
  predicate TablesValid(users: seq<User>, expenses: map<ExpenseId, Expense>,
                        log: seq<ApprovalRecord>, nextExpenseId: ExpenseId) {
    && UniqueIds(users)
    && SpecialUnique(users)
    && (forall id :: id in expenses ==> id < nextExpenseId)
    && AllConsistent(expenses)
    && AuditMatches(expenses, log)
  }

  /**
   Recording a decision on an existing expense and moving that expense to a
   consistent state that is still pending or carries the decision keeps every
   invariant.
   */
  lemma RecordKeepsInvariants(users: seq<User>, expenses: map<ExpenseId, Expense>,
                              log: seq<ApprovalRecord>, next: ExpenseId,
                              rec: ApprovalRecord, e: Expense)
    requires TablesValid(users, expenses, log, next)
    requires rec.expenseId in expenses
    requires Consistent(e)
    requires e.status == Pending || DecisionFor(e.status) == Some(rec.decision)
    ensures TablesValid(users, expenses[rec.expenseId := e], log + [rec], next)
  {
    AuditAfterAppend(expenses, log, rec, e);
  }

  /** The database: one field per table, plus the serial counter of `expenses.id`. */
  class Database {
    var users: seq<User>
    var expenses: map<ExpenseId, Expense>
    var steps: seq<ApprovalStep>
    var approvals: seq<ApprovalRecord>
    var nextExpenseId: ExpenseId

    ghost predicate Valid()
      reads this
    {
      TablesValid(users, expenses, approvals, nextExpenseId)
    }

    /** A database with the given users and chain configuration and no expenses yet. */
    constructor (initialUsers: seq<User>, initialSteps: seq<ApprovalStep>)
      requires UniqueIds(initialUsers) && SpecialUnique(initialUsers)
      ensures Valid()
      ensures users == initialUsers && steps == initialSteps
      ensures expenses == map[] && approvals == []
    {
      users := initialUsers;
      steps := initialSteps;
      expenses := map[];
      approvals := [];
      nextExpenseId := 1;
    }
  }
}
