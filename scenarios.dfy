/**
 Walk-throughs of the routing engine on a small company, written against the
 handlers' contracts only: a two-step chain `manager` (1) then `director` (2).
 */
module Scenarios {
  import opened Wrappers
  import opened Tables
  import opened Middleware
  import opened Expenses

  const Company: CompanyId := 7
  const Employee: User := User(1, "Erin", "erin@example.com", Company, "employee", Some(2), false)
  const Manager: User := User(2, "Mo", "mo@example.com", Company, "manager", None, false)
  const Director: User := User(3, "Dee", "dee@example.com", Company, "director", None, false)
  const Chain: seq<ApprovalStep> := [ApprovalStep(Company, "manager", 1), ApprovalStep(Company, "director", 2)]

  const Staff: seq<User> := [Employee, Manager, Director]

  /** The manager's approval is forwarded to the director. */
  lemma ManagerForwardsToDirector()
    ensures Route(Staff, Chain, Company, 2) == Forwarded(3, "director")
  {
    assert UserById(Staff, 2) == Some(Manager);
    assert StepSequence(Chain, Company, "manager") == Some(1);
    assert StepRoleAt(Chain, Company, 2) == Some("director");
    assert Staff[1..][1..] == [Director];
    assert HolderIndex([Director], Company, "director") == Some(0);
    assert HolderIndex(Staff, Company, "director") == Some(2);
  }

  /** The director's approval ends the chain: there is no step 3. */
  lemma DirectorCompletesChain()
    ensures Route(Staff, Chain, Company, 3) == FinalApproval(ChainComplete)
  {
    assert UserById(Staff, 3) == Some(Director);
    assert StepSequence(Chain, Company, "director") == Some(2);
    assert StepRoleAt(Chain, Company, 3) == None;
  }

  /** A manager flagged as special approver finalises at once, skipping the director. */
  lemma SpecialManagerSkipsDirector()
    ensures Route([Employee, Manager.(isSpecialApprover := true), Director], Chain, Company, 2)
              == FinalApproval(BySpecialApprover)
  {
    assert UserById([Employee, Manager.(isSpecialApprover := true), Director], 2)
             == Some(Manager.(isSpecialApprover := true));
  }

  /** With a one-step chain the manager's approval is final. */
  lemma OneStepChainCompletes()
    ensures Route(Staff, [ApprovalStep(Company, "manager", 1)], Company, 2) == FinalApproval(ChainComplete)
  {
    assert UserById(Staff, 2) == Some(Manager);
  }

  /** With nobody holding the director role the manager's approval is final. */
  lemma VacantNextRoleCompletes()
    ensures Route([Employee, Manager], Chain, Company, 2) == FinalApproval(NoHolderForNextRole)
  {
    assert UserById([Employee, Manager], 2) == Some(Manager);
    assert StepSequence(Chain, Company, "manager") == Some(1);
    assert StepRoleAt(Chain, Company, 2) == Some("director");
  }

  /** Submission, approval by the manager (forwarded to the director), approval by the director (final). */
  method TwoStepApproval()
  {
    var db := new Database(Staff, Chain);
    var created := CreateExpense(db, Principal(1, "employee", Company), 120.0, "EUR", "travel", "train");
    assert AssignedManager(db.users, 1) == Some(2);
    var id := created.id;

    ManagerForwardsToDirector();
    var first := ApproveExpense(db, Principal(2, "manager", Company), id, None);
    assert first == Forwarded(3, "director");
    assert db.expenses[id].status == Pending && db.expenses[id].currentApprover == Some(3);

    var again := ApproveExpense(db, Principal(2, "manager", Company), id, None);
    assert again == NotCurrentApprover;

    DirectorCompletesChain();
    var second := ApproveExpense(db, Principal(3, "director", Company), id, Some("ok"));
    assert second == FinalApproval(ChainComplete);
    assert db.expenses[id].status == Approved && db.expenses[id].currentApprover == None;
    assert |db.approvals| == 2;
  }

  /** Rejection by the manager with a comment is final and audited. */
  method RejectionWithComment()
  {
    var db := new Database(Staff, Chain);
    var created := CreateExpense(db, Principal(1, "employee", Company), 40.0, "EUR", "meals", "lunch");
    assert AssignedManager(db.users, 1) == Some(2);
    var id := created.id;
    var r := RejectExpense(db, Principal(2, "manager", Company), id, Some("missing receipt"));
    assert r == FinalRejection;
    assert db.expenses[id].status == Rejected && db.expenses[id].currentApprover == None;
    assert db.approvals == [ApprovalRecord(id, 2, Reject, Some("missing receipt"))];
  }

  /** An employee without a manager cannot submit. */
  method SubmissionWithoutManager()
  {
    var loner := User(4, "Lee", "lee@example.com", Company, "employee", None, false);
    var db := new Database([loner, Manager], Chain);
    var r := CreateExpense(db, Principal(4, "employee", Company), 9.0, "EUR", "misc", "pens");
    assert UserById(db.users, 4) == Some(loner);
    assert r == NoManagerAssigned;
    assert db.expenses == map[];
  }
}
