/**
 The admin routes: the company's user listing and the designation of the
 company's special approver.
 */
module Admin {
  import opened Wrappers
  import opened Tables
  import opened Middleware

  /** Both admin routes are for admins only. */
  const AdminRoles: RoleArg := OneRole("admin")

  /** The admin routes admit exactly admins. */
  lemma AdminGate(role: string)
    ensures AuthorizeRole(AdminRoles, role) == Next <==> role == "admin"
  {
    assert AllowedRoles(AdminRoles) == ["admin"];
  }

  /** The listing query: the company's user rows, each once, in table order. */
  function CompanyUsers(users: seq<User>, company: CompanyId): (r: seq<User>)
    ensures forall u :: u in r <==> u in users && u.companyId == company
    ensures forall u :: multiset(r)[u] == if u.companyId == company then multiset(users)[u] else 0
    ensures |r| <= |users|
  {
    if |users| == 0 then []
    else
      assert users == [users[0]] + users[1..];
      if users[0].companyId == company then [users[0]] + CompanyUsers(users[1..], company)
    else CompanyUsers(users[1..], company)
  }

  /** The company-wide clear, on one row: a user of `company` loses the flag. */
  function Cleared(u: User, company: CompanyId): (u': User) {
    if u.companyId == company then u.(isSpecialApprover := false) else u
  }

  /** The set on the target, on one row: the target, if it belongs to `company`, gets the flag. */
  function Flagged(u: User, company: CompanyId, target: UserId): (u': User) {
    if u.id == target && u.companyId == company then u.(isSpecialApprover := true) else u
  }

  /** The users table after the clear and then the set. */
  function Designated(users: seq<User>, company: CompanyId, target: UserId): (r: seq<User>)
    ensures |r| == |users|
  {
    seq(|users|, i requires 0 <= i < |users| => Flagged(Cleared(users[i], company), company, target))
  }

  /** Only the flag moves: every row keeps its id, company, role and other columns. */
  lemma DesignatedKeepsRows(users: seq<User>, company: CompanyId, target: UserId)
    ensures forall i :: 0 <= i < |users| ==>
              Designated(users, company, target)[i] == users[i].(isSpecialApprover := Designated(users, company, target)[i].isSpecialApprover)
  {
  }

  /** After the designation the company has at most one special approver. */
  lemma DesignatedAtMostOne(users: seq<User>, company: CompanyId, target: UserId)
    requires UniqueIds(users)
    ensures AtMostOneSpecial(Designated(users, company, target), company)
  {
    var r := Designated(users, company, target);
    forall i, j | 0 <= i < |r| && 0 <= j < |r| && r[i].companyId == company && r[j].companyId == company
                  && r[i].isSpecialApprover && r[j].isSpecialApprover
      ensures i == j
    {
      assert users[i].id == target && users[j].id == target;
    }
  }

  /**
   The target ends up flagged exactly when it belongs to the admin's company,
   and every other user of that company ends up unflagged.
   */
  lemma DesignatedFlagsOnlyTarget(users: seq<User>, company: CompanyId, target: UserId)
    ensures forall i :: 0 <= i < |users| && users[i].companyId == company ==>
              Designated(users, company, target)[i].isSpecialApprover == (users[i].id == target)
    ensures forall i :: 0 <= i < |users| && users[i].id == target ==>
              Designated(users, company, target)[i].isSpecialApprover ==
                (users[i].companyId == company || users[i].isSpecialApprover)
  {
  }

  /** A target outside the company (or matching no user) leaves the company with no special approver. */
  lemma DesignatedForeignTargetClearsCompany(users: seq<User>, company: CompanyId, target: UserId)
    requires forall u :: u in users && u.id == target ==> u.companyId != company
    ensures forall u :: u in Designated(users, company, target) && u.companyId == company ==> !u.isSpecialApprover
  {
    var r := Designated(users, company, target);
    forall u | u in r && u.companyId == company
      ensures !u.isSpecialApprover
    {
      var i :| 0 <= i < |r| && r[i] == u;
      assert users[i] in users;
    }
  }

  /** Users of other companies keep their flag: both UPDATEs are scoped by company. */
  lemma DesignatedOtherCompaniesUnchanged(users: seq<User>, company: CompanyId, target: UserId)
    ensures forall i :: 0 <= i < |users| && users[i].companyId != company ==>
              Designated(users, company, target)[i] == users[i]
  {
  }

  /** Designating the same target twice gives the same table as designating it once. */
  lemma DesignatedIdempotent(users: seq<User>, company: CompanyId, target: UserId)
    ensures Designated(Designated(users, company, target), company, target) == Designated(users, company, target)
  {
    var once := Designated(users, company, target);
    var twice := Designated(once, company, target);
    assert forall i :: 0 <= i < |once| ==> twice[i] == once[i];
  }

  /** The designation keeps every invariant on the users table, for every company. */
  lemma DesignatedKeepsInvariants(users: seq<User>, company: CompanyId, target: UserId)
    requires UniqueIds(users) && SpecialUnique(users)
    ensures UniqueIds(Designated(users, company, target))
    ensures SpecialUnique(Designated(users, company, target))
    ensures forall c :: AtMostOneSpecial(Designated(users, company, target), c)
  {
    var r := Designated(users, company, target);
    DesignatedAtMostOne(users, company, target);
    forall i, j | 0 <= i < |r| && 0 <= j < |r| && r[i].companyId == r[j].companyId
                  && r[i].isSpecialApprover && r[j].isSpecialApprover
      ensures i == j
    {
      if r[i].companyId != company {
        assert r[i] == users[i] && r[j] == users[j];
      }
    }
    forall c
      ensures AtMostOneSpecial(r, c)
    {
      SpecialUniqueInEveryCompany(r, c);
    }
  }

  /** The response of set-special: it reports success whether or not a row was flagged. */
  datatype SetSpecialOutcome = SpecialApproverUpdated

  /**
   `PUT /api/admin/users/:id/set-special` by `admin`: the company-wide clear,
   row by row, then the set on the target, row by row.
   */
  method SetSpecialApprover(db: Database, admin: Principal, target: UserId) returns (r: SetSpecialOutcome)
    requires db.Valid()
    modifies db
    ensures db.Valid()
    ensures db.users == Designated(old(db.users), admin.companyId, target)
    ensures db.expenses == old(db.expenses) && db.steps == old(db.steps)
    ensures db.approvals == old(db.approvals) && db.nextExpenseId == old(db.nextExpenseId)
    ensures r == SpecialApproverUpdated
  {
    var company := admin.companyId;
    var i := 0;
    while i < |db.users|
      invariant 0 <= i <= |db.users| == |old(db.users)|
      invariant forall k :: 0 <= k < i ==> db.users[k] == Cleared(old(db.users)[k], company)
      invariant forall k :: i <= k < |db.users| ==> db.users[k] == old(db.users)[k]
      invariant db.expenses == old(db.expenses) && db.steps == old(db.steps)
      invariant db.approvals == old(db.approvals) && db.nextExpenseId == old(db.nextExpenseId)
    {
      if db.users[i].companyId == company {
        db.users := db.users[i := db.users[i].(isSpecialApprover := false)];
      }
      i := i + 1;
    }
    i := 0;
    while i < |db.users|
      invariant 0 <= i <= |db.users| == |old(db.users)|
      invariant forall k :: 0 <= k < i ==>
                  db.users[k] == Flagged(Cleared(old(db.users)[k], company), company, target)
      invariant forall k :: i <= k < |db.users| ==> db.users[k] == Cleared(old(db.users)[k], company)
      invariant db.expenses == old(db.expenses) && db.steps == old(db.steps)
      invariant db.approvals == old(db.approvals) && db.nextExpenseId == old(db.nextExpenseId)
    {
      if db.users[i].id == target && db.users[i].companyId == company {
        db.users := db.users[i := db.users[i].(isSpecialApprover := true)];
      }
      i := i + 1;
    }
    assert db.users == Designated(old(db.users), company, target);
    DesignatedKeepsInvariants(old(db.users), company, target);
    r := SpecialApproverUpdated;
  }
}
