/**
 * The staff controller: lookups, Create and Edit guarded by email uniqueness,
 * and the confirmed delete.
 */
module StaffController {
  import opened Wrappers
  import opened StaffModel
  import opened Actions
  import opened Context

  const DuplicateEmailMessage: string := "This email is already registered by another staff member."

  /** Create's guard: some stored staff member has exactly this email. */
  predicate EmailExists(table: map<int, Staff>, email: string) {
    exists k :: k in table && table[k].email == email
  }

  /** Edit's guard: a staff member other than the one with this id has exactly this email. */
  predicate EmailUsedByOther(table: map<int, Staff>, email: string, id: int) {
    exists k :: k in table && table[k].email == email && table[k].staffId != id
  }

  /** No two staff members share an email. */
  predicate EmailsUnique(table: map<int, Staff>) {
    forall i, j :: i in table && j in table && i != j ==> table[i].email != table[j].email
  }

  /** Inserting under a fresh id keeps emails unique exactly when Create's guard lets the record through. */
  lemma InsertKeepsEmailsUniqueIff(table: map<int, Staff>, id: int, s: Staff)
    requires EmailsUnique(table) && id !in table
    ensures EmailsUnique(table[id := s]) <==> !EmailExists(table, s.email)
  {
    if EmailExists(table, s.email) {
      var k :| k in table && table[k].email == s.email;
      assert k != id && table[id := s][k].email == table[id := s][id].email;
    }
  }

  /** Replacing the row at `s`'s own id keeps emails unique exactly when Edit's guard lets it through. */
  lemma ReplaceKeepsEmailsUniqueIff(table: map<int, Staff>, s: Staff)
    requires EmailsUnique(table) && KeyedById(table) && s.staffId in table
    ensures EmailsUnique(table[s.staffId := s]) <==> !EmailUsedByOther(table, s.email, s.staffId)
  {
    if EmailUsedByOther(table, s.email, s.staffId) {
      var k :| k in table && table[k].email == s.email && table[k].staffId != s.staffId;
      assert k != s.staffId && table[s.staffId := s][k].email == table[s.staffId := s][s.staffId].email;
    }
  }

  class Controller {
    const context: MunicipalityContext

    constructor(context: MunicipalityContext)
      ensures this.context == context
    {
      this.context := context;
    }

    /** Details(id): NotFound for a null or unknown id, else the stored staff member. */
    method Details(id: Option<int>) returns (r: ActionResult<Staff>)
      ensures r.NotFound? <==> id.None? || id.value !in context.staff
      ensures !r.NotFound? ==> r == View(context.staff[id.value])
    {
      r := Find(context.staff, id);
    }

    /** Edit(id) GET: the form for the stored staff member, or NotFound. */
    method EditForm(id: Option<int>) returns (r: ActionResult<Staff>)
      ensures r.NotFound? <==> id.None? || id.value !in context.staff
      ensures !r.NotFound? ==> r == View(context.staff[id.value])
    {
      r := Find(context.staff, id);
    }

    /** Delete(id) GET: the confirmation page for the stored staff member, or NotFound. */
    method Delete(id: Option<int>) returns (r: ActionResult<Staff>)
      ensures r.NotFound? <==> id.None? || id.value !in context.staff
      ensures !r.NotFound? ==> r == View(context.staff[id.value])
    {
      r := Find(context.staff, id);
    }

    /**
     * Create POST. The bound StaffID is ignored: the identity column assigns
     * the next id. Every failure path leaves the database as it was.
     */
    method Create(modelStateValid: bool, candidate: Staff) returns (r: ActionResult<Staff>)
      requires context.Valid()
      modifies context
      ensures context.Valid()
      ensures !modelStateValid ==> r == View(candidate) && unchanged(context)
      ensures modelStateValid && EmailExists(old(context.staff), candidate.email) ==>
                r == ViewWithError("Email", DuplicateEmailMessage, candidate) && unchanged(context)
      ensures modelStateValid && !EmailExists(old(context.staff), candidate.email) ==>
                && r == RedirectToIndex
                && context.staff == old(context.staff)[old(context.nextStaffId) := candidate.(staffId := old(context.nextStaffId))]
                && old(context.nextStaffId) !in old(context.staff)
                && context.nextStaffId == old(context.nextStaffId) + 1
                && context.citizens == old(context.citizens) && context.nextCitizenId == old(context.nextCitizenId)
                && context.serviceRequests == old(context.serviceRequests) && context.nextRequestId == old(context.nextRequestId)
                && context.reports == old(context.reports) && context.nextReportId == old(context.nextReportId)
      ensures |context.staff| == |old(context.staff)| + (if r == RedirectToIndex then 1 else 0)
      ensures EmailsUnique(old(context.staff)) ==> EmailsUnique(context.staff)
    {
      if modelStateValid {
        var emailExists := EmailExists(context.staff, candidate.email);
        if emailExists {
          r := ViewWithError("Email", DuplicateEmailMessage, candidate);
          return;
        }
        var id := context.nextStaffId;
        if EmailsUnique(context.staff) {
          InsertKeepsEmailsUniqueIff(context.staff, id, candidate.(staffId := id));
        }
        context.staff := context.staff[id := candidate.(staffId := id)];
        context.nextStaffId := id + 1;
        r := RedirectToIndex;
        return;
      }
      r := View(candidate);
    }

    /**
     * Edit POST: a full replacement of the stored staff member by the bound
     * one. The path id must equal the payload's StaffID. The email check
     * excludes the member's own id. When the UPDATE affects no row (the member
     * is gone) or `concurrencyFailure` says saving raised a concurrency
     * exception, the existence re-check decides between NotFound and a
     * rethrown exception. A payload with StaffID 0 carries no key, so saving
     * inserts it as a new member under the next identity value.
     */
    method Edit(id: int, modelStateValid: bool, candidate: Staff, concurrencyFailure: bool)
      returns (r: ActionResult<Staff>)
      requires context.Valid()
      modifies context
      ensures context.Valid()
      ensures id != candidate.staffId ==> r == NotFound && unchanged(context)
      ensures id == candidate.staffId && !modelStateValid ==> r == View(candidate) && unchanged(context)
      ensures id == candidate.staffId && modelStateValid && EmailUsedByOther(old(context.staff), candidate.email, id) ==>
                r == ViewWithError("Email", DuplicateEmailMessage, candidate) && unchanged(context)
      ensures id == candidate.staffId && modelStateValid && !EmailUsedByOther(old(context.staff), candidate.email, id) ==>
                if id == 0 then
                  && r == RedirectToIndex
                  && context.staff == old(context.staff)[old(context.nextStaffId) := candidate.(staffId := old(context.nextStaffId))]
                  && context.nextStaffId == old(context.nextStaffId) + 1
                  && context.citizens == old(context.citizens) && context.serviceRequests == old(context.serviceRequests)
                  && context.reports == old(context.reports)
                  && context.nextCitizenId == old(context.nextCitizenId) && context.nextRequestId == old(context.nextRequestId)
                  && context.nextReportId == old(context.nextReportId)
                else if id !in old(context.staff) then
                  r == NotFound && unchanged(context)
                else if concurrencyFailure then
                  r == Rethrow && unchanged(context)
                else
                  && r == RedirectToIndex
                  && context.staff == old(context.staff)[id := candidate]
                  && context.nextStaffId == old(context.nextStaffId)
                  && context.citizens == old(context.citizens) && context.serviceRequests == old(context.serviceRequests)
                  && context.reports == old(context.reports)
                  && context.nextCitizenId == old(context.nextCitizenId) && context.nextRequestId == old(context.nextRequestId)
                  && context.nextReportId == old(context.nextReportId)
      ensures EmailsUnique(old(context.staff)) ==> EmailsUnique(context.staff)
    {
      if id != candidate.staffId {
        return NotFound;
      }
      if !modelStateValid {
        return View(candidate);
      }
      var emailExists := EmailUsedByOther(context.staff, candidate.email, id);
      if emailExists {
        return ViewWithError("Email", DuplicateEmailMessage, candidate);
      }
      if id == 0 {
        // No key value: the entity is tracked as Added and saved as a new row.
        var newId := context.nextStaffId;
        if EmailsUnique(context.staff) {
          InsertKeepsEmailsUniqueIff(context.staff, newId, candidate.(staffId := newId));
        }
        context.staff := context.staff[newId := candidate.(staffId := newId)];
        context.nextStaffId := newId + 1;
        return RedirectToIndex;
      }
      var saveFailed := id !in context.staff || concurrencyFailure;
      if saveFailed {
        var stillExists := StaffExists(candidate.staffId);
        if !stillExists {
          return NotFound;
        }
        return Rethrow;
      }
      if EmailsUnique(context.staff) {
        ReplaceKeepsEmailsUniqueIff(context.staff, candidate);
      }
      context.staff := context.staff[id := candidate];
      r := RedirectToIndex;
    }

    /** DeleteConfirmed POST: removes the member when present, does nothing otherwise, and always redirects. */
    method DeleteConfirmed(id: int) returns (r: ActionResult<Staff>)
      requires context.Valid()
      modifies context
      ensures context.Valid()
      ensures r == RedirectToIndex
      ensures context.staff == old(context.staff) - {id}
      ensures context.nextStaffId == old(context.nextStaffId)
      ensures context.citizens == old(context.citizens) && context.serviceRequests == old(context.serviceRequests)
      ensures context.reports == old(context.reports)
      ensures context.nextCitizenId == old(context.nextCitizenId) && context.nextRequestId == old(context.nextRequestId)
      ensures context.nextReportId == old(context.nextReportId)
      ensures EmailsUnique(old(context.staff)) ==> EmailsUnique(context.staff)
    {
      if id in context.staff {
        context.staff := context.staff - {id};
      }
      r := RedirectToIndex;
    }

    /** StaffManagementModelExists: some stored staff member has this StaffID. */
    method StaffExists(id: int) returns (b: bool)
      requires context.Valid()
      ensures b <==> id in context.staff
    {
      b := AnyWithId(context.staff, id);
      AnyWithIdIff(context.staff, id);
    }
  }
}
