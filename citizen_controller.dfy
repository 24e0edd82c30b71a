/**
 * The citizen controller: lookups, Create and Edit guarded by email uniqueness,
 * and the confirmed delete.
 */
module CitizenController {
  import opened Wrappers
  import opened CitizenModel
  import opened Actions
  import opened Context

  const DuplicateEmailMessage: string := "This email is already registered by another citizen."

  /**
   * Create's guard: some stored citizen has exactly this email. The comparison
   * is plain equality on the nullable field, so two absent emails are equal.
   */
  predicate EmailExists(table: map<int, Citizen>, email: Option<string>) {
    exists k :: k in table && table[k].email == email
  }

  /** Edit's guard: a citizen other than the one with this id has exactly this email. */
  predicate EmailUsedByOther(table: map<int, Citizen>, email: Option<string>, id: int) {
    exists k :: k in table && table[k].email == email && table[k].citizenId != id
  }

  /** No two citizens have equal emails (with at most one citizen lacking an email). */
  predicate EmailsUnique(table: map<int, Citizen>) {
    forall i, j :: i in table && j in table && i != j ==> table[i].email != table[j].email
  }

  /** Inserting under a fresh id keeps emails unique exactly when Create's guard lets the record through. */
  lemma InsertKeepsEmailsUniqueIff(table: map<int, Citizen>, id: int, c: Citizen)
    requires EmailsUnique(table) && id !in table
    ensures EmailsUnique(table[id := c]) <==> !EmailExists(table, c.email)
  {
    if EmailExists(table, c.email) {
      var k :| k in table && table[k].email == c.email;
      assert k != id && table[id := c][k].email == table[id := c][id].email;
    }
  }

  /** Replacing the row at `c`'s own id keeps emails unique exactly when Edit's guard lets it through. */
  lemma ReplaceKeepsEmailsUniqueIff(table: map<int, Citizen>, c: Citizen)
    requires EmailsUnique(table) && KeyedById(table) && c.citizenId in table
    ensures EmailsUnique(table[c.citizenId := c]) <==> !EmailUsedByOther(table, c.email, c.citizenId)
  {
    if EmailUsedByOther(table, c.email, c.citizenId) {
      var k :| k in table && table[k].email == c.email && table[k].citizenId != c.citizenId;
      assert k != c.citizenId && table[c.citizenId := c][k].email == table[c.citizenId := c][c.citizenId].email;
    }
  }

  /**
   * Because absent emails compare equal, a table with unique emails holds at
   * most one citizen without an email.
   */
  lemma AtMostOneWithoutEmail(table: map<int, Citizen>, i: int, j: int)
    requires EmailsUnique(table)
    requires i in table && j in table && table[i].email.None? && table[j].email.None?
    ensures i == j
  {
  }

  class Controller {
    const context: MunicipalityContext

    constructor(context: MunicipalityContext)
      ensures this.context == context
    {
      this.context := context;
    }

    /** Details(id): NotFound for a null or unknown id, else the stored citizen. */
    method Details(id: Option<int>) returns (r: ActionResult<Citizen>)
      ensures r.NotFound? <==> id.None? || id.value !in context.citizens
      ensures !r.NotFound? ==> r == View(context.citizens[id.value])
    {
      r := Find(context.citizens, id);
    }

    /** Edit(id) GET: the form for the stored citizen, or NotFound. */
    method EditForm(id: Option<int>) returns (r: ActionResult<Citizen>)
      ensures r.NotFound? <==> id.None? || id.value !in context.citizens
      ensures !r.NotFound? ==> r == View(context.citizens[id.value])
    {
      r := Find(context.citizens, id);
    }

    /** Delete(id) GET: the confirmation page for the stored citizen, or NotFound. */
    method Delete(id: Option<int>) returns (r: ActionResult<Citizen>)
      ensures r.NotFound? <==> id.None? || id.value !in context.citizens
      ensures !r.NotFound? ==> r == View(context.citizens[id.value])
    {
      r := Find(context.citizens, id);
    }

    /**
     * Create POST. The bound CitizenID is ignored: the identity column assigns
     * the next id. Every failure path leaves the database as it was.
     */
    method Create(modelStateValid: bool, candidate: Citizen) returns (r: ActionResult<Citizen>)
      requires context.Valid()
      modifies context
      ensures context.Valid()
      ensures !modelStateValid ==> r == View(candidate) && unchanged(context)
      ensures modelStateValid && EmailExists(old(context.citizens), candidate.email) ==>
                r == ViewWithError("Email", DuplicateEmailMessage, candidate) && unchanged(context)
      ensures modelStateValid && !EmailExists(old(context.citizens), candidate.email) ==>
                && r == RedirectToIndex
                && context.citizens == old(context.citizens)[old(context.nextCitizenId) := candidate.(citizenId := old(context.nextCitizenId))]
                && old(context.nextCitizenId) !in old(context.citizens)
                && context.nextCitizenId == old(context.nextCitizenId) + 1
                && context.staff == old(context.staff) && context.nextStaffId == old(context.nextStaffId)
                && context.serviceRequests == old(context.serviceRequests) && context.nextRequestId == old(context.nextRequestId)
                && context.reports == old(context.reports) && context.nextReportId == old(context.nextReportId)
      ensures |context.citizens| == |old(context.citizens)| + (if r == RedirectToIndex then 1 else 0)
      ensures EmailsUnique(old(context.citizens)) ==> EmailsUnique(context.citizens)
    {
      if modelStateValid {
        var emailExists := EmailExists(context.citizens, candidate.email);
        if emailExists {
          r := ViewWithError("Email", DuplicateEmailMessage, candidate);
          return;
        }
        var id := context.nextCitizenId;
        if EmailsUnique(context.citizens) {
          InsertKeepsEmailsUniqueIff(context.citizens, id, candidate.(citizenId := id));
        }
        context.citizens := context.citizens[id := candidate.(citizenId := id)];
        context.nextCitizenId := id + 1;
        r := RedirectToIndex;
        return;
      }
      r := View(candidate);
    }

    /**
     * Edit POST: a full replacement of the stored citizen by the bound one.
     * The path id must equal the payload's CitizenID. The email check excludes
     * the citizen's own id. When the UPDATE affects no row (the citizen is gone)
     * or `concurrencyFailure` says saving raised a concurrency exception, the
     * existence re-check decides between NotFound and a rethrown exception.
     * A payload with CitizenID 0 carries no key, so saving inserts it as a new
     * citizen under the next identity value.
     */
    method Edit(id: int, modelStateValid: bool, candidate: Citizen, concurrencyFailure: bool)
      returns (r: ActionResult<Citizen>)
      requires context.Valid()
      modifies context
      ensures context.Valid()
      ensures id != candidate.citizenId ==> r == NotFound && unchanged(context)
      ensures id == candidate.citizenId && !modelStateValid ==> r == View(candidate) && unchanged(context)
      ensures id == candidate.citizenId && modelStateValid && EmailUsedByOther(old(context.citizens), candidate.email, id) ==>
                r == ViewWithError("Email", DuplicateEmailMessage, candidate) && unchanged(context)
      ensures id == candidate.citizenId && modelStateValid && !EmailUsedByOther(old(context.citizens), candidate.email, id) ==>
                if id == 0 then
                  && r == RedirectToIndex
                  && context.citizens == old(context.citizens)[old(context.nextCitizenId) := candidate.(citizenId := old(context.nextCitizenId))]
                  && context.nextCitizenId == old(context.nextCitizenId) + 1
                  && context.staff == old(context.staff) && context.serviceRequests == old(context.serviceRequests)
                  && context.reports == old(context.reports)
                  && context.nextStaffId == old(context.nextStaffId) && context.nextRequestId == old(context.nextRequestId)
                  && context.nextReportId == old(context.nextReportId)
                else if id !in old(context.citizens) then
                  r == NotFound && unchanged(context)
                else if concurrencyFailure then
                  r == Rethrow && unchanged(context)
                else
                  && r == RedirectToIndex
                  && context.citizens == old(context.citizens)[id := candidate]
                  && context.nextCitizenId == old(context.nextCitizenId)
                  && context.staff == old(context.staff) && context.serviceRequests == old(context.serviceRequests)
                  && context.reports == old(context.reports)
                  && context.nextStaffId == old(context.nextStaffId) && context.nextRequestId == old(context.nextRequestId)
                  && context.nextReportId == old(context.nextReportId)
      ensures EmailsUnique(old(context.citizens)) ==> EmailsUnique(context.citizens)
    {
      if id != candidate.citizenId {
        return NotFound;
      }
      if !modelStateValid {
        return View(candidate);
      }
      var emailExists := EmailUsedByOther(context.citizens, candidate.email, id);
      if emailExists {
        return ViewWithError("Email", DuplicateEmailMessage, candidate);
      }
      if id == 0 {
        // No key value: the entity is tracked as Added and saved as a new row.
        var newId := context.nextCitizenId;
        if EmailsUnique(context.citizens) {
          InsertKeepsEmailsUniqueIff(context.citizens, newId, candidate.(citizenId := newId));
        }
        context.citizens := context.citizens[newId := candidate.(citizenId := newId)];
        context.nextCitizenId := newId + 1;
        return RedirectToIndex;
      }
      var saveFailed := id !in context.citizens || concurrencyFailure;
      if saveFailed {
        var stillExists := CitizenExists(candidate.citizenId);
        if !stillExists {
          return NotFound;
        }
        return Rethrow;
      }
      if EmailsUnique(context.citizens) {
        ReplaceKeepsEmailsUniqueIff(context.citizens, candidate);
      }
      context.citizens := context.citizens[id := candidate];
      r := RedirectToIndex;
    }

    /**
     * DeleteConfirmed POST: removes the citizen when present, does nothing
     * otherwise, and always redirects. Requests and reports that refer to the
     * citizen are left as they are.
     */
    method DeleteConfirmed(id: int) returns (r: ActionResult<Citizen>)
      requires context.Valid()
      modifies context
      ensures context.Valid()
      ensures r == RedirectToIndex
      ensures context.citizens == old(context.citizens) - {id}
      ensures context.nextCitizenId == old(context.nextCitizenId)
      ensures context.staff == old(context.staff) && context.serviceRequests == old(context.serviceRequests)
      ensures context.reports == old(context.reports)
      ensures context.nextStaffId == old(context.nextStaffId) && context.nextRequestId == old(context.nextRequestId)
      ensures context.nextReportId == old(context.nextReportId)
      ensures EmailsUnique(old(context.citizens)) ==> EmailsUnique(context.citizens)
    {
      if id in context.citizens {
        context.citizens := context.citizens - {id};
      }
      r := RedirectToIndex;
    }

    /** CitizenManagementModelExists: some stored citizen has this CitizenID. */
    method CitizenExists(id: int) returns (b: bool)
      requires context.Valid()
      ensures b <==> id in context.citizens
    {
      b := AnyWithId(context.citizens, id);
      AnyWithIdIff(context.citizens, id);
    }
  }
}
