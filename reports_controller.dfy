/**
 * The reports controller: lookups, Create guarded by the citizen reference,
 * the status-only review and the confirmed delete.
 */
module ReportsController {
  import opened Wrappers
  import CitizenModel
  import opened ReportsModel
  import opened Actions
  import opened Context

  const InvalidCitizenMessage: string := "Invalid Citizen ID. Please enter a valid Citizen."

  class Controller {
    const context: MunicipalityContext

    constructor(context: MunicipalityContext)
      ensures this.context == context
    {
      this.context := context;
    }

    /** Details(id): NotFound for a null or unknown id, else the stored report. */
    method Details(id: Option<int>) returns (r: ActionResult<Report>)
      ensures r.NotFound? <==> id.None? || id.value !in context.reports
      ensures !r.NotFound? ==> r == View(context.reports[id.value])
    {
      r := Find(context.reports, id);
    }

    /** Delete(id) GET: the confirmation page for the stored report, or NotFound. */
    method Delete(id: Option<int>) returns (r: ActionResult<Report>)
      ensures r.NotFound? <==> id.None? || id.value !in context.reports
      ensures !r.NotFound? ==> r == View(context.reports[id.value])
    {
      r := Find(context.reports, id);
    }

    /** ReviewReport(id) GET: the review form for the stored report, or NotFound. */
    method ReviewReportForm(id: Option<int>) returns (r: ActionResult<Report>)
      ensures r.NotFound? <==> id.None? || id.value !in context.reports
      ensures !r.NotFound? ==> r == View(context.reports[id.value])
    {
      r := Find(context.reports, id);
    }

    /**
     * Create POST. The report is admitted only when its CitizenID names a
     * stored citizen; the identity column assigns its ReportID. Every failure
     * path leaves the database as it was.
     */
    method Create(modelStateValid: bool, candidate: Report) returns (r: ActionResult<Report>)
      requires context.Valid()
      modifies context
      ensures context.Valid()
      ensures !modelStateValid ==> r == View(candidate) && unchanged(context)
      ensures modelStateValid && candidate.citizenId !in old(context.citizens) ==>
                r == ViewWithError("CitizenID", InvalidCitizenMessage, candidate) && unchanged(context)
      ensures modelStateValid && candidate.citizenId in old(context.citizens) ==>
                && r == RedirectToIndex
                && context.reports == old(context.reports)[old(context.nextReportId) := candidate.(reportId := old(context.nextReportId))]
                && old(context.nextReportId) !in old(context.reports)
                && context.nextReportId == old(context.nextReportId) + 1
                && context.citizens == old(context.citizens) && context.nextCitizenId == old(context.nextCitizenId)
                && context.staff == old(context.staff) && context.nextStaffId == old(context.nextStaffId)
                && context.serviceRequests == old(context.serviceRequests) && context.nextRequestId == old(context.nextRequestId)
      ensures |context.reports| == |old(context.reports)| + (if r == RedirectToIndex then 1 else 0)
      ensures r == RedirectToIndex ==> candidate.citizenId in context.citizens
    {
      if modelStateValid {
        var citizenExists := CitizenModel.AnyWithId(context.citizens, candidate.citizenId);
        CitizenModel.AnyWithIdIff(context.citizens, candidate.citizenId);
        if !citizenExists {
          r := ViewWithError("CitizenID", InvalidCitizenMessage, candidate);
          return;
        }
        var id := context.nextReportId;
        context.reports := context.reports[id := candidate.(reportId := id)];
        context.nextReportId := id + 1;
        r := RedirectToIndex;
        return;
      }
      r := View(candidate);
    }

    /**
     * ReviewReport POST: re-reads the stored report and changes its Status
     * only. It redirects to the list whether or not the model state is valid,
     * and saves only when it is. Id 0 and unknown ids are NotFound. The row was
     * just read, so a failing save (`concurrencyFailure`) finds it still
     * present and the exception is rethrown.
     */
    method ReviewReport(id: int, status: string, modelStateValid: bool, concurrencyFailure: bool)
      returns (r: ActionResult<Report>)
      requires context.Valid()
      modifies context
      ensures context.Valid()
      ensures id == 0 || id !in old(context.reports) ==> r == NotFound && unchanged(context)
      ensures id != 0 && id in old(context.reports) ==>
                if !modelStateValid then
                  r == RedirectToIndex && unchanged(context)
                else if concurrencyFailure then
                  r == Rethrow && unchanged(context)
                else
                  && r == RedirectToIndex
                  && context.reports == old(context.reports)[id := old(context.reports)[id].(status := status)]
                  && context.nextReportId == old(context.nextReportId)
                  && context.citizens == old(context.citizens) && context.nextCitizenId == old(context.nextCitizenId)
                  && context.staff == old(context.staff) && context.nextStaffId == old(context.nextStaffId)
                  && context.serviceRequests == old(context.serviceRequests) && context.nextRequestId == old(context.nextRequestId)
      ensures context.reports.Keys == old(context.reports).Keys
      ensures forall k :: k in context.reports ==>
                SameExceptStatus(old(context.reports)[k], context.reports[k])
                && (k != id ==> context.reports[k] == old(context.reports)[k])
      ensures r == RedirectToIndex && modelStateValid ==> context.reports[id].status == status
    {
      if id == 0 {
        return NotFound;
      }
      if id !in context.reports {
        return NotFound;
      }
      var report := context.reports[id];
      // Update only the Status field of the tracked row.
      report := report.(status := status);
      if modelStateValid {
        if concurrencyFailure {
          var stillExists := ReportExists(id);
          if !stillExists {
            return NotFound;
          }
          return Rethrow;
        }
        context.reports := context.reports[id := report];
      }
      r := RedirectToIndex;
    }

    /**
     * DeleteConfirmed POST: removes the report when present, does nothing
     * otherwise, and always redirects.
     */
    method DeleteConfirmed(id: int) returns (r: ActionResult<Report>)
      requires context.Valid()
      modifies context
      ensures context.Valid()
      ensures r == RedirectToIndex
      ensures context.reports == old(context.reports) - {id}
      ensures context.nextReportId == old(context.nextReportId)
      ensures context.citizens == old(context.citizens) && context.staff == old(context.staff)
      ensures context.serviceRequests == old(context.serviceRequests)
      ensures context.nextCitizenId == old(context.nextCitizenId) && context.nextStaffId == old(context.nextStaffId)
      ensures context.nextRequestId == old(context.nextRequestId)
    {
      if id in context.reports {
        context.reports := context.reports - {id};
      }
      r := RedirectToIndex;
    }

    /** ReportsModelExists: some stored report has this ReportID. */
    method ReportExists(id: int) returns (b: bool)
      requires context.Valid()
      ensures b <==> id in context.reports
    {
      b := ReportsModel.AnyWithId(context.reports, id);
      ReportsModel.AnyWithIdIff(context.reports, id);
    }
  }
}
