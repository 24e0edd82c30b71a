/**
 * The service-request controller: lookups, Create guarded by the citizen
 * reference, the status-only update and the confirmed delete.
 */
module ServiceRequestController {
  import opened Wrappers
  import CitizenModel
  import opened ServiceRequestModel
  import opened Actions
  import opened Context

  const InvalidCitizenMessage: string := "Invalid Citizen ID."

  class Controller {
    const context: MunicipalityContext

    constructor(context: MunicipalityContext)
      ensures this.context == context
    {
      this.context := context;
    }

    /** Details(id): NotFound for a null or unknown id, else the stored request. */
    method Details(id: Option<int>) returns (r: ActionResult<ServiceRequest>)
      ensures r.NotFound? <==> id.None? || id.value !in context.serviceRequests
      ensures !r.NotFound? ==> r == View(context.serviceRequests[id.value])
    {
      r := Find(context.serviceRequests, id);
    }

    /** Delete(id) GET: the confirmation page for the stored request, or NotFound. */
    method Delete(id: Option<int>) returns (r: ActionResult<ServiceRequest>)
      ensures r.NotFound? <==> id.None? || id.value !in context.serviceRequests
      ensures !r.NotFound? ==> r == View(context.serviceRequests[id.value])
    {
      r := Find(context.serviceRequests, id);
    }

    /** UpdateStatus(id) GET: the status form for the stored request, or NotFound. */
    method UpdateStatusForm(id: Option<int>) returns (r: ActionResult<ServiceRequest>)
      ensures r.NotFound? <==> id.None? || id.value !in context.serviceRequests
      ensures !r.NotFound? ==> r == View(context.serviceRequests[id.value])
    {
      r := Find(context.serviceRequests, id);
    }

    /**
     * Create POST. The request is admitted only when its CitizenID names a
     * stored citizen; the identity column assigns its RequestID. Every failure
     * path leaves the database as it was.
     */
    method Create(modelStateValid: bool, candidate: ServiceRequest) returns (r: ActionResult<ServiceRequest>)
      requires context.Valid()
      modifies context
      ensures context.Valid()
      ensures !modelStateValid ==> r == View(candidate) && unchanged(context)
      ensures modelStateValid && candidate.citizenId !in old(context.citizens) ==>
                r == ViewWithError("CitizenID", InvalidCitizenMessage, candidate) && unchanged(context)
      ensures modelStateValid && candidate.citizenId in old(context.citizens) ==>
                && r == RedirectToIndex
                && context.serviceRequests == old(context.serviceRequests)[old(context.nextRequestId) := candidate.(requestId := old(context.nextRequestId))]
                && old(context.nextRequestId) !in old(context.serviceRequests)
                && context.nextRequestId == old(context.nextRequestId) + 1
                && context.citizens == old(context.citizens) && context.nextCitizenId == old(context.nextCitizenId)
                && context.staff == old(context.staff) && context.nextStaffId == old(context.nextStaffId)
                && context.reports == old(context.reports) && context.nextReportId == old(context.nextReportId)
      ensures |context.serviceRequests| == |old(context.serviceRequests)| + (if r == RedirectToIndex then 1 else 0)
      ensures r == RedirectToIndex ==> candidate.citizenId in context.citizens
    {
      if modelStateValid {
        var citizenExists := CitizenModel.AnyWithId(context.citizens, candidate.citizenId);
        CitizenModel.AnyWithIdIff(context.citizens, candidate.citizenId);
        if !citizenExists {
          r := ViewWithError("CitizenID", InvalidCitizenMessage, candidate);
          return;
        }
        var id := context.nextRequestId;
        context.serviceRequests := context.serviceRequests[id := candidate.(requestId := id)];
        context.nextRequestId := id + 1;
        r := RedirectToIndex;
        return;
      }
      r := View(candidate);
    }

    /**
     * UpdateStatus POST: re-reads the stored request and changes its Status
     * only. It redirects to the list whether or not the model state is valid,
     * and saves only when it is. Id 0 and unknown ids are NotFound. The row was
     * just read, so a failing save (`concurrencyFailure`) finds it still
     * present and the exception is rethrown.
     */
    method UpdateStatus(id: int, status: string, modelStateValid: bool, concurrencyFailure: bool)
      returns (r: ActionResult<ServiceRequest>)
      requires context.Valid()
      modifies context
      ensures context.Valid()
      ensures id == 0 || id !in old(context.serviceRequests) ==> r == NotFound && unchanged(context)
      ensures id != 0 && id in old(context.serviceRequests) ==>
                if !modelStateValid then
                  r == RedirectToIndex && unchanged(context)
                else if concurrencyFailure then
                  r == Rethrow && unchanged(context)
                else
                  && r == RedirectToIndex
                  && context.serviceRequests == old(context.serviceRequests)[id := old(context.serviceRequests)[id].(status := status)]
                  && context.nextRequestId == old(context.nextRequestId)
                  && context.citizens == old(context.citizens) && context.nextCitizenId == old(context.nextCitizenId)
                  && context.staff == old(context.staff) && context.nextStaffId == old(context.nextStaffId)
                  && context.reports == old(context.reports) && context.nextReportId == old(context.nextReportId)
      ensures context.serviceRequests.Keys == old(context.serviceRequests).Keys
      ensures forall k :: k in context.serviceRequests ==>
                SameExceptStatus(old(context.serviceRequests)[k], context.serviceRequests[k])
                && (k != id ==> context.serviceRequests[k] == old(context.serviceRequests)[k])
      ensures r == RedirectToIndex && modelStateValid ==> context.serviceRequests[id].status == status
    {
      if id == 0 {
        return NotFound;
      }
      if id !in context.serviceRequests {
        return NotFound;
      }
      var request := context.serviceRequests[id];
      // Update only the Status field of the tracked row.
      request := request.(status := status);
      if modelStateValid {
        if concurrencyFailure {
          var stillExists := ServiceRequestExists(request.requestId);
          if !stillExists {
            return NotFound;
          }
          return Rethrow;
        }
        context.serviceRequests := context.serviceRequests[id := request];
      }
      r := RedirectToIndex;
    }

    /**
     * DeleteConfirmed POST: removes the request when present, does nothing
     * otherwise, and always redirects.
     */
    method DeleteConfirmed(id: int) returns (r: ActionResult<ServiceRequest>)
      requires context.Valid()
      modifies context
      ensures context.Valid()
      ensures r == RedirectToIndex
      ensures context.serviceRequests == old(context.serviceRequests) - {id}
      ensures context.nextRequestId == old(context.nextRequestId)
      ensures context.citizens == old(context.citizens) && context.staff == old(context.staff)
      ensures context.reports == old(context.reports)
      ensures context.nextCitizenId == old(context.nextCitizenId) && context.nextStaffId == old(context.nextStaffId)
      ensures context.nextReportId == old(context.nextReportId)
    {
      if id in context.serviceRequests {
        context.serviceRequests := context.serviceRequests - {id};
      }
      r := RedirectToIndex;
    }

    /** ServiceRequestModelExists: some stored request has this RequestID. */
    method ServiceRequestExists(id: int) returns (b: bool)
      requires context.Valid()
      ensures b <==> id in context.serviceRequests
    {
      b := ServiceRequestModel.AnyWithId(context.serviceRequests, id);
      ServiceRequestModel.AnyWithIdIff(context.serviceRequests, id);
    }
  }
}
