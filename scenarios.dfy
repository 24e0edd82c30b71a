/**
 * Client runs of the controllers on a fresh, empty database: what callers can
 * conclude from the controllers' contracts alone.
 */
module Scenarios {
  import opened Wrappers
  import opened Actions
  import opened Context
  import CitizenModel
  import ServiceRequestModel
  import CitizenController
  import ServiceRequestController

  /**
   * Two citizens with equal emails (both absent counts as equal): the first is
   * created, the second is refused with an error on "Email", and the table
   * still holds exactly one citizen.
   */
  method DuplicateCitizenEmail(first: CitizenModel.Citizen, second: CitizenModel.Citizen)
    returns (r1: ActionResult<CitizenModel.Citizen>, r2: ActionResult<CitizenModel.Citizen>, count: nat)
    requires first.email == second.email
    ensures r1 == RedirectToIndex
    ensures r2 == ViewWithError("Email", CitizenController.DuplicateEmailMessage, second)
    ensures count == 1
  {
    var context := new MunicipalityContext();
    var controller := new CitizenController.Controller(context);
    r1 := controller.Create(true, first);
    assert context.citizens[1].email == second.email;
    r2 := controller.Create(true, second);
    count := |context.citizens|;
  }

  /** A request naming a citizen that does not exist is refused on "CitizenID" and nothing is stored. */
  method UnknownCitizenReference(request: ServiceRequestModel.ServiceRequest)
    returns (r: ActionResult<ServiceRequestModel.ServiceRequest>, count: nat)
    ensures r == ViewWithError("CitizenID", ServiceRequestController.InvalidCitizenMessage, request)
    ensures count == 0
  {
    var context := new MunicipalityContext();
    var controller := new ServiceRequestController.Controller(context);
    r := controller.Create(true, request);
    count := |context.serviceRequests|;
  }

  /**
   * A request is filed for a registered citizen, then its status is updated:
   * the stored request is the filed one with only the status replaced.
   */
  method StatusUpdateKeepsOtherFields(citizen: CitizenModel.Citizen, request: ServiceRequestModel.ServiceRequest, status: string)
    returns (stored: ServiceRequestModel.ServiceRequest)
    requires request.citizenId == 1
    ensures stored == request.(requestId := 1, status := status)
  {
    var context := new MunicipalityContext();
    var citizens := new CitizenController.Controller(context);
    var requests := new ServiceRequestController.Controller(context);
    var _ := citizens.Create(true, citizen);
    var _ := requests.Create(true, request);
    var _ := requests.UpdateStatus(1, status, true, false);
    stored := context.serviceRequests[1];
  }

  /**
   * Deleting a citizen twice redirects both times and leaves the same empty
   * table either way; a request filed for that citizen stays behind with a
   * dangling CitizenID.
   */
  method DeleteTwiceLeavesDanglingRequest(citizen: CitizenModel.Citizen, request: ServiceRequestModel.ServiceRequest)
    returns (r1: ActionResult<CitizenModel.Citizen>, r2: ActionResult<CitizenModel.Citizen>, citizenCount: nat, dangling: bool)
    requires request.citizenId == 1
    ensures r1 == RedirectToIndex && r2 == RedirectToIndex
    ensures citizenCount == 0
    ensures dangling
  {
    var context := new MunicipalityContext();
    var citizens := new CitizenController.Controller(context);
    var requests := new ServiceRequestController.Controller(context);
    var _ := citizens.Create(true, citizen);
    var _ := requests.Create(true, request);
    r1 := citizens.DeleteConfirmed(1);
    r2 := citizens.DeleteConfirmed(1);
    citizenCount := |context.citizens|;
    dangling := 1 in context.serviceRequests && context.serviceRequests[1].citizenId !in context.citizens;
  }

  /**
   * A citizen is created and deleted, then another is created: the identity
   * column hands out a new id, and the deleted id stays unused.
   */
  method IdsNotReused(first: CitizenModel.Citizen, second: CitizenModel.Citizen)
    returns (r: ActionResult<CitizenModel.Citizen>, oldIdUsed: bool, newId: int)
    ensures r == RedirectToIndex
    ensures !oldIdUsed && newId == 2
  {
    var context := new MunicipalityContext();
    var controller := new CitizenController.Controller(context);
    var _ := controller.Create(true, first);
    var _ := controller.DeleteConfirmed(1);
    r := controller.Create(true, second);
    oldIdUsed := 1 in context.citizens;
    newId := context.citizens[2].citizenId;
  }
}
