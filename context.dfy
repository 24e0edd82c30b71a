/**
 * The record store the controllers share: one table per entity, each keyed by
 * its identity column, and for each table the next identity value to assign.
 */
module Context {
  import CitizenModel
  import StaffModel
  import ServiceRequestModel
  import ReportsModel

  /** All keys of a table lie in [1, next): identity values start at 1 and are never handed out twice. */
  predicate IdsBelow<R>(table: map<int, R>, next: int) {
    forall k :: k in table ==> 1 <= k < next
  }

  class MunicipalityContext {
    var citizens: map<int, CitizenModel.Citizen>
    var staff: map<int, StaffModel.Staff>
    var serviceRequests: map<int, ServiceRequestModel.ServiceRequest>
    var reports: map<int, ReportsModel.Report>
    var nextCitizenId: int
    var nextStaffId: int
    var nextRequestId: int
    var nextReportId: int

    /** Each row is stored under its own id, and every id is below its table's next identity value. */
    ghost predicate Valid()
      reads this
    {
      && CitizenModel.KeyedById(citizens) && IdsBelow(citizens, nextCitizenId)
      && StaffModel.KeyedById(staff) && IdsBelow(staff, nextStaffId)
      && ServiceRequestModel.KeyedById(serviceRequests) && IdsBelow(serviceRequests, nextRequestId)
      && ReportsModel.KeyedById(reports) && IdsBelow(reports, nextReportId)
      && 1 <= nextCitizenId && 1 <= nextStaffId && 1 <= nextRequestId && 1 <= nextReportId
    }

    /** An empty database whose identity columns all start at 1. */
    constructor()
      ensures Valid()
      ensures citizens == map[] && staff == map[] && serviceRequests == map[] && reports == map[]
      ensures nextCitizenId == 1 && nextStaffId == 1 && nextRequestId == 1 && nextReportId == 1
    {
      citizens, staff, serviceRequests, reports := map[], map[], map[], map[];
      nextCitizenId, nextStaffId, nextRequestId, nextReportId := 1, 1, 1, 1;
    }
  }
}
