/** The ServiceRequest record, its constraints and its default status. */
module ServiceRequestModel {
  import opened Annotations

  /** One row of the service-request table. CitizenID is a plain integer reference. */
  datatype ServiceRequest = ServiceRequest(
    requestId: int,
    citizenId: int,
    serviceType: string,
    requestDate: DateTime,
    status: string)

  const ServiceTypeMaxLength: nat := 50
  const StatusMaxLength: nat := 30
  /** The status every new request starts with. */
  const DefaultStatus: string := "Pending"

  predicate ServiceTypeValid(s: string) {
    Required(s) && StringLength(s, ServiceTypeMaxLength)
  }

  /** Status carries only [StringLength(30)]; any text within that length is accepted. */
  predicate StatusValid(s: string) {
    StringLength(s, StatusMaxLength)
  }

  /** Every attribute constraint holds. RequestDate is a value type and always present. */
  predicate Valid(r: ServiceRequest) {
    ServiceTypeValid(r.serviceType) && StatusValid(r.status)
  }

  /** Every row sits under its own RequestID. */
  predicate KeyedById(table: map<int, ServiceRequest>) {
    forall k :: k in table ==> table[k].requestId == k
  }

  /** The LINQ test `Any(e => e.RequestID == id)` over a table. */
  predicate AnyWithId(table: map<int, ServiceRequest>, id: int) {
    exists k :: k in table && table[k].requestId == id
  }

  /** Over a table whose rows sit under their own ids, the Any test is key membership. */
  lemma AnyWithIdIff(table: map<int, ServiceRequest>, id: int)
    requires KeyedById(table)
    ensures AnyWithId(table, id) <==> id in table
  {
    if id in table {
      assert table[id].requestId == id;
    }
  }

  /** Two versions of a request agree on every field except, possibly, Status. */
  predicate SameExceptStatus(a: ServiceRequest, b: ServiceRequest) {
    && a.requestId == b.requestId
    && a.citizenId == b.citizenId
    && a.serviceType == b.serviceType
    && a.requestDate == b.requestDate
  }

  /**
   * A freshly constructed request: no identity assigned yet, RequestDate set to
   * the instant of construction and the status "Pending".
   */
  function New(citizenId: int, serviceType: string, now: DateTime): (r: ServiceRequest)
    ensures r.requestId == 0 && r.requestDate == now && r.status == DefaultStatus
    ensures r.citizenId == citizenId && r.serviceType == serviceType
  {
    ServiceRequest(0, citizenId, serviceType, now, DefaultStatus)
  }

  /** The defaults are admissible: a new request is valid exactly when its service type is. */
  lemma NewValidIff(citizenId: int, serviceType: string, now: DateTime)
    ensures Valid(New(citizenId, serviceType, now)) <==> ServiceTypeValid(serviceType)
  {
  }

  /** Changing the status keeps the request valid exactly when the new status is within the limit. */
  lemma StatusChangeValidIff(r: ServiceRequest, status: string)
    requires Valid(r)
    ensures Valid(r.(status := status)) <==> |status| <= StatusMaxLength
  {
  }
}
