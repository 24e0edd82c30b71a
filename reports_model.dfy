/** The Report record, its constraints and its default status. */
module ReportsModel {
  import opened Annotations

  /** One row of the report table. CitizenID is a plain integer reference. */
  datatype Report = Report(
    reportId: int,
    citizenId: int,
    reportType: string,
    details: string,
    submissionDate: DateTime,
    status: string)

  /** The status every new report starts with. */
  const DefaultStatus: string := "Under Review"

  /** ReportType and Details are [Required]; Status and SubmissionDate declare no constraint. */
  predicate Valid(r: Report) {
    Required(r.reportType) && Required(r.details)
  }

  /** Every row sits under its own ReportID. */
  predicate KeyedById(table: map<int, Report>) {
    forall k :: k in table ==> table[k].reportId == k
  }

  /** The LINQ test `Any(e => e.ReportID == id)` over a table. */
  predicate AnyWithId(table: map<int, Report>, id: int) {
    exists k :: k in table && table[k].reportId == id
  }

  /** Over a table whose rows sit under their own ids, the Any test is key membership. */
  lemma AnyWithIdIff(table: map<int, Report>, id: int)
    requires KeyedById(table)
    ensures AnyWithId(table, id) <==> id in table
  {
    if id in table {
      assert table[id].reportId == id;
    }
  }

  /** Two versions of a report agree on every field except, possibly, Status. */
  predicate SameExceptStatus(a: Report, b: Report) {
    && a.reportId == b.reportId
    && a.citizenId == b.citizenId
    && a.reportType == b.reportType
    && a.details == b.details
    && a.submissionDate == b.submissionDate
  }

  /**
   * A freshly constructed report: no identity assigned yet, SubmissionDate set
   * to the instant of construction and the status "Under Review".
   */
  function New(citizenId: int, reportType: string, details: string, now: DateTime): (r: Report)
    ensures r.reportId == 0 && r.submissionDate == now && r.status == DefaultStatus
    ensures r.citizenId == citizenId && r.reportType == reportType && r.details == details
  {
    Report(0, citizenId, reportType, details, now, DefaultStatus)
  }

  /** The status has no length limit: any status, however long, keeps a valid report valid. */
  lemma AnyStatusKeepsValid(r: Report, status: string)
    requires Valid(r)
    ensures Valid(r.(status := status))
  {
  }

  /** A report whose type or details are empty is never valid. */
  lemma EmptyFieldsRejected(r: Report)
    requires r.reportType == [] || r.details == []
    ensures !Valid(r)
  {
  }
}
