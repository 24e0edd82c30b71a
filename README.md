# Municipality records: the record-integrity layer

This project models the hand-written logic of a municipal records back end
(an ASP.NET MVC application over Entity Framework Core and SQL Server). There
are four tables: citizens, staff, service requests and reports. The model
proves properties of the rules that guard every write to them.

- **Record shapes** (`CitizenModel`, `StaffModel`, `ServiceRequestModel`,
  `ReportsModel`). There is one datatype per entity class. Its
  data-annotation attributes become validity predicates, built from
  `Annotations`:
  - `[Required]` is `Required`: not empty and not white space only.
  - `[StringLength(n)]` is `StringLength`.
  - `^\d{10}$` is `MatchesDigits`.
  - `[EmailAddress]` is a format test passed in as a function.
  - The field defaults (status "Pending" / "Under Review", creation instant)
    are the `New` functions.
- **The database context** (`Context.MunicipalityContext`). It is a class
  with one `map<int, Record>` per table and one next-identity counter per
  table. `Valid()` says that every row sits under its own id and that every
  id is below its table's counter. Ids start at 1 and are never reused.
- **The four controllers** (`CitizenController`, `StaffController`,
  `ServiceRequestController`, `ReportsController`). Each is a class holding
  the shared context. There is one method per action, returning an
  `Actions.ActionResult`:
  - `NotFound`
  - `RedirectToIndex`
  - `View(record)`
  - `ViewWithError(key, message, record)`
  - `Rethrow`, for an exception that leaves the action

  Each state-changing method states the whole new state: what it inserted,
  replaced, re-statused or removed. It also states that every other table
  and counter is unchanged, and that failure paths change nothing.
- **The interesting invariants**:
  - Create and Edit preserve email uniqueness.
  - A request or report is admitted only if it refers to a stored citizen.
  - A status update touches only `Status`.
  - Delete is idempotent.

  The uniqueness lemmas show that each controller guard is *exactly* the
  condition under which the write keeps emails unique.

Inputs the model takes as parameters:
- `modelStateValid` stands for `ModelState.IsValid`.
- `concurrencyFailure` says that `SaveChangesAsync` raised a
  `DbUpdateConcurrencyException` for a reason outside this model.
- `now` is the clock reading used by the defaults.
- `isEmail` is the `[EmailAddress]` format test.

Notes on the program's behaviour that the model reproduces:
- The email guard at `CitizenManagementModelsController.cs:55` is plain
  equality on the nullable `Email`. So two absent emails are equal, and a
  second citizen without an email is refused
  (`CitizenController.AtMostOneWithoutEmail`). The filtered unique index at
  `Migrations/MunicipalityManagementSystemV2ContextModelSnapshot.cs:58-60`
  would admit that second citizen.
- A `DbUpdateConcurrencyException` whose re-check finds the row is not turned
  into a result of its own. The action rethrows it (`Rethrow`).
- Service-request and report statuses are not required. The only
  constraint is `[StringLength(30)]` on the service-request status.
  Report status is unconstrained.
- Edit POST with id 0 and payload id 0 inserts. EF Core's `Update` tracks an
  entity whose generated key is unset as Added, so saving inserts it as a new
  row under the next identity value. The model does the same.
- None of the four entities has a concurrency token. So a save raises
  `DbUpdateConcurrencyException` only when its UPDATE affects no row, that is
  when the row is gone. The existence re-check then gives NotFound.
  - In the model's Edit, the row can be gone when the action starts, and
    that case gives NotFound.
  - In the model's UpdateStatus and ReviewReport, the row was just read and
    nothing runs in between, so a failed save there always finds the row.
  - Wherever the model's `concurrencyFailure` input is set while the row is
    present, the action rethrows. That is a failure the program produces
    only once a concurrency token is added.

## Model

| member | source | states |
|---|---|---|
| Annotations.MatchesDigitsExactly | MunicipalityManagementSystemV2/Models/CitizenManagementModel.cs:22 | the anchored pattern `^\d{n}$` accepts a string iff it has length n and every character is a digit |
| Annotations.DigitsAreRequired | MunicipalityManagementSystemV2/Models/CitizenManagementModel.cs:21-23 | a string matching `^\d{n}$` with n > 0 also satisfies `[Required]` |
| CitizenModel.Valid | MunicipalityManagementSystemV2/Models/CitizenManagementModel.cs:13-27 | a citizen passes validation iff Fullname is required and at most 100 characters, Address required and at most 200, PhoneNumber required and matching `^\d{10}$`, and Email absent or of email format |
| CitizenModel.PhoneNumberValidIff | MunicipalityManagementSystemV2/Models/CitizenManagementModel.cs:21-23 | `[Required]` plus `^\d{10}$` accept a phone number iff it is exactly ten decimal digits |
| CitizenModel.EmailOptional | MunicipalityManagementSystemV2/Models/CitizenManagementModel.cs:25-27 | a citizen without an email is valid iff name, address and phone are; the format test is not consulted |
| CitizenModel.New | MunicipalityManagementSystemV2/Models/CitizenManagementModel.cs:9-31 | a new citizen has no identity yet (0), RegistrationDate is the creation instant, the other fields are the supplied ones |
| CitizenModel.NewValidIff | MunicipalityManagementSystemV2/Models/CitizenManagementModel.cs:13-31 | the defaults impose nothing: a new citizen is valid iff name (≤100), address (≤200), phone and optional email are |
| CitizenModel.AnyWithIdIff | MunicipalityManagementSystemV2/Controllers/ServiceRequestModelsController.cs:56 | over a table keyed by id, `Any(c => c.CitizenID == id)` holds iff id is a stored key |
| StaffModel.Valid | MunicipalityManagementSystemV2/Models/StaffManagementModel.cs:13-31 | a staff member passes validation iff FullName, Position and Department are each required and at most 100 characters, and Email is required and of email format |
| StaffModel.FullNameValid | MunicipalityManagementSystemV2/Models/StaffManagementModel.cs:13-15 | FullName is accepted iff it is required (not blank) and at most 100 characters |
| StaffModel.PositionValid | MunicipalityManagementSystemV2/Models/StaffManagementModel.cs:17-19 | Position is accepted iff it is required (not blank) and at most 100 characters |
| StaffModel.DepartmentValid | MunicipalityManagementSystemV2/Models/StaffManagementModel.cs:21-23 | Department is accepted iff it is required (not blank) and at most 100 characters |
| StaffModel.TextFieldsRequiredAndBounded | MunicipalityManagementSystemV2/Models/StaffManagementModel.cs:13-31 | a valid staff member's FullName, Position and Department are each non-empty, at most 100 characters and hold a non-white-space character |
| StaffModel.OverlongTextFieldRejected | MunicipalityManagementSystemV2/Models/StaffManagementModel.cs:13-23 | a FullName, Position or Department over 100 characters makes the record invalid, whatever the other fields hold |
| StaffModel.AnyWithIdIff | MunicipalityManagementSystemV2/Controllers/StaffManagementModelsController.cs:159 | over a table keyed by id, `Any(e => e.StaffID == id)` holds iff id is a stored key |
| StaffModel.EmailRequired | MunicipalityManagementSystemV2/Models/StaffManagementModel.cs:25-28 | a valid staff member always has a non-empty, non-blank email |
| StaffModel.BlankEmailRejected | MunicipalityManagementSystemV2/Models/StaffManagementModel.cs:25-28 | a blank staff email is refused even by a format test that accepts everything |
| ServiceRequestModel.New | MunicipalityManagementSystemV2/Models/ServiceRequestModel.cs:8-23 | a new request has no identity yet, RequestDate is the creation instant and Status is "Pending" |
| ServiceRequestModel.Valid | MunicipalityManagementSystemV2/Models/ServiceRequestModel.cs:15-23 | a request passes validation iff ServiceType is required and at most 50 characters and Status is at most 30 characters |
| ServiceRequestModel.AnyWithIdIff | MunicipalityManagementSystemV2/Controllers/ServiceRequestModelsController.cs:166 | over a table keyed by id, `Any(e => e.RequestID == id)` holds iff id is a stored key |
| ServiceRequestModel.NewValidIff | MunicipalityManagementSystemV2/Models/ServiceRequestModel.cs:15-23 | the default status fits the 30-character limit: a new request is valid iff its service type (required, ≤50) is |
| ServiceRequestModel.StatusChangeValidIff | MunicipalityManagementSystemV2/Models/ServiceRequestModel.cs:22-23 | replacing the status of a valid request keeps it valid iff the new status has at most 30 characters |
| ReportsModel.New | MunicipalityManagementSystemV2/Models/ReportsModel.cs:9-24 | a new report has no identity yet, SubmissionDate is the creation instant and Status is "Under Review" |
| ReportsModel.Valid | MunicipalityManagementSystemV2/Models/ReportsModel.cs:16-24 | a report passes validation iff ReportType and Details are required; Status and SubmissionDate are unconstrained |
| ReportsModel.AnyWithIdIff | MunicipalityManagementSystemV2/Controllers/ReportsModelsController.cs:168 | over a table keyed by id, `Any(e => e.ReportID == id)` holds iff id is a stored key |
| ReportsModel.AnyStatusKeepsValid | MunicipalityManagementSystemV2/Models/ReportsModel.cs:24 | the report status has no constraint: any status keeps a valid report valid |
| ReportsModel.EmptyFieldsRejected | MunicipalityManagementSystemV2/Models/ReportsModel.cs:16-20 | a report with an empty ReportType or Details is invalid |
| Actions.Find | MunicipalityManagementSystemV2/Controllers/CitizenManagementModelsController.cs:26-41 | the shared lookup: NotFound iff the id is null or not stored, otherwise a view of the stored row unchanged |
| Context.MunicipalityContext.constructor | MunicipalityManagementSystemV2/Data/MunicipalityManagementSystemV2Context.cs:29-32 | an empty database is valid, with every identity column starting at 1 |
| Context.MunicipalityContext.Valid | MunicipalityManagementSystemV2/Data/MunicipalityManagementSystemV2Context.cs:29-32 | the store invariant every action keeps: each row sits under its own identity value, identity values start at 1 and every stored id is below its table's next identity value |
| CitizenController.InsertKeepsEmailsUniqueIff | MunicipalityManagementSystemV2/Controllers/CitizenManagementModelsController.cs:55-63 | inserting under a fresh id keeps citizen emails unique iff Create's `Any` guard finds no equal email |
| CitizenController.ReplaceKeepsEmailsUniqueIff | MunicipalityManagementSystemV2/Controllers/CitizenManagementModelsController.cs:98-106 | replacing a citizen at its own id keeps emails unique iff Edit's guard (own id excluded) finds no equal email |
| CitizenController.AtMostOneWithoutEmail | MunicipalityManagementSystemV2/Controllers/CitizenManagementModelsController.cs:55 | under the code's equality, unique emails allow at most one citizen without an email |
| CitizenController.EmailExists | MunicipalityManagementSystemV2/Controllers/CitizenManagementModelsController.cs:55 | Create's guard `Any(c => c.Email == Email)`: some stored citizen has an equal email, absent equal to absent |
| CitizenController.EmailUsedByOther | MunicipalityManagementSystemV2/Controllers/CitizenManagementModelsController.cs:98 | Edit's guard: some stored citizen other than the one with this id has an equal email |
| CitizenController.Controller.constructor | MunicipalityManagementSystemV2/Controllers/CitizenManagementModelsController.cs:17-20 | the controller works on the context it is given |
| CitizenController.Controller.Details | MunicipalityManagementSystemV2/Controllers/CitizenManagementModelsController.cs:26-41 | NotFound iff the id is null or absent; otherwise the stored citizen, unchanged |
| CitizenController.Controller.EditForm | MunicipalityManagementSystemV2/Controllers/CitizenManagementModelsController.cs:70-83 | NotFound iff the id is null or absent; otherwise the stored citizen |
| CitizenController.Controller.Delete | MunicipalityManagementSystemV2/Controllers/CitizenManagementModelsController.cs:125-140 | NotFound iff the id is null or absent; otherwise the stored citizen |
| CitizenController.Controller.Create | MunicipalityManagementSystemV2/Controllers/CitizenManagementModelsController.cs:49-68 | invalid model state: the candidate view, store unchanged; equal email stored: error on "Email" with the controller's message, store unchanged; else exactly one citizen added under the next id, redirect; uniqueness preserved |
| CitizenController.Controller.Edit | MunicipalityManagementSystemV2/Controllers/CitizenManagementModelsController.cs:85-123 | id mismatch: NotFound; invalid state: view; email used by another: "Email" error; gone: NotFound; conflict: Rethrow; else full replacement at id, other tables unchanged; id 0 inserts; failure paths change nothing; uniqueness preserved |
| CitizenController.Controller.DeleteConfirmed | MunicipalityManagementSystemV2/Controllers/CitizenManagementModelsController.cs:142-154 | the citizen table becomes old minus id (a no-op when absent, so repeating it changes nothing), requests and reports untouched, always redirects |
| CitizenController.Controller.CitizenExists | MunicipalityManagementSystemV2/Controllers/CitizenManagementModelsController.cs:156-159 | true iff a citizen with this id is stored |
| StaffController.InsertKeepsEmailsUniqueIff | MunicipalityManagementSystemV2/Controllers/StaffManagementModelsController.cs:55-63 | inserting under a fresh id keeps staff emails unique iff Create's guard finds no equal email |
| StaffController.ReplaceKeepsEmailsUniqueIff | MunicipalityManagementSystemV2/Controllers/StaffManagementModelsController.cs:99-107 | replacing a staff member at its own id keeps emails unique iff Edit's guard (own id excluded) finds no equal email |
| StaffController.EmailExists | MunicipalityManagementSystemV2/Controllers/StaffManagementModelsController.cs:56 | Create's guard `Any(s => s.Email == Email)`: some stored staff member has this email |
| StaffController.EmailUsedByOther | MunicipalityManagementSystemV2/Controllers/StaffManagementModelsController.cs:99 | Edit's guard: some stored staff member other than the one with this id has this email |
| StaffController.Controller.constructor | MunicipalityManagementSystemV2/Controllers/StaffManagementModelsController.cs:17-20 | the controller works on the context it is given |
| StaffController.Controller.Details | MunicipalityManagementSystemV2/Controllers/StaffManagementModelsController.cs:27-42 | NotFound iff the id is null or absent; otherwise the stored staff member |
| StaffController.Controller.EditForm | MunicipalityManagementSystemV2/Controllers/StaffManagementModelsController.cs:70-83 | NotFound iff the id is null or absent; otherwise the stored staff member |
| StaffController.Controller.Delete | MunicipalityManagementSystemV2/Controllers/StaffManagementModelsController.cs:126-141 | NotFound iff the id is null or absent; otherwise the stored staff member |
| StaffController.Controller.Create | MunicipalityManagementSystemV2/Controllers/StaffManagementModelsController.cs:49-68 | invalid state: view, unchanged; email already used: "Email" error, unchanged; else exactly one member added under the next id, redirect; uniqueness preserved |
| StaffController.Controller.Edit | MunicipalityManagementSystemV2/Controllers/StaffManagementModelsController.cs:85-124 | id mismatch: NotFound; invalid state: view; email used by another: "Email" error; gone: NotFound; conflict: Rethrow; else whole record replaced at id, other rows unchanged; id 0 inserts; failure paths change nothing; uniqueness preserved |
| StaffController.Controller.DeleteConfirmed | MunicipalityManagementSystemV2/Controllers/StaffManagementModelsController.cs:143-155 | the staff table becomes old minus id (idempotent), everything else untouched, always redirects |
| StaffController.Controller.StaffExists | MunicipalityManagementSystemV2/Controllers/StaffManagementModelsController.cs:157-160 | true iff a staff member with this id is stored |
| ServiceRequestController.Controller.constructor | MunicipalityManagementSystemV2/Controllers/ServiceRequestModelsController.cs:17-20 | the controller works on the context it is given |
| ServiceRequestController.Controller.Details | MunicipalityManagementSystemV2/Controllers/ServiceRequestModelsController.cs:27-42 | NotFound iff the id is null or absent; otherwise the stored request |
| ServiceRequestController.Controller.Delete | MunicipalityManagementSystemV2/Controllers/ServiceRequestModelsController.cs:71-86 | NotFound iff the id is null or absent; otherwise the stored request |
| ServiceRequestController.Controller.UpdateStatusForm | MunicipalityManagementSystemV2/Controllers/ServiceRequestModelsController.cs:102-116 | NotFound iff the id is null or absent; otherwise the stored request |
| ServiceRequestController.Controller.Create | MunicipalityManagementSystemV2/Controllers/ServiceRequestModelsController.cs:49-69 | invalid state: view, unchanged; unknown CitizenID: "CitizenID" error "Invalid Citizen ID.", nothing inserted; else exactly one request added, referring to a stored citizen, redirect |
| ServiceRequestController.Controller.UpdateStatus | MunicipalityManagementSystemV2/Controllers/ServiceRequestModelsController.cs:118-159 | id 0 or absent: NotFound, unchanged; otherwise redirects; saves only when the state is valid; a failed save rethrows; only Status of that request changes, all other fields and rows are kept |
| ServiceRequestController.Controller.DeleteConfirmed | MunicipalityManagementSystemV2/Controllers/ServiceRequestModelsController.cs:88-100 | the request table becomes old minus id (idempotent), everything else untouched, always redirects |
| ServiceRequestController.Controller.ServiceRequestExists | MunicipalityManagementSystemV2/Controllers/ServiceRequestModelsController.cs:164-167 | true iff a request with this id is stored |
| ReportsController.Controller.constructor | MunicipalityManagementSystemV2/Controllers/ReportsModelsController.cs:17-20 | the controller works on the context it is given |
| ReportsController.Controller.Details | MunicipalityManagementSystemV2/Controllers/ReportsModelsController.cs:27-42 | NotFound iff the id is null or absent; otherwise the stored report |
| ReportsController.Controller.Delete | MunicipalityManagementSystemV2/Controllers/ReportsModelsController.cs:73-88 | NotFound iff the id is null or absent; otherwise the stored report |
| ReportsController.Controller.ReviewReportForm | MunicipalityManagementSystemV2/Controllers/ReportsModelsController.cs:104-119 | NotFound iff the id is null or absent; otherwise the stored report |
| ReportsController.Controller.Create | MunicipalityManagementSystemV2/Controllers/ReportsModelsController.cs:49-71 | invalid state: view, unchanged; unknown CitizenID: "CitizenID" error "Invalid Citizen ID. Please enter a valid Citizen.", nothing inserted; else exactly one report added, referring to a stored citizen |
| ReportsController.Controller.ReviewReport | MunicipalityManagementSystemV2/Controllers/ReportsModelsController.cs:122-163 | id 0 or absent: NotFound, unchanged; otherwise redirects; saves only when the state is valid; a failed save rethrows; only Status changes (CitizenID, ReportType, Details, SubmissionDate kept) |
| ReportsController.Controller.DeleteConfirmed | MunicipalityManagementSystemV2/Controllers/ReportsModelsController.cs:90-102 | the report table becomes old minus id (idempotent), everything else untouched, always redirects |
| ReportsController.Controller.ReportExists | MunicipalityManagementSystemV2/Controllers/ReportsModelsController.cs:166-169 | true iff a report with this id is stored |
| Scenarios.DuplicateCitizenEmail | MunicipalityManagementSystemV2/Controllers/CitizenManagementModelsController.cs:53-65 | two creates with equal emails (absent ones included): the first redirects, the second fails on "Email", and exactly one citizen is stored |
| Scenarios.UnknownCitizenReference | MunicipalityManagementSystemV2/Controllers/ServiceRequestModelsController.cs:53-62 | on an empty database a request fails on "CitizenID" and no request is stored |
| Scenarios.StatusUpdateKeepsOtherFields | MunicipalityManagementSystemV2/Controllers/ServiceRequestModelsController.cs:127-143 | after filing a request and updating its status, the stored request is the filed one with only the status replaced |
| Scenarios.DeleteTwiceLeavesDanglingRequest | MunicipalityManagementSystemV2/Controllers/CitizenManagementModelsController.cs:144-154 | deleting a citizen twice redirects both times and leaves no citizen; a request for it keeps its now dangling CitizenID |
| Scenarios.IdsNotReused | MunicipalityManagementSystemV2/Models/CitizenManagementModel.cs:9-11 | after a create, a delete and another create, the deleted id stays unused and the new citizen gets id 2 |

## Left out

- The `Index` actions (`ToListAsync` of a whole table) are left out. They only feed a view, and the model's maps carry no row order.
- The `Create` GET actions are left out. They render an empty form and involve no record.
- Hosting, dependency injection, routing, anti-forgery, `[Bind]`, model binding and view rendering are left out. They are framework wiring with no record logic.
- `ModelState.IsValid` is a boolean input. It is not computed from the validity predicates, because the framework's validation pipeline is not part of this model.
- The `[EmailAddress]` format rules are left out. The model takes the format test as the function parameter `isEmail`.
- `DateTime.UtcNow` reads the clock. It becomes the parameter `now`, and instants are tick counts.
- Real concurrency and the async EF Core API are left out. A concurrency exception at save time is the boolean input `concurrencyFailure`.
- `concurrencyFailure` set while the row is still stored stands for a failure the program can produce only with a concurrency token, which none of its entities has. The Rethrow branches of Edit, UpdateStatus and ReviewReport are reachable only through it.
- A row deleted by another request between UpdateStatus's or ReviewReport's read and its save cannot occur in this sequential model. So the NotFound branch after a failed save is dead there.
- A concurrency exception raised by the save in DeleteConfirmed is not modelled.
- The unique indexes declared by the context and the filtered index in the migration snapshot are not modelled as store constraints. The controller guards are at least as strict, so sequentially the indexes never fire.
- Database column limits such as `nvarchar(30)` on the service-request Status are not modelled. UpdateStatus does not check the status length, and the model stores any status. The real database would reject a longer status with an exception that the action does not catch.
- Explicit ids bound on Create (the bound CitizenID, StaffID, RequestID or ReportID) are ignored, and the next identity value is used instead. SQL Server's refusal of explicit identity values is not modelled.
- Identity values are unbounded integers. The 32-bit overflow of an `int` identity column is not modelled.
- Email and CitizenID comparisons are exact sequence and integer equality. SQL Server's collation, which is case-insensitive by default, is not modelled.
- `\d` is modelled as the ASCII digits. .NET also matches other Unicode decimal digits there.
- String lengths count Dafny characters (Unicode scalar values), not UTF-16 code units.
- Missing (null) values of non-nullable fields come from binding failures and cannot be represented. The model's fields are always present.
- Program.cs and the migrations are not part of this model.
