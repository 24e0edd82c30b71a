/** The Staff record and the constraints its attributes declare. */
module StaffModel {
  import opened Annotations

  /** One row of the staff table. Unlike a citizen's, the email is mandatory. */
  datatype Staff = Staff(
    staffId: int,
    fullName: string,
    position: string,
    department: string,
    email: string,
    hiredDate: DateTime)

  const FullNameMaxLength: nat := 100
  const PositionMaxLength: nat := 100
  const DepartmentMaxLength: nat := 100

  predicate FullNameValid(s: string) {
    Required(s) && StringLength(s, FullNameMaxLength)
  }

  predicate PositionValid(s: string) {
    Required(s) && StringLength(s, PositionMaxLength)
  }

  predicate DepartmentValid(s: string) {
    Required(s) && StringLength(s, DepartmentMaxLength)
  }

  /** [Required] and [EmailAddress] together. */
  predicate EmailValid(s: string, isEmail: string -> bool) {
    Required(s) && isEmail(s)
  }

  /**
   * Every attribute constraint of the record holds. HiredDate is a value type:
   * once bound it is always present, so its [Required] adds no condition here.
   */
  predicate Valid(s: Staff, isEmail: string -> bool) {
    && FullNameValid(s.fullName)
    && PositionValid(s.position)
    && DepartmentValid(s.department)
    && EmailValid(s.email, isEmail)
  }

  /** Every row sits under its own StaffID. */
  predicate KeyedById(table: map<int, Staff>) {
    forall k :: k in table ==> table[k].staffId == k
  }

  /** The LINQ test `Any(e => e.StaffID == id)` over a table. */
  predicate AnyWithId(table: map<int, Staff>, id: int) {
    exists k :: k in table && table[k].staffId == id
  }

  /** Over a table whose rows sit under their own ids, the Any test is key membership. */
  lemma AnyWithIdIff(table: map<int, Staff>, id: int)
    requires KeyedById(table)
    ensures AnyWithId(table, id) <==> id in table
  {
    if id in table {
      assert table[id].staffId == id;
    }
  }

  /**
   * FullName, Position and Department are each [Required] and [StringLength(100)]:
   * a valid record has each of them non-empty, at most 100 characters long and
   * holding at least one character that is not white space.
   */
  lemma TextFieldsRequiredAndBounded(s: Staff, isEmail: string -> bool)
    requires Valid(s, isEmail)
    ensures 0 < |s.fullName| <= 100 && exists i :: 0 <= i < |s.fullName| && !IsWhiteSpace(s.fullName[i])
    ensures 0 < |s.position| <= 100 && exists i :: 0 <= i < |s.position| && !IsWhiteSpace(s.position[i])
    ensures 0 < |s.department| <= 100 && exists i :: 0 <= i < |s.department| && !IsWhiteSpace(s.department[i])
  {
  }

  /** A FullName, Position or Department longer than 100 characters is refused whatever the other fields hold. */
  lemma OverlongTextFieldRejected(s: Staff, isEmail: string -> bool)
    requires |s.fullName| > 100 || |s.position| > 100 || |s.department| > 100
    ensures !Valid(s, isEmail)
  {
  }

  /**
   * The email is required: however permissive the format test, a valid staff
   * record never has an empty or blank email.
   */
  lemma EmailRequired(s: Staff, isEmail: string -> bool)
    requires Valid(s, isEmail)
    ensures |s.email| > 0 && exists i :: 0 <= i < |s.email| && !IsWhiteSpace(s.email[i])
  {
  }

  /** A record whose email is blank is rejected even when the format test accepts everything. */
  lemma BlankEmailRejected(s: Staff)
    requires forall i :: 0 <= i < |s.email| ==> IsWhiteSpace(s.email[i])
    ensures !Valid(s, _ => true)
  {
  }
}
