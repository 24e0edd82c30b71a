/** The Citizen record and the constraints its attributes declare. */
module CitizenModel {
  import opened Wrappers
  import opened Annotations

  /** One row of the citizen table. The email and the date of birth are optional. */
  datatype Citizen = Citizen(
    citizenId: int,
    fullname: string,
    address: string,
    phoneNumber: string,
    email: Option<string>,
    dateOfBirth: Option<DateTime>,
    registrationDate: DateTime)

  const FullnameMaxLength: nat := 100
  const AddressMaxLength: nat := 200
  const PhoneNumberDigits: nat := 10

  predicate FullnameValid(s: string) {
    Required(s) && StringLength(s, FullnameMaxLength)
  }

  predicate AddressValid(s: string) {
    Required(s) && StringLength(s, AddressMaxLength)
  }

  /** [Required] together with the pattern ^\d{10}$. */
  predicate PhoneNumberValid(s: string) {
    Required(s) && MatchesDigits(s, PhoneNumberDigits)
  }

  /** [EmailAddress] on an optional field: an absent email passes, a present one must have the email format. */
  predicate EmailValid(email: Option<string>, isEmail: string -> bool) {
    email.None? || isEmail(email.value)
  }

  /** Every attribute constraint of the record holds; `isEmail` is the [EmailAddress] format test. */
  predicate Valid(c: Citizen, isEmail: string -> bool) {
    && FullnameValid(c.fullname)
    && AddressValid(c.address)
    && PhoneNumberValid(c.phoneNumber)
    && EmailValid(c.email, isEmail)
  }

  /** Every row sits under its own CitizenID. */
  predicate KeyedById(table: map<int, Citizen>) {
    forall k :: k in table ==> table[k].citizenId == k
  }

  /** The LINQ test `Any(c => c.CitizenID == id)` over a table. */
  predicate AnyWithId(table: map<int, Citizen>, id: int) {
    exists k :: k in table && table[k].citizenId == id
  }

  /** Over a table whose rows sit under their own ids, the Any test is key membership. */
  lemma AnyWithIdIff(table: map<int, Citizen>, id: int)
    requires KeyedById(table)
    ensures AnyWithId(table, id) <==> id in table
  {
    if id in table {
      assert table[id].citizenId == id;
    }
  }

  /**
   * A freshly constructed record: no identity assigned yet (CitizenID is 0)
   * and RegistrationDate set to the instant of construction.
   */
  function New(fullname: string, address: string, phoneNumber: string,
               email: Option<string>, dateOfBirth: Option<DateTime>, now: DateTime): (c: Citizen)
    ensures c.citizenId == 0 && c.registrationDate == now
    ensures c.fullname == fullname && c.address == address && c.phoneNumber == phoneNumber
    ensures c.email == email && c.dateOfBirth == dateOfBirth
  {
    Citizen(0, fullname, address, phoneNumber, email, dateOfBirth, now)
  }

  /** A phone number is accepted exactly when it is ten decimal digits. */
  lemma PhoneNumberValidIff(s: string)
    ensures PhoneNumberValid(s) <==> |s| == 10 && forall i :: 0 <= i < |s| ==> IsDigit(s[i])
  {
    MatchesDigitsExactly(s, PhoneNumberDigits);
    if MatchesDigits(s, PhoneNumberDigits) {
      DigitsAreRequired(s, PhoneNumberDigits);
    }
  }

  /**
   * The email is optional: whether a record without one is valid depends on
   * the other fields only, and the format test is never consulted.
   */
  lemma EmailOptional(c: Citizen, isEmail: string -> bool)
    requires c.email.None?
    ensures Valid(c, isEmail) <==> FullnameValid(c.fullname) && AddressValid(c.address) && PhoneNumberValid(c.phoneNumber)
  {
  }

  /**
   * The defaults impose nothing: a new record is valid exactly when the
   * values the caller supplied are, whatever the date of birth and the instant.
   */
  lemma NewValidIff(fullname: string, address: string, phoneNumber: string,
                    email: Option<string>, dateOfBirth: Option<DateTime>, now: DateTime, isEmail: string -> bool)
    ensures Valid(New(fullname, address, phoneNumber, email, dateOfBirth, now), isEmail)
        <==> FullnameValid(fullname) && AddressValid(address) && PhoneNumberValid(phoneNumber) && EmailValid(email, isEmail)
  {
  }
}
