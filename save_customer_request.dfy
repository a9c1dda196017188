/** The body of a save request and its three business-rule validators. */
module SaveCustomerRequest {
  import opened Wrappers
  import opened CalendarDates
  import opened DobFormat
  import opened Customers

  /** The nested "details" object, as raw strings. */
  datatype Details = Details(sex: string, dob: string, nativePlace: string)

  datatype Request = Request(name: string, details: Details, accountType: string, contractType: string)

  /** The two contract types the service accepts. */
  const ContractTypes: set<string> := {"fulltime", "parttime"}

  /** checkSex: true when the sex text names no Sex constant ("M" or "F", case-sensitive). */
  function CheckSex(d: Details): (invalid: bool)
    ensures !invalid <==> exists x: Sex :: SexCode(x) == d.sex
    ensures !invalid <==> SexOf(d.sex).Some?
  {
    var known := d.sex == "M" || d.sex == "F";
    assert known ==> SexCode(SexOf(d.sex).value) == d.sex;
    !known
  }

  /**
   * checkDob with the current date passed in as today: None where the parse
   * throws, otherwise whether the date of birth lies strictly after today on
   * the calendar. A birth date equal to today is accepted.
   */
  function CheckDob(d: Details, today: CalendarDate): (r: Option<bool>)
    ensures r.None? <==> ParseDob(d.dob).None?
    ensures r.Some? ==> (r.value <==> DayNumber(ParseDob(d.dob).value) > DayNumber(today))
    ensures r.Some? && ParseDob(d.dob).value == today ==> r == Some(false)
  {
    match ParseDob(d.dob)
    case None => None
    case Some(dob) =>
      ChronologicalOrder(dob, today);
      Some(IsAfter(dob, today))
  }

  /** checkContractType: true unless the contract type is exactly "fulltime" or "parttime". */
  function CheckContractType(r: Request): (invalid: bool)
    ensures !invalid <==> r.contractType in ContractTypes
  {
    r.contractType != "fulltime" && r.contractType != "parttime"
  }

  /** The comparisons are exact: other spellings and capitalisations are invalid. */
  lemma ChecksAreCaseSensitive(r: Request)
    requires r.details.sex in {"m", "f", "T", "", "M "}
    requires r.contractType in {"Part-Time", "FullTime", "FULLTIME", "part time", ""}
    ensures CheckSex(r.details) && CheckContractType(r)
  {
  }

  /**
   * For a fixed today the date-of-birth rule is monotone: once a date of birth
   * is refused as lying in the future, every later date of birth is refused too.
   */
  lemma CheckDobMonotone(earlier: Details, later: Details, today: CalendarDate)
    ensures
      && CheckDob(earlier, today) == Some(true)
      && ParseDob(later.dob).Some?
      && IsAfter(ParseDob(later.dob).value, ParseDob(earlier.dob).value)
      ==> CheckDob(later, today) == Some(true)
  {
    if CheckDob(earlier, today) == Some(true) && ParseDob(later.dob).Some? {
      ChronologicalOrder(ParseDob(later.dob).value, ParseDob(earlier.dob).value);
    }
  }
}
