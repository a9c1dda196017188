/** The stored customer aggregate: a Customer and the CustomerDetails it owns. */
module Customers {
  import opened Wrappers
  import opened CalendarDates

  /** The Sex enum of the entity; its constant names are its text form. */
  datatype Sex = M | F

  function SexCode(x: Sex): string {
    match x
    case M => "M"
    case F => "F"
  }

  /** Sex.valueOf: exact, case-sensitive lookup of a constant name. */
  function SexOf(code: string): (r: Option<Sex>)
    ensures r.Some? ==> SexCode(r.value) == code
    ensures r.None? ==> forall x: Sex :: SexCode(x) != code
  {
    if code == "M" then Some(M) else if code == "F" then Some(F) else None
  }

  lemma SexRoundTrip(x: Sex)
    ensures SexOf(SexCode(x)) == Some(x)
  {
  }

  /** Sex, date of birth and native place; owned by exactly one Customer. */
  datatype CustomerDetails = CustomerDetails(sex: Sex, dob: CalendarDate, nativePlace: string)

  /** The store assigns the id; a customer not yet saved has none. */
  datatype Customer = Customer(
    id: Option<int>,
    name: string,
    accountType: string,
    contractType: string,
    details: CustomerDetails)
}
