/**
 * The response envelopes: every response carries a success discriminator and
 * either a message (on success) or an error (on failure), plus the payload of
 * its operation; and the projection of a stored customer back to text.
 */
module Responses {
  import opened Wrappers
  import opened CalendarDates
  import opened DobFormat
  import opened Customers

  /** ResponseMessage.SUCCESS_COUNT and ResponseMessage.ERROR_COUNT. */
  datatype Counter = SuccessCount | ErrorCount

  /** ResponseMessage constants sent on success (GET_CUSTOMER, ...). */
  datatype Message = SaveCustomerMsg | GetCustomerMsg | GetAllCustomerMsg | UpdateCustomerMsg | DeleteCustomerMsg

  /** ResponseMessage constants sent on failure, and the text of a store failure. */
  datatype Error = InvalidSex | InvalidDob | InvalidContract | NoRecordFound | StoreFailure(cause: string)

  datatype Status = Status(success: Counter, message: Option<Message>, error: Option<Error>)

  /** Exactly one of the two shapes: SUCCESS_COUNT with a message, or ERROR_COUNT with an error. */
  predicate WellFormed(s: Status) {
    || (s.success == SuccessCount && s.message.Some? && s.error.None?)
    || (s.success == ErrorCount && s.error.Some? && s.message.None?)
  }

  function Ok(m: Message): (s: Status)
    ensures WellFormed(s) && s.success == SuccessCount && s.message == Some(m)
  {
    Status(SuccessCount, Some(m), None)
  }

  function Fail(e: Error): (s: Status)
    ensures WellFormed(s) && s.success == ErrorCount && s.error == Some(e)
  {
    Status(ErrorCount, None, Some(e))
  }

  /** A well-formed status is a success exactly when it carries a message and no error. */
  lemma Discriminates(s: Status)
    requires WellFormed(s)
    ensures s.success == SuccessCount <==> s.message.Some?
    ensures s.success == ErrorCount <==> s.error.Some?
    ensures s.message.Some? != s.error.Some?
  {
  }

  datatype DetailsView = DetailsView(sex: string, dob: string, nativePlace: string)

  /** The customer entry of GetCustomerResponse and GetAllCustomerResponse. */
  datatype CustomerView = CustomerView(
    id: Option<int>,
    name: string,
    accountType: string,
    contractType: string,
    details: DetailsView)

  /**
   * Projects a stored customer to text: the sex as its constant name and the
   * date of birth as "dd-MM-yyyy". Nothing is lost: both read back to the
   * stored values.
   */
  function View(c: Customer): (v: CustomerView)
    ensures v.id == c.id && v.name == c.name
    ensures v.accountType == c.accountType && v.contractType == c.contractType
    ensures v.details.nativePlace == c.details.nativePlace
    ensures SexOf(v.details.sex) == Some(c.details.sex)
    ensures ParseDob(v.details.dob) == Some(c.details.dob)
    ensures DobFields(v.details.dob) == Some(c.details.dob)
  {
    ParseFormatRoundTrip(c.details.dob);
    SexRoundTrip(c.details.sex);
    CustomerView(c.id, c.name, c.accountType, c.contractType,
      DetailsView(SexCode(c.details.sex), FormatDate(c.details.dob), c.details.nativePlace))
  }

  datatype SaveResponse = SaveResponse(status: Status, id: Option<int>, name: Option<string>)

  datatype GetResponse = GetResponse(status: Status, customer: Option<CustomerView>)

  datatype GetAllResponse = GetAllResponse(status: Status, customers: seq<CustomerView>)

  datatype UpdateResponse = UpdateResponse(status: Status, id: Option<int>, name: Option<string>)

  datatype DeleteResponse = DeleteResponse(status: Status, id: Option<int>, name: Option<string>)
}
