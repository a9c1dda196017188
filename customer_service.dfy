/**
 * The customer service: validation, persistence, audit notice and the mapping
 * of every outcome to a response envelope, for save, get, get-all, update and
 * delete.
 */
module CustomerService {
  import opened Wrappers
  import opened CalendarDates
  import opened DobFormat
  import opened Customers
  import opened SaveCustomerRequest
  import opened Responses
  import opened CustomerRepository

  /**
   * An update request. Its sex and date of birth are taken as already
   * converted to the entity's types.
   */
  datatype UpdateRequest = UpdateRequest(
    id: int,
    name: string,
    accountType: string,
    contractType: string,
    details: CustomerDetails)

  /**
   * The admission part of saveCustomer: sex, then date of birth, then contract
   * type are checked, the first failing check decides the error, and a request
   * that passes all three becomes a new aggregate without an id.
   */
  function Admit(req: Request, today: CalendarDate): (r: Result<Customer, Error>)
    ensures r == Failure(InvalidSex) <==> SexOf(req.details.sex).None?
    ensures r == Failure(InvalidDob) <==>
      && SexOf(req.details.sex).Some?
      && (ParseDob(req.details.dob).None? || DayNumber(ParseDob(req.details.dob).value) > DayNumber(today))
    ensures r == Failure(InvalidContract) <==>
      && SexOf(req.details.sex).Some?
      && ParseDob(req.details.dob).Some? && DayNumber(ParseDob(req.details.dob).value) <= DayNumber(today)
      && req.contractType !in ContractTypes
    ensures r.Failure? ==> r.error in {InvalidSex, InvalidDob, InvalidContract}
    ensures r.Success? ==>
      && r.value.id.None?
      && r.value.name == req.name && r.value.accountType == req.accountType
      && r.value.contractType == req.contractType && r.value.contractType in ContractTypes
      && SexCode(r.value.details.sex) == req.details.sex
      && ParseDob(req.details.dob) == Some(r.value.details.dob)
      && !IsAfter(r.value.details.dob, today)
      && r.value.details.nativePlace == req.details.nativePlace
  {
    if CheckSex(req.details) then Failure(InvalidSex)
    else if CheckDob(req.details, today) != Some(false) then Failure(InvalidDob)
    else if CheckContractType(req) then Failure(InvalidContract)
    else
      var details := CustomerDetails(SexOf(req.details.sex).value, ParseDob(req.details.dob).value, req.details.nativePlace);
      Success(Customer(None, req.name, req.accountType, req.contractType, details))
  }

  /**
   * Saving a request whose date of birth names a real calendar date and then
   * reading the record back gives every submitted field unchanged, the date
   * of birth in the same "dd-MM-yyyy" text.
   */
  lemma SaveThenGet(req: Request, today: CalendarDate, id: int)
    requires Admit(req, today).Success?
    requires ValidDate(DobFields(req.details.dob).value)
    ensures View(Admit(req, today).value.(id := Some(id))) ==
      CustomerView(Some(id), req.name, req.accountType, req.contractType,
        DetailsView(req.details.sex, req.details.dob, req.details.nativePlace))
  {
    FormatParseRoundTrip(req.details.dob);
  }

  /**
   * The round trip does not hold for a day the month lacks: "31-04-2000" is
   * accepted on save and read back as "30-04-2000".
   */
  lemma ClampedDobReadsBackChanged(req: Request, today: CalendarDate)
    requires req.details.sex == "F" && req.contractType == "parttime" && req.details.dob == "31-04-2000"
    requires !IsAfter(Date(2000, 4, 30), today)
    ensures Admit(req, today).Success?
    ensures View(Admit(req, today).value.(id := Some(1))).details.dob == "30-04-2000"
  {
    assert DobFields(req.details.dob) == Some(Date(2000, 4, 31));
    assert ParseDob(req.details.dob) == Some(Date(2000, 4, 30));
    ChronologicalOrder(Date(2000, 4, 30), today);
    var d: CalendarDate := Date(2000, 4, 30);
    assert FormatDate(d) == "30-04-2000";
  }

  /** Update overwrites every mutable field of the looked-up aggregate and keeps its id. */
  function Overwrite(c: Customer, req: UpdateRequest): (u: Customer)
    ensures u.id == c.id
    ensures View(u) == CustomerView(c.id, req.name, req.accountType, req.contractType,
      DetailsView(SexCode(req.details.sex), FormatDate(req.details.dob), req.details.nativePlace))
  {
    c.(name := req.name, accountType := req.accountType, contractType := req.contractType, details := req.details)
  }

  class Service {
    const repo: Repository
    /** Ids of the saves announced on the audit channel, oldest first. */
    ghost var announced: seq<int>

    ghost predicate Valid()
      reads this, repo
    {
      repo.Valid()
    }

    constructor (repo: Repository)
      requires repo.Valid()
      ensures this.repo == repo && announced == [] && Valid()
    {
      this.repo := repo;
      announced := [];
    }

    /**
     * saveCustomer, with the current date and the store's failure (if any)
     * passed in. A refused request and a failed store write leave the store's
     * rows and the audit channel untouched; a stored customer gets the next id
     * and is announced.
     */
    method SaveCustomer(req: Request, today: CalendarDate, storeFault: Option<string>) returns (r: SaveResponse)
      requires Valid()
      modifies this, repo
      ensures Valid() && WellFormed(r.status)
      ensures Admit(req, today).Failure? ==>
        && r == SaveResponse(Fail(Admit(req, today).error), None, None)
        && repo.rows == old(repo.rows) && repo.nextId == old(repo.nextId)
        && repo.writes == old(repo.writes) && announced == old(announced)
      ensures Admit(req, today).Success? ==> repo.writes == old(repo.writes) + [Saved(Admit(req, today).value)]
      ensures Admit(req, today).Success? && storeFault.Some? ==>
        && r == SaveResponse(Fail(StoreFailure(storeFault.value)), None, None)
        && repo.rows == old(repo.rows) && repo.nextId == old(repo.nextId) && announced == old(announced)
      ensures Admit(req, today).Success? && storeFault.None? ==>
        && r == SaveResponse(Ok(SaveCustomerMsg), Some(old(repo.nextId)), Some(req.name))
        && repo.rows == old(repo.rows)[old(repo.nextId) := Admit(req, today).value.(id := Some(old(repo.nextId)))]
        && repo.nextId == old(repo.nextId) + 1
        && announced == old(announced) + [old(repo.nextId)]
    {
      var admitted := Admit(req, today);
      if admitted.Failure? {
        return SaveResponse(Fail(admitted.error), None, None);
      }
      var saved := repo.Save(admitted.value, storeFault);
      match saved
      case Failure(cause) =>
        r := SaveResponse(Fail(StoreFailure(cause)), None, None);
      case Success(stored) =>
        announced := announced + [stored.id.value];
        r := SaveResponse(Ok(SaveCustomerMsg), stored.id, Some(req.name));
    }

    /** getCustomer: the stored record projected to text, or NO_RECORD_FOUND without a payload. */
    method GetCustomer(id: int) returns (r: GetResponse)
      ensures WellFormed(r.status)
      ensures id !in repo.rows ==> r == GetResponse(Fail(NoRecordFound), None)
      ensures id in repo.rows ==> r == GetResponse(Ok(GetCustomerMsg), Some(View(repo.rows[id])))
    {
      var found := repo.FindById(id);
      match found
      case None =>
        r := GetResponse(Fail(NoRecordFound), None);
      case Some(c) =>
        r := GetResponse(Ok(GetCustomerMsg), Some(View(c)));
    }

    /**
     * getAllCustomer: NO_RECORD_FOUND with no entries for an empty store;
     * otherwise one projected entry per stored customer, in the store's
     * listing order.
     */
    method GetAllCustomer() returns (r: GetAllResponse)
      requires Valid()
      ensures WellFormed(r.status)
      ensures repo.rows == map[] ==> r == GetAllResponse(Fail(NoRecordFound), [])
      ensures repo.rows != map[] ==>
        var all := InIdOrder(repo.rows, repo.nextId);
        && r.status == Ok(GetAllCustomerMsg)
        && |r.customers| == |all|
        && forall i | 0 <= i < |all| :: r.customers[i] == View(all[i])
    {
      var all := repo.FindAll();
      if |all| == 0 {
        return GetAllResponse(Fail(NoRecordFound), []);
      }
      var views: seq<CustomerView> := [];
      var i := 0;
      while i < |all|
        invariant 0 <= i <= |all|
        invariant |views| == i
        invariant forall j | 0 <= j < i :: views[j] == View(all[j])
      {
        views := views + [View(all[i])];
        i := i + 1;
      }
      r := GetAllResponse(Ok(GetAllCustomerMsg), views);
    }

    /**
     * updateCustomer: the looked-up aggregate, with its mutable fields
     * overwritten, is saved back under its own id; an absent id gives
     * NO_RECORD_FOUND and no write.
     */
    method UpdateCustomer(req: UpdateRequest) returns (r: UpdateResponse)
      requires Valid()
      modifies repo
      ensures Valid() && WellFormed(r.status)
      ensures repo.nextId == old(repo.nextId)
      ensures req.id !in old(repo.rows) ==>
        && r == UpdateResponse(Fail(NoRecordFound), None, None)
        && repo.rows == old(repo.rows) && repo.writes == old(repo.writes)
      ensures req.id in old(repo.rows) ==>
        var updated := Overwrite(old(repo.rows)[req.id], req);
        && updated.id == Some(req.id)
        && repo.rows == old(repo.rows)[req.id := updated]
        && repo.writes == old(repo.writes) + [Saved(updated)]
        && r == UpdateResponse(Ok(UpdateCustomerMsg), Some(req.id), Some(req.name))
    {
      var found := repo.FindById(req.id);
      if found.None? {
        return UpdateResponse(Fail(NoRecordFound), None, None);
      }
      var updated := Overwrite(found.value, req);
      var saved := repo.Save(updated, None);
      r := UpdateResponse(Ok(UpdateCustomerMsg), updated.id, Some(req.name));
    }

    /**
     * deleteCustomer: delete-by-id is called exactly once, for a present id,
     * and the response names the deleted record; an absent id gives
     * NO_RECORD_FOUND and no call.
     */
    method DeleteCustomer(id: int) returns (r: DeleteResponse)
      requires Valid()
      modifies repo
      ensures Valid() && WellFormed(r.status)
      ensures repo.nextId == old(repo.nextId)
      ensures id !in old(repo.rows) ==>
        && r == DeleteResponse(Fail(NoRecordFound), None, None)
        && repo.rows == old(repo.rows) && repo.writes == old(repo.writes)
      ensures id in old(repo.rows) ==>
        && repo.rows == old(repo.rows) - {id}
        && repo.writes == old(repo.writes) + [Deleted(id)]
        && r == DeleteResponse(Ok(DeleteCustomerMsg), Some(id), Some(old(repo.rows)[id].name))
    {
      var found := repo.FindById(id);
      if found.None? {
        return DeleteResponse(Fail(NoRecordFound), None, None);
      }
      var deletedId, deletedName := found.value.id, found.value.name;
      repo.DeleteById(id);
      r := DeleteResponse(Ok(DeleteCustomerMsg), deletedId, Some(deletedName));
    }
  }
}
