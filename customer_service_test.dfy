/**
 * The unit tests of the customer service, restated against the model: each
 * method sets up a store, runs one operation and promises what the test
 * asserts about the response and, for update and delete, about the store
 * writes the operation made.
 */
module CustomerServiceTest {
  import opened Wrappers
  import opened CalendarDates
  import opened DobFormat
  import opened Customers
  import opened SaveCustomerRequest
  import opened Responses
  import opened CustomerRepository
  import opened CustomerService

  /** The request every save test starts from. */
  function SampleRequest(): Request {
    Request("Dhruv Vyas", Details("M", "17-06-2005", "Ahmedabad"), "Savings", "fulltime")
  }

  /** The record the get, get-all and update tests put in the store, born 01-01-1990. */
  function MockCustomer(): Customer {
    Customer(Some(1), "Dhruv Vyas", "Savings", "fulltime", CustomerDetails(M, Date(1990, 1, 1), "Ahmedabad"))
  }

  /** The sample date of birth, 17-06-2005, is not after today. */
  predicate SampleDobIsPast(today: CalendarDate) {
    !IsAfter(Date(2005, 6, 17), today)
  }

  /** A service over an empty store. */
  method NewService() returns (s: Service)
    ensures fresh(s) && fresh(s.repo) && s.Valid()
    ensures s.repo.rows == map[] && s.repo.nextId == 1 && s.repo.writes == []
  {
    var repo := new Repository();
    s := new Service(repo);
  }

  /** A service whose store already holds the mock record under id 1; no clock is involved. */
  method SeededService() returns (s: Service)
    ensures fresh(s) && fresh(s.repo) && s.Valid()
    ensures s.repo.rows == map[1 := MockCustomer()] && s.repo.nextId == 2
  {
    var repo := new Repository();
    var _ := repo.Save(MockCustomer().(id := None), None);
    s := new Service(repo);
  }

  method ShouldSaveCustomerSuccessfully(today: CalendarDate) returns (r: SaveResponse)
    requires SampleDobIsPast(today)
    ensures r.name == Some("Dhruv Vyas") && r.status.success == SuccessCount
  {
    var s := NewService();
    ChronologicalOrder(Date(2005, 6, 17), today);
    assert ParseDob("17-06-2005") == Some(Date(2005, 6, 17));
    r := s.SaveCustomer(SampleRequest(), today, None);
  }

  method ShouldReturnInvalidSexErrorWhenSavingCustomer(today: CalendarDate) returns (r: SaveResponse)
    ensures r.status.error == Some(InvalidSex) && r.status.success == ErrorCount
  {
    var s := NewService();
    var req := SampleRequest();
    r := s.SaveCustomer(req.(details := req.details.(sex := "T")), today, None);
  }

  method ShouldReturnInvalidDobErrorWhenSavingCustomer(today: CalendarDate) returns (r: SaveResponse)
    requires IsAfter(Date(2025, 6, 17), today)
    ensures r.status.error == Some(InvalidDob) && r.status.success == ErrorCount
  {
    var s := NewService();
    var req := SampleRequest();
    ChronologicalOrder(Date(2025, 6, 17), today);
    assert ParseDob("17-06-2025") == Some(Date(2025, 6, 17));
    r := s.SaveCustomer(req.(details := req.details.(dob := "17-06-2025")), today, None);
  }

  method ShouldReturnInvalidContractTypeErrorWhenSavingCustomer(today: CalendarDate) returns (r: SaveResponse)
    requires SampleDobIsPast(today)
    ensures r.status.error == Some(InvalidContract) && r.status.success == ErrorCount
  {
    var s := NewService();
    ChronologicalOrder(Date(2005, 6, 17), today);
    assert ParseDob("17-06-2005") == Some(Date(2005, 6, 17));
    var req := SampleRequest().(contractType := "Part-Time");
    assert !CheckSex(req.details) && CheckDob(req.details, today) == Some(false);
    assert CheckContractType(req);
    assert Admit(req, today) == Failure(InvalidContract);
    r := s.SaveCustomer(req, today, None);
  }

  method ShouldHandleSaveCustomerException(today: CalendarDate) returns (r: SaveResponse)
    requires SampleDobIsPast(today)
    ensures r.status.error == Some(StoreFailure("Database error")) && r.status.success == ErrorCount
  {
    var s := NewService();
    ChronologicalOrder(Date(2005, 6, 17), today);
    assert ParseDob("17-06-2005") == Some(Date(2005, 6, 17));
    r := s.SaveCustomer(SampleRequest(), today, Some("Database error"));
    assert s.repo.rows == map[];
  }

  method ShouldReturnAllCustomersSuccessfully() returns (r: GetAllResponse)
    ensures r.status == Ok(GetAllCustomerMsg) && r.status.success == SuccessCount
    ensures r.customers == [CustomerView(Some(1), "Dhruv Vyas", "Savings", "fulltime",
      DetailsView("M", "01-01-1990", "Ahmedabad"))]
  {
    var s := SeededService();
    r := s.GetAllCustomer();
    assert InIdOrder(s.repo.rows, 2) == [s.repo.rows[1]];
    var d: CalendarDate := Date(1990, 1, 1);
    assert FormatDate(d) == "01-01-1990";
  }

  method ShouldReturnNoRecordsFoundWhenGettingAllCustomers() returns (r: GetAllResponse)
    ensures r.status.error == Some(NoRecordFound) && r.status.success == ErrorCount
    ensures r.customers == []
  {
    var s := NewService();
    r := s.GetAllCustomer();
  }

  method ShouldReturnCustomerSuccessfully() returns (r: GetResponse)
    ensures r.status.success == SuccessCount && r.status.message == Some(GetCustomerMsg)
    ensures r.customer.Some? && r.customer.value.id == Some(1) && r.customer.value.name == "Dhruv Vyas"
    ensures r.customer.value.details == DetailsView("M", "01-01-1990", "Ahmedabad")
  {
    var s := SeededService();
    r := s.GetCustomer(1);
    var d: CalendarDate := Date(1990, 1, 1);
    assert FormatDate(d) == "01-01-1990";
  }

  method ShouldReturnCustomerNotFound() returns (r: GetResponse)
    ensures r.status.error == Some(NoRecordFound) && r.status.success == ErrorCount
    ensures r.customer == None
  {
    var s := NewService();
    r := s.GetCustomer(1);
  }

  /** The update request of the update tests. */
  function SampleUpdate(): UpdateRequest {
    UpdateRequest(1, "Dhruv Updated", "Current", "parttime", CustomerDetails(M, Date(1991, 1, 1), "Los Angeles"))
  }

  /** `calls` are the store writes the update made: one save of the looked-up record, overwritten. */
  method ShouldUpdateCustomerSuccessfully() returns (r: UpdateResponse, ghost calls: seq<Write>)
    ensures r.id == Some(1) && r.name == Some("Dhruv Updated")
    ensures r.status.success == SuccessCount && r.status.message == Some(UpdateCustomerMsg)
    ensures calls == [Saved(Overwrite(MockCustomer(), SampleUpdate()))]
  {
    var s := SeededService();
    ghost var before := s.repo.writes;
    r := s.UpdateCustomer(SampleUpdate());
    calls := s.repo.writes[|before|..];
  }

  /** `calls` are the store writes the update made: none. */
  method ShouldReturnCustomerNotFoundWhenUpdating() returns (r: UpdateResponse, ghost calls: seq<Write>)
    ensures r.status.error == Some(NoRecordFound) && r.status.success == ErrorCount
    ensures calls == []
  {
    var s := NewService();
    r := s.UpdateCustomer(SampleUpdate());
    calls := s.repo.writes;
  }

  /** `calls` are the store writes the delete made: exactly one delete-by-id, of id 1. */
  method ShouldDeleteCustomerSuccessfully() returns (r: DeleteResponse, ghost calls: seq<Write>)
    ensures r.id == Some(1) && r.name == Some("Dhruv Vyas")
    ensures r.status.success == SuccessCount && r.status.message == Some(DeleteCustomerMsg)
    ensures calls == [Deleted(1)]
  {
    var s := SeededService();
    ghost var before := s.repo.writes;
    r := s.DeleteCustomer(1);
    calls := s.repo.writes[|before|..];
  }

  /** `calls` are the store writes the delete made: none. */
  method ShouldReturnCustomerNotFoundWhenDeleting() returns (r: DeleteResponse, ghost calls: seq<Write>)
    ensures r.status.error == Some(NoRecordFound) && r.status.success == ErrorCount
    ensures calls == []
  {
    var s := NewService();
    r := s.DeleteCustomer(1);
    calls := s.repo.writes;
  }
}
