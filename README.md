# Customer service core, modelled in Dafny

This project models the core of a customer-record service (create, read, update and delete customers that own a details record). It has two parts:

- **The save-request validators** (`SaveCustomerRequest.java`). `checkSex` accepts exactly `"M"` or `"F"`. `checkContractType` accepts exactly `"fulltime"` or `"parttime"`. `checkDob` reads a `dd-MM-yyyy` date of birth and refuses it when it lies strictly after today. Each returns `true` when the field is invalid.
- **The customer service** as its unit tests pin it down (`CustomerServiceTest.java`). Save runs the validators in order and maps the first failure to `INVALID_SEX`, `INVALID_DOB` or `INVALID_CONTRACT`. It then writes to the store, turns a store failure into an error response carrying the failure's text, and announces a successful save on the audit channel. Get, get-all, update and delete return `NO_RECORD_FOUND` for an absent id or an empty store. Every response carries `SUCCESS_COUNT` with a message, or `ERROR_COUNT` with an error.

Modules, leaves first:

- `Wrappers` (`wrappers.dfy`): `Option` and `Result`.
- `CalendarDates` (`calendar_dates.dfy`): Gregorian dates and `LocalDate.isAfter`. It also defines a day count from 0001-01-01 and proves that `isAfter` is exactly the order of that count.
- `DobFormat` (`dob_format.dfy`): `LocalDate.parse` with the pattern `dd-MM-yyyy` and the formatter's default SMART resolver, and the `dd-MM-yyyy` formatting used in responses. Both round trips are proved.
- `Customers` (`customers.dfy`): the `Sex` enum and the `Customer` / `CustomerDetails` aggregate.
- `SaveCustomerRequest` (`save_customer_request.dfy`): the request shape and the three validators, as functions. "Now" is the parameter `today`.
- `Responses` (`responses.dfy`): the response envelopes, their success/error discriminator, and the projection of a stored record back to text.
- `CustomerRepository` (`customer_repository.dfy`): the keyed store, a class over a `map<int, Customer>`. It supports find-by-id, find-all, save (upsert, with the store's failure passed in) and delete-by-id. A ghost log records the save and delete calls it receives.
- `CustomerService` (`customer_service.dfy`): the service, a class holding the repository. Each of its methods states the response and the store's new state exactly.
- `CustomerServiceTest` (`customer_service_test.dfy`): each unit test restated as a method. Each sets up a store, runs the operation and promises what the test asserts. The update and delete tests also return, as a ghost out-parameter, the store writes the operation made, and their contracts state them (the Mockito `verify` calls of the success cases).

`CustomerServiceImpl.java` is not part of this model. The service's behaviour is taken from what its tests assert, completed by these choices of the model: save checks sex, then date of birth, then contract type, and the first failure decides the error; an unparseable date of birth gives `INVALID_DOB`; update runs none of the three validators; the stored date of birth is the date `checkDob` parsed.

Consequences of following the code:

- The SMART resolver of `checkDob`'s parse accepts a day 29, 30 or 31 that the month does not have and moves it back to the month's last day. Because the model stores the date that parse yields, `"31-04-2000"` is accepted and, in the model, reads back as `"30-04-2000"` (`ClampedDobReadsBackChanged`); what the program reads back depends on its own, unseen conversion (see `Admit` under "## Left out"). The save-then-get round trip holds for text that names a real date (`SaveThenGet`).
- `checkDob` accepts a date of birth equal to today. The entity's `@Past` constraint, which is strict, is not merged into it.
- `shouldReturnInvalidDobErrorWhenSavingCustomer` (`CustomerServiceTest.java:112-121`) depends on the clock: from 17 June 2025 on, `"17-06-2025"` is no longer after today, `checkDob` accepts it and the test no longer gets `INVALID_DOB`, so it has been failing since that date. The model's version states this window in its `requires`.
- An unparseable date of birth makes `checkDob` throw. The model keeps that as a separate outcome (`None`), and its service answers `INVALID_DOB` for it.

## Model

| member | source | states |
|---|---|---|
| CalendarDates.DaysInMonth | src/main/java/com/challange/crud/dto/request/SaveCustomerRequest.java:50-51 | months have 28 to 31 days; 31 exactly outside Feb/Apr/Jun/Sep/Nov; 30 for Apr/Jun/Sep/Nov; February has 29 in Gregorian leap years and 28 otherwise |
| CalendarDates.ChronologicalOrder | src/main/java/com/challange/crud/dto/request/SaveCustomerRequest.java:53 | on real dates, `isAfter` (year, then month, then day) holds exactly when the date is later on the calendar (more days since 0001-01-01) |
| CalendarDates.IsAfterStrictTotalOrder | src/main/java/com/challange/crud/dto/request/SaveCustomerRequest.java:53 | `isAfter` is irreflexive, asymmetric, transitive and total on distinct dates |
| DobFormat.DobFields | src/main/java/com/challange/crud/dto/request/SaveCustomerRequest.java:50 | the day, month and year numbers are read exactly when the text is two digits, `-`, two digits, `-`, four digits |
| DobFormat.ParseDob | src/main/java/com/challange/crud/dto/request/SaveCustomerRequest.java:50-51 | parse succeeds exactly for that shape with day 1..31, month 1..12 and year at least 1; text naming a real date yields that date; a day the month lacks is moved back to the month's last day; the result is always a real date |
| DobFormat.FormatDate | src/test/java/com/challange/crud/service/CustomerServiceTest.java:181-189 | the date is written as zero-padded `dd-MM-yyyy` text whose fields read back as the date |
| DobFormat.ParseFormatRoundTrip | src/test/java/com/challange/crud/service/CustomerServiceTest.java:226-237 | parsing a formatted date gives the date back |
| DobFormat.FormatParseRoundTrip | src/test/java/com/challange/crud/service/CustomerServiceTest.java:173-187 | text naming a real date parses to it, and formatting gives the same text back character for character |
| Customers.SexOf | src/main/java/com/challange/crud/model/CustomerDetails.java:33-36 | the enum lookup finds a constant exactly when the text is its name, case-sensitively |
| Customers.SexRoundTrip | src/main/java/com/challange/crud/model/CustomerDetails.java:33-36 | every constant is found by its own name |
| SaveCustomerRequest.CheckSex | src/main/java/com/challange/crud/dto/request/SaveCustomerRequest.java:45-47 | invalid exactly when the sex text is the name of no `Sex` constant (neither `"M"` nor `"F"`) |
| SaveCustomerRequest.CheckDob | src/main/java/com/challange/crud/dto/request/SaveCustomerRequest.java:49-54 | fails (the parse exception) exactly when the date does not parse; otherwise invalid exactly when the date is strictly later than today; a birth date equal to today is valid |
| SaveCustomerRequest.CheckContractType | src/main/java/com/challange/crud/dto/request/SaveCustomerRequest.java:56-58 | invalid exactly when the contract type is neither `"fulltime"` nor `"parttime"` |
| SaveCustomerRequest.ChecksAreCaseSensitive | src/main/java/com/challange/crud/dto/request/SaveCustomerRequest.java:45-58 | other capitalisations and spellings (`"m"`, `"Part-Time"`, `"FULLTIME"`, ...) are invalid |
| SaveCustomerRequest.CheckDobMonotone | src/main/java/com/challange/crud/dto/request/SaveCustomerRequest.java:52-53 | for a fixed today, a date of birth later than a refused one is refused too |
| Responses.Ok | src/test/java/com/challange/crud/service/CustomerServiceTest.java:153-155 | a success envelope is well formed, with `SUCCESS_COUNT` and the given message |
| Responses.Fail | src/test/java/com/challange/crud/service/CustomerServiceTest.java:197-199 | an error envelope is well formed, with `ERROR_COUNT` and the given error |
| Responses.Discriminates | src/test/java/com/challange/crud/service/CustomerServiceTest.java:245-250 | in a well-formed envelope the discriminator is `SUCCESS_COUNT` exactly when a message is present, and message and error never both appear |
| Responses.View | src/test/java/com/challange/crud/service/CustomerServiceTest.java:181-189 | the projection keeps id, name, account type, contract type and native place; the sex text reads back to the stored constant; the date text is the `dd-MM-yyyy` text whose day, month and year fields are exactly the stored date's, and it parses back to that date |
| CustomerRepository.InIdOrderLists | src/test/java/com/challange/crud/service/CustomerServiceTest.java:145-160 | the listing holds every stored customer exactly once (each under its own id, ids strictly increasing) and nothing else |
| CustomerRepository.Repository.FindById | src/test/java/com/challange/crud/service/CustomerServiceTest.java:207 | a customer is returned exactly when the id is stored, and it is the stored one |
| CustomerRepository.Repository.FindAll | src/test/java/com/challange/crud/service/CustomerServiceTest.java:149 | returns every stored customer once, in ascending id order; empty exactly when the store is |
| CustomerRepository.Repository.Save | src/test/java/com/challange/crud/service/CustomerServiceTest.java:134-143 | a failing store changes nothing and reports its text; a stored id is overwritten; anything else is inserted under the next id; the call is logged |
| CustomerRepository.Repository.DeleteById | src/test/java/com/challange/crud/service/CustomerServiceTest.java:292 | the id's row is removed, nothing else changes, and the call is logged |
| CustomerService.Admit | src/test/java/com/challange/crud/service/CustomerServiceTest.java:101-132 | first failing check wins: `INVALID_SEX` iff sex invalid; `INVALID_DOB` iff sex valid and dob unparseable or after today; `INVALID_CONTRACT` iff both valid and contract invalid; otherwise an id-less aggregate carrying the request's fields and the parsed date |
| CustomerService.SaveThenGet | src/test/java/com/challange/crud/service/CustomerServiceTest.java:86-99 | a saved request whose dob names a real date reads back with every submitted field unchanged |
| CustomerService.ClampedDobReadsBackChanged | src/main/java/com/challange/crud/dto/request/SaveCustomerRequest.java:50-51 | `"31-04-2000"` is accepted on save and reads back as `"30-04-2000"` |
| CustomerService.Overwrite | src/test/java/com/challange/crud/service/CustomerServiceTest.java:253-268 | update keeps the record's id and every projected field becomes the request's |
| CustomerService.Service.SaveCustomer | src/test/java/com/challange/crud/service/CustomerServiceTest.java:86-143 | refused request: the error, no write, no announcement; store failure: `ERROR_COUNT` with the failure's text, rows unchanged, no announcement; otherwise stored under the next id, announced, `SUCCESS_COUNT` with the request's name |
| CustomerService.Service.GetCustomer | src/test/java/com/challange/crud/service/CustomerServiceTest.java:203-251 | an absent id gives `NO_RECORD_FOUND` with no payload; a present id gives `GET_CUSTOMER` with the stored record's projection |
| CustomerService.Service.GetAllCustomer | src/test/java/com/challange/crud/service/CustomerServiceTest.java:145-201 | an empty store gives `NO_RECORD_FOUND` with no entries; otherwise `GET_ALL_CUSTOMER` with one projected entry per listed customer, in order |
| CustomerService.Service.UpdateCustomer | src/test/java/com/challange/crud/service/CustomerServiceTest.java:253-279 | absent id: `NO_RECORD_FOUND`, no write; present id: the looked-up record, overwritten, is saved under its id and `UPDATE_CUSTOMER` returns the id and new name |
| CustomerService.Service.DeleteCustomer | src/test/java/com/challange/crud/service/CustomerServiceTest.java:281-322 | absent id: `NO_RECORD_FOUND` and no delete call; present id: exactly one delete-by-id for that id, and `DELETE_CUSTOMER` with the deleted record's id and name |
| CustomerServiceTest.ShouldSaveCustomerSuccessfully | src/test/java/com/challange/crud/service/CustomerServiceTest.java:86-99 | on any day from 17 June 2005, the sample request saves with `SUCCESS_COUNT` and echoes its name |
| CustomerServiceTest.ShouldReturnInvalidSexErrorWhenSavingCustomer | src/test/java/com/challange/crud/service/CustomerServiceTest.java:101-110 | sex `"T"` gives `INVALID_SEX` with `ERROR_COUNT` |
| CustomerServiceTest.ShouldReturnInvalidDobErrorWhenSavingCustomer | src/test/java/com/challange/crud/service/CustomerServiceTest.java:112-121 | dob `"17-06-2025"` gives `INVALID_DOB` with `ERROR_COUNT` on any day before 17 June 2025 |
| CustomerServiceTest.ShouldReturnInvalidContractTypeErrorWhenSavingCustomer | src/test/java/com/challange/crud/service/CustomerServiceTest.java:123-132 | on any day from 17 June 2005, contract `"Part-Time"` gives `INVALID_CONTRACT` with `ERROR_COUNT` |
| CustomerServiceTest.ShouldHandleSaveCustomerException | src/test/java/com/challange/crud/service/CustomerServiceTest.java:134-143 | on any day from 17 June 2005, a store failing with `"Database error"` gives that text as the error with `ERROR_COUNT` |
| CustomerServiceTest.ShouldReturnAllCustomersSuccessfully | src/test/java/com/challange/crud/service/CustomerServiceTest.java:145-189 | a store holding one record gives `GET_ALL_CUSTOMER` with one entry, dob `"01-01-1990"`, on every day |
| CustomerServiceTest.ShouldReturnNoRecordsFoundWhenGettingAllCustomers | src/test/java/com/challange/crud/service/CustomerServiceTest.java:191-201 | an empty store gives `NO_RECORD_FOUND`, `ERROR_COUNT` and no entries |
| CustomerServiceTest.ShouldReturnCustomerSuccessfully | src/test/java/com/challange/crud/service/CustomerServiceTest.java:203-239 | id 1 gives `GET_CUSTOMER` with id, name, `"M"`, `"01-01-1990"` and native place |
| CustomerServiceTest.ShouldReturnCustomerNotFound | src/test/java/com/challange/crud/service/CustomerServiceTest.java:241-251 | an absent id gives `NO_RECORD_FOUND`, `ERROR_COUNT` and no payload |
| CustomerServiceTest.ShouldUpdateCustomerSuccessfully | src/test/java/com/challange/crud/service/CustomerServiceTest.java:253-268 | update of id 1 gives `UPDATE_CUSTOMER`, id 1 and the new name, and the store's only write is one save of the looked-up record overwritten by the request |
| CustomerServiceTest.ShouldReturnCustomerNotFoundWhenUpdating | src/test/java/com/challange/crud/service/CustomerServiceTest.java:270-279 | update of an absent id gives `NO_RECORD_FOUND` with `ERROR_COUNT`, and the store is not written |
| CustomerServiceTest.ShouldDeleteCustomerSuccessfully | src/test/java/com/challange/crud/service/CustomerServiceTest.java:281-310 | delete of id 1 gives `DELETE_CUSTOMER` with id 1 and the name, and the store's only write is exactly one delete-by-id of id 1 |
| CustomerServiceTest.ShouldReturnCustomerNotFoundWhenDeleting | src/test/java/com/challange/crud/service/CustomerServiceTest.java:312-322 | delete of an absent id gives `NO_RECORD_FOUND` with `ERROR_COUNT`, and the store is not written |

## Left out

- DobFormat.ParseDob: the pattern `yyyy` also reads years of five or more digits (with a `+` sign where required). The model reads exactly four digits, so a year above 9999 is refused.
- Admit: the entity stores the date of birth as a `java.util.Date`, converted from the text by code in `CustomerServiceImpl`, which is not part of this model; the model assumes the stored value is exactly the date `checkDob`'s parse yields. A different conversion (a lenient `SimpleDateFormat`, which would read `"31-04-2000"` as 1 May, the Julian calendar before 1582, or a time-zone shift) is not modelled, so `Admit`, `SaveThenGet` and `ClampedDobReadsBackChanged` hold for the model's conversion only.
- The clock: `LocalDate.now()` is the parameter `today`. A current year above 9999 cannot be represented.
- Null fields: the validators throw `NullPointerException` on a missing `details`, `sex`, `dob` or `contractType`. In the model the fields are always present.
- Validators and request immutability: the validators are functions over an immutable request value, so they leave the request unchanged by construction.
- Update's text fields: `UpdateCustomerRequest` carries sex and date of birth as text. The code that converts them is in `CustomerServiceImpl`, which is not part of this model. `UpdateRequest` takes them already converted. Update runs none of the three validators (a choice of the model).
- Store failures in get, get-all, update and delete: no test exercises them and their handling is not visible. The store's save fails only when a failure is passed in.
- The audit channel: publishing to the message queue (`KafkaProducerServiceImpl`), consuming it (`KafkaConsumerServiceImpl`) and writing the time-stamped log entry (`AuditLogServiceImpl`) are I/O. The model records only the ghost list `announced` of ids saved and announced.
- Response texts: the values of the `ResponseMessage` constants are not visible. They are modelled as datatype constructors. A store failure's text is carried as `StoreFailure(cause)`. No success message of save is asserted; the model names it `SaveCustomerMsg`.
- findAll order: the store's natural order is unspecified. The model lists customers in ascending id order.
- Entity mechanics: the details' own generated id and its back-reference to the customer, JPA `@NotNull`/`@Past` bean validation, and Jackson/Lombok/Spring wiring are left out.
- In-place update: the service mutates the looked-up entity object before saving it. The model builds the overwritten value and saves it under the same id, so aliasing of the entity object is not modelled.
- Ids are unbounded integers. The 64-bit `Long` range is not modelled.
- Concurrency: each operation runs alone.
