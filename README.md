# User data management service: a verified model of the request pipeline

This project models the request-handling core of a small Spring/MongoDB CRUD service for `User`
records (id, name, email, profession). It covers:

- the payload check `InputValidator.isValidateInput`;
- the process-wide id counter `IdGenerator.createID`, an `AtomicLong` advanced by
  `getAndIncrement`;
- the service layer `UserServiceImpl`, which passes each call straight to a document repository.
  The repository is modelled as an id-keyed `map` with insert-or-replace save;
- the controller `UserController` with its handlers `getAllUsers`, `getUser`, `addNewUser`,
  `updateUser` and `deleteUser` and its helpers `isValidId` and `setUserData`;
- the two exception handlers of `ExceptionMapper`.

Java `null` is `Option.None` throughout. A thrown exception is the `Failure` arm of a `Result`:
`Domain` for a `UserException`, `Generic` for any other exception. Java `long` is the subset type
`Long` of signed 64-bit integers. The counter's wrap-around at `Long.MAX_VALUE` is written out.

Modules, one per file:

- `Entities`: `User`, `UserVO` and `ResponseVO`.
- `InputValidator`: the payload check.
- `IdGenerator`: the counter as a class, plus `CounterAfter(k)`, the counter after k calls.
- `ExceptionMapper`: `UserException`, `ErrorResponse` and the two handlers.
- `UserService`: the service as a class whose `store` field is the repository's contents.
- `UserController`: the controller as a class that holds the service and the id generator.
  Each mutating handler is proved against a pure step function over `State(store, counter)`.
  The lemmas that relate several operations are stated over those step functions.

The model follows what the code does where it differs from what the names suggest:

- `isValidId` is true when the id is null or when no record is stored under it.
- So `updateUser` rejects a payload whose id is already stored. When it accepts a payload, it
  saves the record under a freshly generated id and never replaces an existing record.
- `deleteUser` rejects a null id and an id with no stored record. The helper's name reads as
  inverted at this call site, but the check itself is correct.
- `getUser` returns null for an absent id and raises no error.
- A field holding only blanks passes validation, because `StringUtils.isNotEmpty` tests only
  for null and length 0.
- Both `addNewUser` and `updateUser` first log the payload through `toStringInput`, whose
  `ReflectionToStringBuilder` refuses a null object. A null payload therefore ends in a generic
  exception (status 400) before validation, not in `INPUT.DATA.INVALID`, and changes nothing.
- The counter starts at 0 in every process, but the database keeps its records. After a
  restart, a create can therefore overwrite the record with id 0 (`CreateAfterRestartOverwrites`).

## Model

| member | source | states |
|---|---|---|
| InputValidator.IsNotEmpty | src/main/java/com/user/app/util/InputValidator.java:9-10 | `StringUtils.isNotEmpty`: true if and only if the text is non-null and not the empty string |
| InputValidator.IsValidateInput | src/main/java/com/user/app/util/InputValidator.java:8-18 | an accepted payload is non-null; a non-null payload is accepted if and only if name, email and profession are all not empty |
| InputValidator.NullRejected | src/main/java/com/user/app/util/InputValidator.java:9-15 | a null payload is rejected |
| InputValidator.ValidExactlyWhenFieldsPresent | src/main/java/com/user/app/util/InputValidator.java:9-12 | a payload is accepted if and only if name, email and profession are all non-null and not the empty string |
| InputValidator.WhitespaceAccepted | src/main/java/com/user/app/util/InputValidator.java:9-10 | fields holding a single blank are accepted |
| InputValidator.IdIgnored | src/main/java/com/user/app/util/InputValidator.java:9-10 | the verdict does not depend on the payload's id |
| IdGenerator.Increment | src/main/java/com/user/app/util/IdGenerator.java:11 | one `getAndIncrement` adds 1 modulo 2^64 in two's complement; below `LONG_MAX` that is plain +1 |
| IdGenerator.CounterAfterIsCount | src/main/java/com/user/app/util/IdGenerator.java:7-12 | the counter starts at 0 and the k-th call returns k-1, for as long as `LONG_MAX` is not passed |
| IdGenerator.IdsIncrease | src/main/java/com/user/app/util/IdGenerator.java:7-12 | ids handed out before the wrap are strictly increasing |
| IdGenerator.CounterAfterWraps | src/main/java/com/user/app/util/IdGenerator.java:7-12 | after any number of calls the counter is the call count reduced into the signed 64-bit range |
| IdGenerator.IdsDistinct | src/main/java/com/user/app/util/IdGenerator.java:7-12 | any 2^64 consecutive calls return pairwise distinct ids |
| IdGenerator.WrapsAfterMax | src/main/java/com/user/app/util/IdGenerator.java:11 | the counter is never reset; it wraps from `LONG_MAX` to `LONG_MIN` |
| IdGenerator.IdGenerator.constructor | src/main/java/com/user/app/util/IdGenerator.java:7 | the counter starts at 0 with no calls made |
| IdGenerator.IdGenerator.CreateID | src/main/java/com/user/app/util/IdGenerator.java:9-12 | returns the current value, advances the counter by one increment and counts the call |
| ExceptionMapper.NewUserException | src/main/java/com/user/app/exception/UserException.java:21-25 | the exception carries the given code, and its message is the given errorMessage |
| ExceptionMapper.NewErrorResponse | src/main/java/com/user/app/exception/ErrorResponse.java:10-14 | a fresh error body has success=false and both strings null, Java's field defaults |
| ExceptionMapper.ExceptionUserHandler | src/main/java/com/user/app/exception/ExceptionMapper.java:11-18 | a UserException becomes success=false, its code and its message, with status 404 whatever the code |
| ExceptionMapper.ExceptionHandler | src/main/java/com/user/app/exception/ExceptionMapper.java:20-26 | any other exception becomes error code `String.valueOf(400)`, the fixed malformed-syntax text and status 400; success keeps its default false |
| ExceptionMapper.DecimalString | src/main/java/com/user/app/exception/ExceptionMapper.java:23 | `String.valueOf` of a status gives a non-empty string of decimal digits, without leading zeros, that denotes exactly that number |
| ExceptionMapper.BadRequestCode | src/main/java/com/user/app/exception/ExceptionMapper.java:23 | the generic error code is exactly "400" |
| ExceptionMapper.HandleFailure | src/main/java/com/user/app/exception/ExceptionMapper.java:11-26 | the most specific handler is chosen; every error body has success=false; a UserException goes to `exceptionUserHandler` and any other exception to `exceptionHandler`; status 404 if and only if the error is a UserException, 400 if and only if it is another exception |
| ExceptionMapper.GenericDiscardsMessage | src/main/java/com/user/app/exception/ExceptionMapper.java:21-25 | the generic response does not depend on the original exception's message |
| ExceptionMapper.DomainEchoesException | src/main/java/com/user/app/exception/ExceptionMapper.java:12-17 | a UserException built with a code and a message comes back with exactly that code and message |
| UserService.KeyedValuesCount | src/main/java/com/user/app/entity/User.java:8-9 | in a store where each record sits under its own id, there are exactly as many records as ids |
| UserService.UserServiceImpl.constructor | src/main/java/com/user/app/service/UserServiceImpl.java:18-19 | the service starts over the repository's records, each under its own id |
| UserService.UserServiceImpl.GetAllUser | src/main/java/com/user/app/service/UserServiceImpl.java:21-24 | returns exactly the stored records, one per stored id |
| UserService.UserServiceImpl.GetUserById | src/main/java/com/user/app/service/UserServiceImpl.java:26-29 | returns the record stored under the id, or null if and only if none is stored |
| UserService.UserServiceImpl.SaveUser | src/main/java/com/user/app/service/UserServiceImpl.java:31-34 | stores the user under its id, replacing any earlier record, and returns it; a later lookup yields it and every other id is unchanged |
| UserService.UserServiceImpl.DeleteUser | src/main/java/com/user/app/service/UserServiceImpl.java:36-39 | removes the record under the user's id; a later lookup yields null and every other id is unchanged |
| UserController.ValidId | src/main/java/com/user/app/controller/UserController.java:118-123 | true if and only if it is not the case that the id is non-null and stored |
| UserController.UserData | src/main/java/com/user/app/controller/UserController.java:125-131 | the new user has the given id and the payload's three text fields, so a valid payload gives a user with three non-empty fields |
| UserController.AddNewUserStep | src/main/java/com/user/app/controller/UserController.java:59-72 | a null payload is refused by the logging call with a generic exception and changes nothing; a non-null invalid payload raises INPUT.DATA.INVALID and changes nothing; a valid one stores exactly one new record under the current counter value with the payload's three fields, advances the counter and answers 201 "New user Created successfully" |
| UserController.UpdateUserStep | src/main/java/com/user/app/controller/UserController.java:77-91 | a null payload is refused by the logging call with a generic exception; a payload whose id is stored, or whose fields are invalid, raises INPUT.DATA.INVALID and changes nothing; otherwise the record is saved under the current counter value, the counter advances and the answer is 200 |
| UserController.DeleteUserStep | src/main/java/com/user/app/controller/UserController.java:96-110 | a null or unstored id raises USER.ID.INVALID and changes nothing; a stored id removes exactly that record and answers 200 "User has been deleted"; the counter is never touched |
| UserController.UpdateUserIntendedStep | src/main/java/com/user/app/controller/UserController.java:77-91 | the corrected update: it succeeds if and only if the id is stored and the fields are valid, and then replaces that record under the same id without touching the counter |
| UserController.StepsKeepWellFormed | src/main/java/com/user/app/controller/UserController.java:63-91 | create, update and delete keep every stored record under its own id with three non-empty fields |
| UserController.CreateAddsFreshRecord | src/main/java/com/user/app/controller/UserController.java:68-72 | in a process that issued every stored id, a create adds one record under a new id and keeps all the others |
| UserController.CreateAfterRestartOverwrites | src/main/java/com/user/app/util/IdGenerator.java:7-11 | after a restart with id 0 stored, a create replaces that record instead of adding one |
| UserController.UpdateRejectsStoredId | src/main/java/com/user/app/controller/UserController.java:81-86 | as written, update raises INPUT.DATA.INVALID for every payload whose id is stored |
| UserController.UpdateNeverReplaces | src/main/java/com/user/app/controller/UserController.java:87-91 | as written, a successful update ignores the payload's id, adds one record under a fresh id and keeps every existing record |
| UserController.UpdateWrittenVersusIntended | src/main/java/com/user/app/controller/UserController.java:81-91 | a valid payload that names the one stored record is rejected as written and replaces that record as intended |
| UserController.UpdateIntendedReplaces | src/main/java/com/user/app/controller/UserController.java:77-91 | the corrected update replaces the three text fields, keeps the id and keeps the number of records |
| UserController.DeleteThenGet | src/main/java/com/user/app/controller/UserController.java:104-110 | deleting a stored id succeeds, leaves nothing under that id and removes exactly one record |
| UserController.EmptyNameCreateReply | src/main/java/com/user/app/controller/UserController.java:63-67 | a create with an empty name is answered with success=false, INPUT.DATA.INVALID, "Input data not valid.." and status 404 |
| UserController.FreshProcessCreates | src/main/java/com/user/app/controller/UserController.java:59-72 | in a fresh process over an empty store, n valid creates hand out ids 0 to n-1 in order and store each payload's fields under its id |
| UserController.UserController.constructor | src/main/java/com/user/app/controller/UserController.java:40-41 | the controller starts over the records already stored, with the counter at 0 |
| UserController.UserController.GetAllUsers | src/main/java/com/user/app/controller/UserController.java:43-48 | returns exactly the stored records, as many as there are stored ids |
| UserController.UserController.GetUser | src/main/java/com/user/app/controller/UserController.java:50-55 | returns the stored record, or null if and only if none is stored; it never raises |
| UserController.UserController.IsValidId | src/main/java/com/user/app/controller/UserController.java:118-123 | true if and only if the id is null or no record is stored under it, the same verdict as `ValidId` on the service's store |
| UserController.UserController.SetUserData | src/main/java/com/user/app/controller/UserController.java:125-132 | builds a user with the next counter value as id and the payload's three fields, and advances the counter by one; the user is `UserData` of the payload and the old counter |
| UserController.UserController.AddNewUser | src/main/java/com/user/app/controller/UserController.java:57-73 | the outcome and the new store and counter are those of `AddNewUserStep` |
| UserController.UserController.UpdateUser | src/main/java/com/user/app/controller/UserController.java:75-92 | the outcome and the new store and counter are those of `UpdateUserStep` |
| UserController.UserController.DeleteUser | src/main/java/com/user/app/controller/UserController.java:94-111 | the outcome and the new store and counter are those of `DeleteUserStep` |

## Left out

- Spring and Swagger annotations, CORS, the OPTIONS handler (UserController.java:113-116) and the application bootstrap are framework plumbing.
- Logging through `AppLogger` is not modelled. `toStringInput` is modelled only in one respect: it throws for a null payload. The text it builds is log output.
- UserController.AddNewUserStep: the generic failure for a null payload assumes a commons-lang3 version whose `ReflectionToStringBuilder` rejects a null object. That library's version is not part of this model. Over HTTP the outcome is the same, because the framework refuses a missing request body with the same generic 400.
- HTTP routing and JSON (de)serialisation are not modelled. Requests reach the handlers as values. A missing or non-numeric path id, rejected by the framework before any handler runs, is not modelled.
- The atomicity of `AtomicLong` is not modelled. The counter is a sequential field, and concurrent requests are out of scope.
- The MongoDB repository implementation is not modelled. It is an id-keyed map, so failures of the database are not represented. Such a failure would reach `exceptionHandler` as a generic error.
- UserController.UserController.GetAllUsers: returns a set, so the order in which the store lists its records is not modelled.
- UserService.UserServiceImpl.SaveUser: requires a non-null id. The store's behaviour for a null id is up to the database, and the controller never passes one.
- UserService.UserServiceImpl.DeleteUser: requires a non-null id for the same reason.
- The one-argument and no-argument `UserException` constructors and `setCode` are not modelled. The core does not use them. A null code or message is still expressible, since both fields are `Option`s.

## Findings

| source | as written | input that shows it | evidently intended | confidence | as-written member | corrected member |
|---|---|---|---|---|---|---|
| src/main/java/com/user/app/controller/UserController.java:81-91 | update rejects a payload whose id is stored, because `isValidId` is true only for null or unstored ids. Every accepted payload is saved under a freshly generated id, so update never replaces a record. | a store holding only id 5 (Ann, ann@x.com, Engineer); PUT with id 5, Ann, ann@x.com, Architect gives INPUT.DATA.INVALID | update requires a stored id and replaces that record's fields under the same id | high; not executed | UserController.UpdateWrittenVersusIntended | UserController.UpdateUserIntendedStep |

The controller class keeps the as-written `updateUser`, since that is the behaviour the service
has. `UpdateUserIntendedStep` is the corrected definition, and `UpdateIntendedReplaces` proves
the intended property about it.
