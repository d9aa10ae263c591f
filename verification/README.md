# Car demo: stores, mappers and request authorization in Dafny

A model of the core of the car demo, a small REST service over cars and car
registrations:

- `Models.dfy` — the entities `Car` (id, brand, model, year) and `CarRegistration`
  (id, plate number, registration date, car id) as values, Java's 32-bit `int` and its
  wrapping subtraction.
- `Repositories.dfy` — the two JPA repositories as classes holding a table (a map from
  generated id to row) and the identity counter. Neither `findAll` nor the derived
  `findByBrand` has an ordering clause, so the store promises no order. The model fixes
  one: rows are listed in ascending id order, the order in which the identity counter
  handed the ids out. `findByBrand` filters that listing by exact brand. The lemmas prove
  that the listing holds every stored car once, in ascending id order, and that these two
  facts determine a listing uniquely.
- `Services.dfy` — `CarService` and `CarRegistrationService` as classes holding the
  repositories they were built with. Each method states the result and the whole new
  table, including the failure paths that change nothing. Client methods at the end
  state what the controller test expects of its integration data, proved from these
  contracts. The data is stored after emptying a table whose identity counter may
  already have advanced, so the proofs hold for any starting id.
- `Dtos.dfy`, `Mappers.dfy` — the transfer objects, with `CarResponseDto.GetAge` computed
  on read, and the two mappers as pure functions.
- `Security.dfy` — the request-authorization rule list of the security filter chain as a
  table of rules. It is evaluated first-match-wins, and a request that no rule fits is
  denied.

Ids are `nat`. The current year is a parameter. A `LocalDate` is its epoch day. The
caller is `Anonymous` or `Authenticated` with a set of authorities. As in Spring, a role
`R` is the authority `ROLE_R`.

Points worth knowing about the code's behaviour:

- `GET /cars` is granted to role USER only (`hasAnyRole("USER")`); ADMIN alone does not
  pass this rule.
- `updateCar` replaces only brand and model; the year is kept.
- The mapper's two `toEntity` overloads are `FromCreateDto` and `FromUpdateDto`, because
  Dafny has no overloading.

## Model

| member | source | states |
|---|---|---|
| `Models.JavaIntSub` | src/main/java/nl/novi/cardemo/dtos/CarResponseDTO.java:13 | Java `int` subtraction: equal to the difference modulo 2^32, and exactly the difference whenever that fits in 32 bits |
| `Dtos.CarResponseDto.New` | src/main/java/nl/novi/cardemo/dtos/CarResponseDTO.java:6-10 | a new response has no id and year 0 |
| `Dtos.CarResponseDto.GetAge` | src/main/java/nl/novi/cardemo/dtos/CarResponseDTO.java:12-14 | age is `currentYear - year` whenever no overflow occurs; 0 when year is the current year; negative for a future year, with no clamping |
| `Dtos.CarResponseDto.SetId` | src/main/java/nl/novi/cardemo/dtos/CarResponseDTO.java:21-23 | sets the id; brand, model, year and the age for every current year stay |
| `Dtos.CarResponseDto.SetBrand` | src/main/java/nl/novi/cardemo/dtos/CarResponseDTO.java:29-31 | sets the brand; id, model, year and age stay |
| `Dtos.CarResponseDto.SetModel` | src/main/java/nl/novi/cardemo/dtos/CarResponseDTO.java:37-39 | sets the model; id, brand, year and age stay |
| `Dtos.CarResponseDto.SetYear` | src/main/java/nl/novi/cardemo/dtos/CarResponseDTO.java:41-47 | after setting year `y`, the year read back is `y`; id, brand and model stay |
| `Dtos.AgeDependsOnlyOnYear` | src/main/java/nl/novi/cardemo/dtos/CarResponseDTO.java:10-14 | the age is not stored: two responses with the same year report the same age |
| `CarMapper.ToResponseDto` | src/main/java/nl/novi/cardemo/mappers/CarMapper.java:11-18 | filling a new response through its setters copies id, brand, model and year, so the age is `currentYear - year` |
| `CarMapper.ToEntity` | src/main/java/nl/novi/cardemo/mappers/CarMapper.java:20-26 | copies brand, model and year and leaves the id unset |
| `CarMapper.ToResponseDtoList` | src/main/java/nl/novi/cardemo/mappers/CarMapper.java:28-30 | same length as the input; element i is the response of car i, so the order is kept |
| `CarMapper.InputRoundTrip` | src/main/java/nl/novi/cardemo/mappers/CarMapper.java:11-26 | the response of a mapped input has the input's brand, model and year and no id |
| `CarRegistrationMapper.ToResponseDto` | src/main/java/nl/novi/cardemo/mappers/CarRegistrationMapper.java:13-19 | copies id, plate number and date; the result has no car field |
| `CarRegistrationMapper.FromCreateDto` | src/main/java/nl/novi/cardemo/mappers/CarRegistrationMapper.java:22-27 | copies plate and date; id and car unset |
| `CarRegistrationMapper.FromUpdateDto` | src/main/java/nl/novi/cardemo/mappers/CarRegistrationMapper.java:30-35 | copies plate and date; id and car unset |
| `CarRegistrationMapper.ToResponseDtoList` | src/main/java/nl/novi/cardemo/mappers/CarRegistrationMapper.java:38-42 | same length as the input; element i is the response of registration i |
| `CarRegistrationMapper.CreateRoundTrip` | src/main/java/nl/novi/cardemo/mappers/CarRegistrationMapper.java:13-27 | the response of a mapped create body has the body's plate and date |
| `CarRegistrationMapper.CreateAndUpdateAgree` | src/main/java/nl/novi/cardemo/mappers/CarRegistrationMapper.java:22-35 | the two entity conversions give the same entity for bodies with the same fields |
| `Repositories.ListingAscending` | src/main/java/nl/novi/cardemo/services/CarService.java:24 | the listing the model gives `findAll` has strictly ascending ids, all below the id counter |
| `Repositories.ListingMembers` | src/main/java/nl/novi/cardemo/services/CarService.java:24 | a car is in the listing exactly when it is stored under an id below the bound: every listed car is the row of some stored id below the bound, and every such row is listed |
| `Repositories.ListingLength` | src/main/java/nl/novi/cardemo/services/CarService.java:24 | the listing's length is the number of stored ids below the bound |
| `Repositories.WithBrand` | src/main/java/nl/novi/cardemo/repositories/CarRepository.java:12 | holds exactly the rows whose brand equals the given one |
| `Repositories.WithBrandAscending` | src/main/java/nl/novi/cardemo/repositories/CarRepository.java:12 | filtering keeps the relative (ascending id) order |
| `Repositories.AscendingDetermined` | src/test/java/nl/novi/cardemo/integration/CarControllerIntegrationTest.java:48-65 | two sequences of rows with ascending ids and the same members are equal, so "these cars, in ascending id order" fixes the listing |
| `Repositories.CarRepository.FindAll` | src/main/java/nl/novi/cardemo/services/CarService.java:24 | every stored car, once each, in ascending id order |
| `Repositories.CarRepository.FindByBrand` | src/main/java/nl/novi/cardemo/repositories/CarRepository.java:12 | exactly the stored cars of that brand, in ascending id order |
| `Repositories.CarRepository.Save` | src/main/java/nl/novi/cardemo/models/Car.java:10-12 | a car whose id is stored overwrites that row; any other car is inserted under the next generated id, and the counter advances |
| `Repositories.CarRepository.DeleteById` | src/main/java/nl/novi/cardemo/services/CarService.java:44 | the row with that id is removed and nothing else changes |
| `Repositories.CarRepository.FindById` | src/main/java/nl/novi/cardemo/services/CarService.java:27-29 | present exactly when some stored car carries that id, and then it is that car |
| `Repositories.CarRepository.ExistsById` | src/main/java/nl/novi/cardemo/services/CarService.java:43 | true exactly when some stored car carries that id |
| `Repositories.CarRepository.DeleteAll` | src/test/java/nl/novi/cardemo/integration/CarControllerIntegrationTest.java:34 | the table is emptied and the identity counter is kept, so later ids do not restart |
| `Repositories.CarRegistrationRepository.FindById` | src/main/java/nl/novi/cardemo/services/CarRegistrationService.java:37-38 | present exactly when some stored registration carries that id, and then it is that registration |
| `Repositories.CarRegistrationRepository.FindByIdAndCarId` | src/main/java/nl/novi/cardemo/repositories/CarRegistrationRepository.java:10 | present exactly when a stored registration carries that id and belongs to that car, and then it is that registration |
| `Repositories.CarRegistrationRepository.ExistsById` | src/main/java/nl/novi/cardemo/services/CarRegistrationService.java:61 | true exactly when some stored registration carries that id |
| `Repositories.CarRegistrationRepository.Save` | src/main/java/nl/novi/cardemo/models/CarRegistration.java:11-13 | the same insert-or-overwrite rule for registrations |
| `Repositories.CarRegistrationRepository.DeleteById` | src/main/java/nl/novi/cardemo/services/CarRegistrationService.java:62 | the registration with that id is removed and nothing else changes |
| `Services.CarService.Save` | src/main/java/nl/novi/cardemo/services/CarService.java:18-21 | the returned car has an id, keeps brand, model and year, and is stored under that id; a new car gets a fresh id |
| `Services.CarService.GetAll` | src/main/java/nl/novi/cardemo/services/CarService.java:23-25 | without a brand, every stored car in ascending id order; with a brand, exactly the cars of that brand in that order, possibly none |
| `Services.CarService.GetById` | src/main/java/nl/novi/cardemo/services/CarService.java:27-29 | empty exactly when no car has that id; otherwise the car stored under it |
| `Services.CarService.UpdateCar` | src/main/java/nl/novi/cardemo/services/CarService.java:31-40 | on a stored id, replaces brand and model, keeps id and year, and returns the updated car; on an absent id, returns empty and changes nothing |
| `Services.CarService.Delete` | src/main/java/nl/novi/cardemo/services/CarService.java:42-49 | returns true exactly when the car existed; afterwards that id is absent and every other car is unchanged |
| `Services.CarRegistrationService.CreateCarRegistration` | src/main/java/nl/novi/cardemo/services/CarRegistrationService.java:23-32 | unknown car: fails with the car error and stores nothing; otherwise stores the registration with the input's plate and date, bound to that car: an input whose id is stored overwrites that row and keeps the counter, any other input is inserted under the next id and the counter advances |
| `Services.CarRegistrationService.UpdateCarRegistration` | src/main/java/nl/novi/cardemo/services/CarRegistrationService.java:35-51 | a missing registration fails first, then a missing car; both failures change nothing. Otherwise plate, date and car are overwritten and the id is kept, whichever car the registration had before |
| `Services.CarRegistrationService.GetCarRegistration` | src/main/java/nl/novi/cardemo/services/CarRegistrationService.java:54-57 | succeeds exactly when the registration exists and belongs to that car; otherwise the not-found error |
| `Services.CarRegistrationService.DeleteCarRegistration` | src/main/java/nl/novi/cardemo/services/CarRegistrationService.java:60-66 | returns true and removes the registration exactly when its id exists, whatever the car id; other registrations and the cars stay |
| `Services.SetUpIntegrationData` | src/test/java/nl/novi/cardemo/integration/CarControllerIntegrationTest.java:32-43 | emptying the shared table and storing the three test cars gives them the ids `n`, `n+1`, `n+2` in list order, where `n` is the counter left by earlier runs, and nothing else stays stored |
| `Services.ListingScenario` | src/test/java/nl/novi/cardemo/integration/CarControllerIntegrationTest.java:47-65 | over the integration data, whatever its first id: all three cars with brands Toyota, Toyota, Ford in that order; exactly two Toyotas; and, as the same test file expects at lines 87-92, no Hondas |
| `Services.DeletionScenario` | src/test/java/nl/novi/cardemo/services/CarServiceTest.java:91-110 | deleting a stored car answers true and leaves the other two; deleting it again answers false |
| `Services.RegistrationScenario` | src/main/java/nl/novi/cardemo/services/CarRegistrationService.java:23-66 | creating for a missing car fails; a registration is found through its own car only, follows its car on update, and can be deleted |
| `SecurityConfig.FirstMatch` | src/main/java/nl/novi/cardemo/config/SecurityConfig.java:32-43 | the position of the first rule that fits the request, with no earlier rule fitting; none when no rule fits |
| `SecurityConfig.Decide` | src/main/java/nl/novi/cardemo/config/SecurityConfig.java:32-43 | a grant is always backed by a rule that fits the request and whose access admits the caller; a request no rule fits is denied |
| `SecurityConfig.Authorize` | src/main/java/nl/novi/cardemo/config/SecurityConfig.java:34-42 | the decision of the five-rule table `Rules`, in declared order; whatever the caller holds, nothing outside the documentation, `/login` and `/cars` with its subtree is granted |
| `SecurityConfig.DecideByFirstMatch` | src/main/java/nl/novi/cardemo/config/SecurityConfig.java:32-43 | the in-order walk decides as the first fitting rule does, and denies when no rule fits |
| `SecurityConfig.DecidedBy` | src/main/java/nl/novi/cardemo/config/SecurityConfig.java:32-43 | a fitting rule after only non-fitting ones decides the request |
| `SecurityConfig.LaterRulesIgnored` | src/main/java/nl/novi/cardemo/config/SecurityConfig.java:32-43 | once a rule fits, rules declared after it are never consulted |
| `SecurityConfig.SingleRole` | src/main/java/nl/novi/cardemo/config/SecurityConfig.java:37-39 | a one-role `hasAnyRole` or `hasRole` admits exactly the callers holding that role's authority |
| `SecurityConfig.DocumentationIsPublic` | src/main/java/nl/novi/cardemo/config/SecurityConfig.java:34 | every path under the three documentation prefixes is granted for any method and any caller, anonymous included |
| `SecurityConfig.LoginIsPublic` | src/main/java/nl/novi/cardemo/config/SecurityConfig.java:35 | `/login` is granted for any method and any caller |
| `SecurityConfig.ListingCarsNeedsUser` | src/main/java/nl/novi/cardemo/config/SecurityConfig.java:37 | `GET /cars` is granted if and only if the caller has role USER; ADMIN alone does not satisfy it |
| `SecurityConfig.CarsSubtreeNeedsAdmin` | src/main/java/nl/novi/cardemo/config/SecurityConfig.java:39 | every other request at or under `/cars` is granted if and only if the caller has role ADMIN |
| `SecurityConfig.UnmatchedRequestsDenied` | src/main/java/nl/novi/cardemo/config/SecurityConfig.java:34-42 | a request that none of the four specific rules fits reaches `anyRequest().denyAll()` and is denied to every caller, ADMIN included |
| `SecurityConfig.OtherPathsDenied` | src/main/java/nl/novi/cardemo/config/SecurityConfig.java:42 | a path outside the documentation, `/login` and `/cars` is denied to every caller, ADMIN included |
| `SecurityConfig.BelowLoginDenied` | src/main/java/nl/novi/cardemo/config/SecurityConfig.java:35 | `/login` is matched exactly: every path below it is denied to every caller |
| `SecurityConfig.OutsideV3DocsDenied` | src/main/java/nl/novi/cardemo/config/SecurityConfig.java:34 | under `/v3` only `/v3/api-docs` is open: `/v3` and its other children are denied to every caller |
| `SecurityConfig.AnonymousReachesOnlyPublicPaths` | src/main/java/nl/novi/cardemo/config/SecurityConfig.java:34-42 | a caller without a valid token is granted only documentation paths and `/login` |

## Left out

- Login, token issuing and checking, password hashing and the user-lookup service are
  left out. They are cryptography and library calls. The authorization rules take the
  caller's authorities as input, the way the token filter leaves them.
- The controllers are left out. They only route HTTP requests and map results to status
  codes. The services return `Option`, `bool` or `Result` values instead of throwing
  exceptions.
- Repair invoices and accessories are left out, because no service uses them. Also left
  out: the cascade from a car to its invoices, the car–accessory join table, and their
  floating-point amounts.
- Repositories.CarRepository.FindAll: the order is fixed to ascending id. The queries
  carry no ordering clause, so the store itself promises none, and a rewritten row may
  come back elsewhere. `FindByBrand` inherits the same fixed order.
- Referential integrity is not enforced by the database in this model. Deleting a car
  that a registration refers to succeeds here and leaves that registration with a car id
  that no longer resolves. The relational store would reject that delete. No unique key
  on the registration's car column is modelled either, though the one-to-one join column
  (src/main/java/nl/novi/cardemo/models/CarRegistration.java:17-18) gets one when the
  schema is generated: `CreateCarRegistration` and `UpdateCarRegistration` may bind a
  second registration to the same car.
- Input validation is left out. `CarInput` and `CarRegistrationUpdateDto` carry only the
  fields the mappers read. The bean validation that `@Valid` triggers in the car
  controller (src/main/java/nl/novi/cardemo/controllers/CarController.java:28,35) is not
  modelled.
- Null fields are not modelled. Every string and date holds a value. The only nullable
  things are the ids, as `Option`, and the optional brand filter.
- Saving an entity whose id is set but not stored is modelled as an insert under a fresh
  id, which is what Hibernate's merge does before version 6.6. From 6.6 on, merge throws
  an optimistic-locking error instead. The services pass the caller's entity to `save`
  unchanged, but no caller in the program sets its id: the controllers build entities
  through the mappers, which leave the id unset.
- The 64-bit range of the generated ids is not modelled. Ids are unbounded `nat`s.
- Requested ids are `nat` as well. The controllers take any `Long` path variable, so a
  negative id such as `/cars/-1` reaches the services, which answer it as not found
  (empty, `false` or the not-found error). Such calls cannot be expressed in this model.
- The derived queries `findByModel` and `findByBrandAndModel`, and a model filter on the
  car listing, are left out. The service never calls them, and its controller takes no
  model parameter.
- Path matching is per segment, with exact and subtree patterns only. Trailing slashes,
  path-variable patterns and URL decoding are not modelled. A request that no rule fits
  is denied, though the table always ends in a catch-all rule.
- Concurrency is not modelled. Every service call is one atomic step on the tables.
