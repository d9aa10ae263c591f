/** Field copies between `Car` and its transfer objects. */
module CarMapper {
  import opened Models
  import opened Dtos

  /** Fills a fresh response through its setters, in the order `toResponseDTO` calls them. */
  function ToResponseDto(car: Car): (dto: CarResponseDto)
    ensures dto.id == car.id && dto.brand == car.brand && dto.model == car.model && dto.year == car.year
    ensures forall currentYear :: dto.GetAge(currentYear) == JavaIntSub(currentYear, car.year)
  {
    CarResponseDto.New().SetBrand(car.brand).SetModel(car.model).SetYear(car.year).SetId(car.id)
  }

  /** A new, not yet stored car carrying the input's fields. */
  function ToEntity(input: CarInput): (car: Car)
    ensures car.id.None?
    ensures car.brand == input.brand && car.model == input.model && car.year == input.year
  {
    Car(None, input.brand, input.model, input.year)
  }

  /** Element-wise mapping in list order. */
  function ToResponseDtoList(cars: seq<Car>): (dtos: seq<CarResponseDto>)
    ensures |dtos| == |cars|
    ensures forall i :: 0 <= i < |cars| ==> dtos[i] == ToResponseDto(cars[i])
  {
    if cars == [] then [] else [ToResponseDto(cars[0])] + ToResponseDtoList(cars[1..])
  }

  /** A response built from a freshly mapped input reports the input's fields and no id. */
  lemma InputRoundTrip(input: CarInput)
    ensures var dto := ToResponseDto(ToEntity(input));
      dto.id.None? && dto.brand == input.brand && dto.model == input.model && dto.year == input.year
  {
  }
}

/** Field copies between `CarRegistration` and its transfer objects. */
module CarRegistrationMapper {
  import opened Models
  import opened Dtos

  /** Copies id, plate number and date; the car is not exposed. */
  function ToResponseDto(registration: CarRegistration): (dto: CarRegistrationResponseDto)
    ensures dto.id == registration.id
    ensures dto.plateNumber == registration.plateNumber
    ensures dto.registrationDate == registration.registrationDate
  {
    CarRegistrationResponseDto(registration.id, registration.plateNumber, registration.registrationDate)
  }

  /** A new registration with the input's plate and date, with no id and no car. */
  function FromCreateDto(input: CarRegistrationCreateDto): (registration: CarRegistration)
    ensures registration.id.None? && registration.carId.None?
    ensures registration.plateNumber == input.plateNumber
    ensures registration.registrationDate == input.registrationDate
  {
    CarRegistration(None, input.plateNumber, input.registrationDate, None)
  }

  /** The same copy from the update shape. */
  function FromUpdateDto(input: CarRegistrationUpdateDto): (registration: CarRegistration)
    ensures registration.id.None? && registration.carId.None?
    ensures registration.plateNumber == input.plateNumber
    ensures registration.registrationDate == input.registrationDate
  {
    CarRegistration(None, input.plateNumber, input.registrationDate, None)
  }

  /** Element-wise mapping in list order. */
  function ToResponseDtoList(registrations: seq<CarRegistration>): (dtos: seq<CarRegistrationResponseDto>)
    ensures |dtos| == |registrations|
    ensures forall i :: 0 <= i < |registrations| ==> dtos[i] == ToResponseDto(registrations[i])
  {
    if registrations == [] then []
    else [ToResponseDto(registrations[0])] + ToResponseDtoList(registrations[1..])
  }

  /** Mapping a create body to an entity and back to a response keeps plate and date. */
  lemma CreateRoundTrip(input: CarRegistrationCreateDto)
    ensures var dto := ToResponseDto(FromCreateDto(input));
      dto.id.None? && dto.plateNumber == input.plateNumber && dto.registrationDate == input.registrationDate
  {
  }

  /** The two entity conversions agree on bodies with the same fields. */
  lemma CreateAndUpdateAgree(create: CarRegistrationCreateDto, update: CarRegistrationUpdateDto)
    requires create.plateNumber == update.plateNumber && create.registrationDate == update.registrationDate
    ensures FromCreateDto(create) == FromUpdateDto(update)
  {
  }
}
