/**
 * The transfer objects: the car input and response shapes and the three
 * car-registration shapes. Their setters are functional updates.
 */
module Dtos {
  import opened Models

  /** The body of `POST /cars` and `PUT /cars/{id}`; its validation is not modelled. */
  datatype CarInput = CarInput(brand: string, model: string, year: int32)

  /**
   * The car response. Its `age` is not stored: `GetAge` computes it from `year` and
   * the current year each time it is read.
   */
  datatype CarResponseDto = CarResponseDto(id: Option<nat>, brand: string, model: string, year: int32)
  {
    /** A freshly constructed DTO: no id, empty strings, year 0. */
    static function New(): (dto: CarResponseDto)
      ensures dto.id.None? && dto.year == 0
    {
      CarResponseDto(None, "", "", 0)
    }

    /** `currentYear - year` in Java `int` arithmetic; no clamping. */
    function GetAge(currentYear: int32): (age: int32)
      ensures -TwoTo31 <= currentYear as int - year as int < TwoTo31 ==>
                age as int == currentYear as int - year as int
      ensures year == currentYear ==> age == 0
      ensures year > currentYear && currentYear as int - year as int >= -TwoTo31 ==> age < 0
    {
      JavaIntSub(currentYear, year)
    }

    function SetId(newId: Option<nat>): (dto: CarResponseDto)
      ensures dto.id == newId && dto.brand == brand && dto.model == model && dto.year == year
      ensures forall currentYear :: dto.GetAge(currentYear) == GetAge(currentYear)
    {
      this.(id := newId)
    }

    function SetBrand(newBrand: string): (dto: CarResponseDto)
      ensures dto.brand == newBrand && dto.id == id && dto.model == model && dto.year == year
      ensures forall currentYear :: dto.GetAge(currentYear) == GetAge(currentYear)
    {
      this.(brand := newBrand)
    }

    function SetModel(newModel: string): (dto: CarResponseDto)
      ensures dto.model == newModel && dto.id == id && dto.brand == brand && dto.year == year
      ensures forall currentYear :: dto.GetAge(currentYear) == GetAge(currentYear)
    {
      this.(model := newModel)
    }

    function SetYear(newYear: int32): (dto: CarResponseDto)
      ensures dto.year == newYear && dto.id == id && dto.brand == brand && dto.model == model
    {
      this.(year := newYear)
    }
  }

  /** Two responses with the same year report the same age, whatever their other fields. */
  lemma AgeDependsOnlyOnYear(a: CarResponseDto, b: CarResponseDto, currentYear: int32)
    requires a.year == b.year
    ensures a.GetAge(currentYear) == b.GetAge(currentYear)
  {
  }

  /** Body of `POST /cars/{carId}/carregistrations`. */
  datatype CarRegistrationCreateDto = CarRegistrationCreateDto(plateNumber: string, registrationDate: Date)

  /** Body of `PUT /cars/{carId}/carregistrations/{registrationId}`. */
  datatype CarRegistrationUpdateDto = CarRegistrationUpdateDto(plateNumber: string, registrationDate: Date)

  /** The registration response: it does not expose the car. */
  datatype CarRegistrationResponseDto = CarRegistrationResponseDto(
    id: Option<nat>,
    plateNumber: string,
    registrationDate: Date)
}
