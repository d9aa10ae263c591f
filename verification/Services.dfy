/**
 * The two application services. Each holds the repositories it was constructed
 * with; a registration service and a car service built over the same
 * `CarRepository` share its table, as the injected repository beans do.
 */
module Services {
  import opened Models
  import opened Repositories

  /** The exceptions the services throw. */
  datatype ServiceError =
    /** `RuntimeException("Car not found with id …")` */
    | CarNotFound(carId: nat)
    /** `RuntimeException("CarRegistration not found with id …")` */
    | RegistrationNotFound(registrationId: nat)
    /** `EntityNotFoundException("CarRegistration not found with id …")` */
    | RegistrationEntityNotFound(registrationId: nat)

  class CarService {
    const repository: CarRepository

    constructor (repository: CarRepository)
      ensures this.repository == repository
    {
      this.repository := repository;
    }

    /** Stores the car (insert or overwrite) and returns it as stored, under its id. */
    method Save(car: Car) returns (saved: Car)
      requires repository.Valid()
      modifies repository
      ensures repository.Valid()
      ensures saved.id.Some? && saved.brand == car.brand && saved.model == car.model && saved.year == car.year
      ensures repository.cars == old(repository.cars)[saved.id.value := saved]
      ensures car.id.Some? && car.id.value in old(repository.cars) ==>
                saved == car && repository.nextId == old(repository.nextId)
      ensures !(car.id.Some? && car.id.value in old(repository.cars)) ==>
                && saved.id == Some(old(repository.nextId))
                && saved.id.value !in old(repository.cars)
                && repository.nextId == old(repository.nextId) + 1
    {
      saved := repository.Save(car);
    }

    /**
     * Every stored car when no brand is given, otherwise exactly the cars of that
     * brand (possibly none); in ascending id order either way.
     */
    method GetAll(brand: Option<string>) returns (cars: seq<Car>)
      requires repository.Valid()
      ensures AscendingIds(cars)
      ensures forall c :: c in cars <==> c in repository.cars.Values && (brand.None? || c.brand == brand.value)
      ensures brand.None? ==> |cars| == |repository.cars|
    {
      if brand.None? {
        cars := repository.FindAll();
      } else {
        cars := repository.FindByBrand(brand.value);
      }
    }

    method GetById(id: nat) returns (car: Option<Car>)
      requires repository.Valid()
      ensures car.None? <==> id !in repository.cars
      ensures car.Some? ==> car.value == repository.cars[id] && car.value.id == Some(id)
    {
      car := repository.FindById(id);
    }

    /**
     * Replaces brand and model of the stored car with those of `details`; its id and
     * year stay. An absent id changes nothing.
     */
    method UpdateCar(id: nat, details: Car) returns (updated: Option<Car>)
      requires repository.Valid()
      modifies repository
      ensures repository.Valid()
      ensures id !in old(repository.cars) ==>
                updated.None? && repository.cars == old(repository.cars) && repository.nextId == old(repository.nextId)
      ensures id in old(repository.cars) ==>
                && updated == Some(Car(Some(id), details.brand, details.model, old(repository.cars[id]).year))
                && repository.cars == old(repository.cars)[id := updated.value]
                && repository.nextId == old(repository.nextId)
    {
      var found := repository.FindById(id);
      if found.Some? {
        var car := found.value.(brand := details.brand, model := details.model);
        var saved := repository.Save(car);
        updated := Some(saved);
      } else {
        updated := None;
      }
    }

    /** Removes the car and answers true exactly when it was stored. */
    method Delete(id: nat) returns (deleted: bool)
      requires repository.Valid()
      modifies repository
      ensures repository.Valid()
      ensures deleted == (id in old(repository.cars))
      ensures repository.cars == old(repository.cars) - {id} && repository.nextId == old(repository.nextId)
    {
      if repository.ExistsById(id) {
        repository.DeleteById(id);
        deleted := true;
      } else {
        deleted := false;
      }
    }
  }

  class CarRegistrationService {
    const registrationRepository: CarRegistrationRepository
    const carRepository: CarRepository

    constructor (registrationRepository: CarRegistrationRepository, carRepository: CarRepository)
      ensures this.registrationRepository == registrationRepository && this.carRepository == carRepository
    {
      this.registrationRepository := registrationRepository;
      this.carRepository := carRepository;
    }

    ghost predicate Valid()
      reads registrationRepository, carRepository
    {
      registrationRepository.Valid() && carRepository.Valid()
    }

    /**
     * Binds the registration to car `carId` and stores it; fails with the car
     * error, storing nothing, when that car does not exist.
     */
    method CreateCarRegistration(carId: nat, registration: CarRegistration)
      returns (result: Result<CarRegistration, ServiceError>)
      requires Valid()
      modifies registrationRepository
      ensures Valid()
      ensures carId !in carRepository.cars ==>
                && result == Failure(CarNotFound(carId))
                && registrationRepository.registrations == old(registrationRepository.registrations)
                && registrationRepository.nextId == old(registrationRepository.nextId)
      ensures carId in carRepository.cars ==>
                && result.Success?
                && result.value.id.Some?
                && result.value.carId == Some(carId)
                && result.value.plateNumber == registration.plateNumber
                && result.value.registrationDate == registration.registrationDate
                && registrationRepository.registrations
                   == old(registrationRepository.registrations)[result.value.id.value := result.value]
      ensures carId in carRepository.cars && registration.id.Some? &&
              registration.id.value in old(registrationRepository.registrations) ==>
                && result == Success(registration.(carId := Some(carId)))
                && registrationRepository.nextId == old(registrationRepository.nextId)
      ensures carId in carRepository.cars &&
              !(registration.id.Some? && registration.id.value in old(registrationRepository.registrations)) ==>
                && result.value.id == Some(old(registrationRepository.nextId))
                && result.value.id.value !in old(registrationRepository.registrations)
                && registrationRepository.nextId == old(registrationRepository.nextId) + 1
    {
      var car := carRepository.FindById(carId);
      if car.None? {
        return Failure(CarNotFound(carId));
      }
      var bound := registration.(carId := car.value.id);
      var saved := registrationRepository.Save(bound);
      result := Success(saved);
    }

    /**
     * Looks the registration up by its id alone, then the car; either missing fails
     * with nothing changed, the registration error first. Otherwise overwrites plate,
     * date and car, whichever car the registration belonged to before.
     */
    method UpdateCarRegistration(carId: nat, registrationId: nat, update: CarRegistration)
      returns (result: Result<CarRegistration, ServiceError>)
      requires Valid()
      modifies registrationRepository
      ensures Valid()
      ensures registrationId !in old(registrationRepository.registrations) ==>
                && result == Failure(RegistrationNotFound(registrationId))
                && registrationRepository.registrations == old(registrationRepository.registrations)
                && registrationRepository.nextId == old(registrationRepository.nextId)
      ensures registrationId in old(registrationRepository.registrations) && carId !in carRepository.cars ==>
                && result == Failure(CarNotFound(carId))
                && registrationRepository.registrations == old(registrationRepository.registrations)
                && registrationRepository.nextId == old(registrationRepository.nextId)
      ensures registrationId in old(registrationRepository.registrations) && carId in carRepository.cars ==>
                && result == Success(CarRegistration(Some(registrationId), update.plateNumber,
                                                     update.registrationDate, Some(carId)))
                && registrationRepository.registrations
                   == old(registrationRepository.registrations)[registrationId := result.value]
                && registrationRepository.nextId == old(registrationRepository.nextId)
    {
      var existing := registrationRepository.FindById(registrationId);
      if existing.None? {
        return Failure(RegistrationNotFound(registrationId));
      }
      var car := carRepository.FindById(carId);
      if car.None? {
        return Failure(CarNotFound(carId));
      }
      var changed := existing.value.(plateNumber := update.plateNumber,
                                     registrationDate := update.registrationDate,
                                     carId := car.value.id);
      var saved := registrationRepository.Save(changed);
      result := Success(saved);
    }

    /** The registration with this id, only when it belongs to car `carId`. */
    method GetCarRegistration(carId: nat, registrationId: nat)
      returns (result: Result<CarRegistration, ServiceError>)
      requires Valid()
      ensures result.Success? <==>
                registrationId in registrationRepository.registrations &&
                registrationRepository.registrations[registrationId].carId == Some(carId)
      ensures result.Success? ==>
                result.value == registrationRepository.registrations[registrationId] &&
                result.value.id == Some(registrationId)
      ensures result.Failure? ==> result.error == RegistrationEntityNotFound(registrationId)
    {
      var found := registrationRepository.FindByIdAndCarId(registrationId, carId);
      if found.Some? {
        result := Success(found.value);
      } else {
        result := Failure(RegistrationEntityNotFound(registrationId));
      }
    }

    /**
     * Removes the registration by its id alone and answers true exactly when it was
     * stored; `carId` plays no part.
     */
    method DeleteCarRegistration(carId: nat, registrationId: nat) returns (deleted: bool)
      requires Valid()
      modifies registrationRepository
      ensures Valid()
      ensures deleted == (registrationId in old(registrationRepository.registrations))
      ensures registrationRepository.registrations == old(registrationRepository.registrations) - {registrationId}
      ensures registrationRepository.nextId == old(registrationRepository.nextId)
    {
      if registrationRepository.ExistsById(registrationId) {
        registrationRepository.DeleteById(registrationId);
        deleted := true;
      } else {
        deleted := false;
      }
    }
  }

  /** The three cars the controller's integration data stores, before they have ids. */
  const TestCars: seq<Car> := [
    Car(None, "Toyota", "Corolla", 2018),
    Car(None, "Toyota", "Yaris", 2020),
    Car(None, "Ford", "Fiesta", 2019)
  ]

  /** The table holding the integration data, stored from identity value `first` on. */
  function TestTable(first: nat): map<nat, Car>
  {
    map[first := TestCars[0].(id := Some(first)),
        first + 1 := TestCars[1].(id := Some(first + 1)),
        first + 2 := TestCars[2].(id := Some(first + 2))]
  }

  /**
   * Empties the shared table and stores the integration data in list order. The
   * identity counter survives the emptying, so the ids continue where the previous
   * run left off.
   */
  method SetUpIntegrationData(repository: CarRepository) returns (first: nat)
    requires repository.Valid()
    modifies repository
    ensures repository.Valid()
    ensures first == old(repository.nextId) && first > 0
    ensures repository.cars == TestTable(first) && repository.nextId == first + 3
  {
    repository.DeleteAll();
    first := repository.nextId;
    var corolla := repository.Save(TestCars[0]);
    var yaris := repository.Save(TestCars[1]);
    var fiesta := repository.Save(TestCars[2]);
  }

  /**
   * A client of the listing over the integration data: all three cars, Toyota,
   * Toyota, Ford in that order; two Toyotas; no Hondas.
   */
  method ListingScenario(service: CarService, first: nat) returns (all: seq<Car>, toyotas: seq<Car>, hondas: seq<Car>)
    requires service.repository.Valid() && service.repository.cars == TestTable(first)
    ensures |all| == 3 && all[0].brand == "Toyota" && all[1].brand == "Toyota" && all[2].brand == "Ford"
    ensures all == [TestTable(first)[first], TestTable(first)[first + 1], TestTable(first)[first + 2]]
    ensures |toyotas| == 2 && toyotas[0].brand == "Toyota" && toyotas[1].brand == "Toyota"
    ensures hondas == []
  {
    var table := TestTable(first);
    var corolla, yaris, fiesta := table[first], table[first + 1], table[first + 2];
    all := service.GetAll(None);
    assert corolla in table.Values && yaris in table.Values && fiesta in table.Values;
    AscendingDetermined(all, [corolla, yaris, fiesta]);

    toyotas := service.GetAll(Some("Toyota"));
    AscendingDetermined(toyotas, [corolla, yaris]);

    hondas := service.GetAll(Some("Honda"));
    AscendingDetermined(hondas, []);
  }

  /** A client of deletion: the deleted car is gone, the others stay, a second delete fails. */
  method DeletionScenario(service: CarService, first: nat) returns (deleted: bool, again: bool)
    requires service.repository.Valid() && service.repository.cars == TestTable(first)
    modifies service.repository
    ensures deleted && !again
    ensures service.repository.cars == map[first := TestTable(first)[first], first + 2 := TestTable(first)[first + 2]]
  {
    deleted := service.Delete(first + 1);
    var gone := service.GetById(first + 1);
    var kept := service.GetById(first + 2);
    assert gone.None? && kept == Some(TestTable(first)[first + 2]);
    again := service.Delete(first + 1);
  }

  /**
   * A client of the registration service: a registration is reachable only through
   * its own car, and creating one for a missing car stores nothing.
   */
  method RegistrationScenario()
    returns (missing: Result<CarRegistration, ServiceError>, viaOwner: Result<CarRegistration, ServiceError>,
             viaOther: Result<CarRegistration, ServiceError>, moved: Result<CarRegistration, ServiceError>,
             oldOwner: Result<CarRegistration, ServiceError>, deleted: bool)
    ensures missing == Failure(CarNotFound(7))
    ensures viaOwner.Success? && viaOwner.value.carId == Some(1)
    ensures viaOther == Failure(RegistrationEntityNotFound(1))
    ensures moved == Success(CarRegistration(Some(1), "XY-34-ZZ", 19100, Some(2)))
    ensures oldOwner == Failure(RegistrationEntityNotFound(1))
    ensures deleted
  {
    var cars := new CarRepository();
    var registrations := new CarRegistrationRepository();
    var carService := new CarService(cars);
    var service := new CarRegistrationService(registrations, cars);
    var first := carService.Save(Car(None, "Toyota", "Corolla", 2018));
    var second := carService.Save(Car(None, "Ford", "Fiesta", 2019));

    missing := service.CreateCarRegistration(7, CarRegistration(None, "AB-12-CD", 19000, None));
    assert registrations.registrations == map[];

    var created := service.CreateCarRegistration(1, CarRegistration(None, "AB-12-CD", 19000, None));
    assert created.Success? && created.value.id == Some(1);

    viaOwner := service.GetCarRegistration(1, 1);
    viaOther := service.GetCarRegistration(2, 1);

    moved := service.UpdateCarRegistration(2, 1, CarRegistration(None, "XY-34-ZZ", 19100, None));
    oldOwner := service.GetCarRegistration(1, 1);

    deleted := service.DeleteCarRegistration(1, 1);
    assert registrations.registrations == map[];
  }
}
