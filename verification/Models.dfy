/**
 * The JPA entities of the car demo (`Car`, `CarRegistration`) as values, with the
 * small wrappers the rest of the model uses: `Option` for Java's nullable ids and
 * `Optional` results, `Result` for the services' exceptions, and Java's 32-bit `int`.
 */
module Models {

  datatype Option<+T> = None | Some(value: T)

  datatype Result<+T, +E> = Success(value: T) | Failure(error: E)

  const TwoTo31: int := 0x8000_0000
  const TwoTo32: int := 0x1_0000_0000

  /** Java's `int`. */
  newtype int32 = x: int | -0x8000_0000 <= x < 0x8000_0000

  /**
   * Java `int` subtraction `a - b`: the mathematical difference, wrapped into
   * 32 bits (two's complement) when it does not fit.
   */
  function JavaIntSub(a: int32, b: int32): (d: int32)
    ensures -TwoTo31 <= a as int - b as int < TwoTo31 ==> d as int == a as int - b as int
    ensures (d as int - (a as int - b as int)) % TwoTo32 == 0
  {
    ((a as int - b as int + TwoTo31) % TwoTo32 - TwoTo31) as int32
  }

  /** A `java.time.LocalDate`, represented by its epoch day. */
  type Date = int

  /**
   * A row of table `cars`. `id` is `None` until the repository has stored the car;
   * the collections of repair invoices and accessories are not part of this model.
   */
  datatype Car = Car(id: Option<nat>, brand: string, model: string, year: int32)

  /**
   * A row of table `car_registrations`. The one-to-one reference to its car is kept
   * as the foreign key `carId` (column `car_id`), `None` while no car is set.
   */
  datatype CarRegistration = CarRegistration(
    id: Option<nat>,
    plateNumber: string,
    registrationDate: Date,
    carId: Option<nat>)
}
