/**
 * The two JPA repositories as in-memory tables: a map from generated id to row and
 * the identity counter that generates the next id. The queries carry no ordering
 * clause, so the store promises no order; this model lists rows in ascending id
 * order, the order in which the identity counter handed the ids out.
 */
module Repositories {
  import opened Models

  /** Every row is stored under its own id, and every id is below the counter. */
  ghost predicate KeyedBelow(cars: map<nat, Car>, bound: nat)
  {
    forall k :: k in cars ==> 0 < k < bound && cars[k].id == Some(k)
  }

  /** Every row has an id, and ids strictly increase along the sequence. */
  ghost predicate AscendingIds(rows: seq<Car>)
  {
    && (forall i :: 0 <= i < |rows| ==> rows[i].id.Some?)
    && (forall i, j :: 0 <= i < j < |rows| ==> rows[i].id.value < rows[j].id.value)
  }

  /** The rows of `cars` whose id is below `bound`, in ascending id order. */
  function Listing(cars: map<nat, Car>, bound: nat): seq<Car>
  {
    if bound == 0 then []
    else Listing(cars, bound - 1) + (if bound - 1 in cars then [cars[bound - 1]] else [])
  }

  /** The stored ids below `bound`. */
  ghost function IdsBelow(cars: map<nat, Car>, bound: nat): set<nat>
  {
    set k | k in cars && k < bound
  }

  /** The listing is in ascending id order, and every id in it is below the bound. */
  lemma {:induction false} ListingAscending(cars: map<nat, Car>, bound: nat)
    requires forall k :: k in cars ==> cars[k].id == Some(k)
    ensures AscendingIds(Listing(cars, bound))
    ensures forall i :: 0 <= i < |Listing(cars, bound)| ==> Listing(cars, bound)[i].id.value < bound
  {
    if bound > 0 {
      ListingAscending(cars, bound - 1);
    }
  }

  /** The listing holds exactly the stored rows whose id is below the bound. */
  lemma {:induction false} ListingMembers(cars: map<nat, Car>, bound: nat)
    ensures forall c :: c in Listing(cars, bound) ==> exists k :: k in cars && k < bound && cars[k] == c
    ensures forall c :: c in Listing(cars, bound) ==> c in cars.Values
    ensures forall k :: k in cars && k < bound ==> cars[k] in Listing(cars, bound)
  {
    if bound > 0 {
      var n := bound - 1;
      ListingMembers(cars, n);
      forall c | c in Listing(cars, bound) ensures exists k :: k in cars && k < bound && cars[k] == c {
        if c !in Listing(cars, n) {
          assert n in cars && cars[n] == c;
        }
      }
      forall k | k in cars && k < bound ensures cars[k] in Listing(cars, bound) {
        if k < n {
          assert cars[k] in Listing(cars, n);
        }
      }
    }
  }

  /** The listing holds each row below the bound once: its length is the number of those ids. */
  lemma {:induction false} ListingLength(cars: map<nat, Car>, bound: nat)
    ensures |Listing(cars, bound)| == |IdsBelow(cars, bound)|
  {
    if bound == 0 {
      assert IdsBelow(cars, bound) == {};
    } else {
      var n := bound - 1;
      ListingLength(cars, n);
      if n in cars {
        assert IdsBelow(cars, bound) == IdsBelow(cars, n) + {n};
      } else {
        assert IdsBelow(cars, bound) == IdsBelow(cars, n);
      }
    }
  }

  /** The rows of `rows` whose brand equals `brand`, in their original order. */
  function WithBrand(rows: seq<Car>, brand: string): (matching: seq<Car>)
    ensures forall c :: c in matching <==> c in rows && c.brand == brand
    ensures |matching| <= |rows|
  {
    if rows == [] then []
    else if rows[0].brand == brand then [rows[0]] + WithBrand(rows[1..], brand)
    else WithBrand(rows[1..], brand)
  }

  /** Filtering keeps ids ascending: the filtered rows keep their relative order. */
  lemma {:induction false} WithBrandAscending(rows: seq<Car>, brand: string)
    requires AscendingIds(rows)
    ensures AscendingIds(WithBrand(rows, brand))
  {
    if rows != [] {
      WithBrandAscending(rows[1..], brand);
      var rest := WithBrand(rows[1..], brand);
      forall c | c in rest ensures rows[0].id.value < c.id.value {
        var j :| 0 <= j < |rows[1..]| && rows[1..][j] == c;
        assert rows[j + 1] == c;
      }
    }
  }

  /**
   * Ascending ids and the set of members determine a sequence of rows: a listing
   * stated by those two properties is unique.
   */
  lemma {:induction false} AscendingDetermined(a: seq<Car>, b: seq<Car>)
    requires AscendingIds(a) && AscendingIds(b)
    requires forall c :: c in a <==> c in b
    ensures a == b
  {
    assert a != [] ==> a[0] in b;
    assert b != [] ==> b[0] in a;
    if a != [] {
      assert b[0] in a;
      var i :| 0 <= i < |a| && a[i] == b[0];
      assert a[0] in b;
      var j :| 0 <= j < |b| && b[j] == a[0];
      assert a[0].id.value <= a[i].id.value;
      assert b[0].id.value <= b[j].id.value;
      assert i == 0;
      forall c ensures c in a[1..] <==> c in b[1..] {
        if c in a[1..] {
          var k :| 1 <= k < |a| && a[k] == c;
          assert c in b;
          assert c != b[0];
        }
        if c in b[1..] {
          var k :| 1 <= k < |b| && b[k] == c;
          assert c in a;
          assert c != a[0];
        }
      }
      AscendingDetermined(a[1..], b[1..]);
      assert a == [a[0]] + a[1..];
      assert b == [b[0]] + b[1..];
    }
  }

  /** Table `cars` behind the derived-query repository of cars. */
  class CarRepository {
    var cars: map<nat, Car>
    var nextId: nat

    ghost predicate Valid()
      reads this
    {
      0 < nextId && KeyedBelow(cars, nextId)
    }

    constructor ()
      ensures Valid() && cars == map[] && nextId == 1
    {
      cars := map[];
      nextId := 1;
    }

    /** `findAll`: every stored car, once each, in ascending id order. */
    function FindAll(): (rows: seq<Car>)
      reads this
      requires Valid()
      ensures AscendingIds(rows)
      ensures forall c :: c in rows <==> c in cars.Values
      ensures |rows| == |cars|
    {
      ListingAscending(cars, nextId);
      ListingMembers(cars, nextId);
      ListingLength(cars, nextId);
      assert IdsBelow(cars, nextId) == cars.Keys;
      Listing(cars, nextId)
    }

    /** `findByBrand`: the stored cars whose brand equals `brand`, in ascending id order. */
    function FindByBrand(brand: string): (rows: seq<Car>)
      reads this
      requires Valid()
      ensures AscendingIds(rows)
      ensures forall c :: c in rows <==> c in cars.Values && c.brand == brand
    {
      WithBrandAscending(FindAll(), brand);
      WithBrand(FindAll(), brand)
    }

    /** `findById`: the stored car that carries this id, if there is one. */
    function FindById(id: nat): (found: Option<Car>)
      reads this
      requires Valid()
      ensures found.Some? <==> exists c :: c in cars.Values && c.id == Some(id)
      ensures found.Some? ==> found.value in cars.Values && found.value.id == Some(id)
    {
      if id in cars then Some(cars[id]) else None
    }

    /** `existsById`: whether some stored car carries this id. */
    function ExistsById(id: nat): (present: bool)
      reads this
      requires Valid()
      ensures present <==> exists c :: c in cars.Values && c.id == Some(id)
    {
      id in cars
    }

    /** `deleteAll`: empties the table; the identity counter is not reset. */
    method DeleteAll()
      requires Valid()
      modifies this
      ensures Valid()
      ensures cars == map[] && nextId == old(nextId)
    {
      cars := map[];
    }

    /**
     * `save`: a car whose id is stored overwrites that row; any other car is
     * inserted under the next generated id.
     */
    method Save(car: Car) returns (saved: Car)
      requires Valid()
      modifies this
      ensures Valid()
      ensures saved.id.Some? && saved == car.(id := saved.id)
      ensures car.id.Some? && car.id.value in old(cars) ==>
                saved == car && cars == old(cars)[car.id.value := car] && nextId == old(nextId)
      ensures !(car.id.Some? && car.id.value in old(cars)) ==>
                saved.id == Some(old(nextId)) && old(nextId) !in old(cars) &&
                cars == old(cars)[old(nextId) := saved] && nextId == old(nextId) + 1
    {
      if car.id.Some? && car.id.value in cars {
        saved := car;
        cars := cars[car.id.value := car];
      } else {
        saved := car.(id := Some(nextId));
        cars := cars[nextId := saved];
        nextId := nextId + 1;
      }
    }

    /** `deleteById`: removes the row if there is one. */
    method DeleteById(id: nat)
      requires Valid()
      modifies this
      ensures Valid()
      ensures cars == old(cars) - {id} && nextId == old(nextId)
    {
      cars := cars - {id};
    }
  }

  /** Table `car_registrations` behind the registration repository. */
  class CarRegistrationRepository {
    var registrations: map<nat, CarRegistration>
    var nextId: nat

    ghost predicate Valid()
      reads this
    {
      && 0 < nextId
      && forall k :: k in registrations ==> 0 < k < nextId && registrations[k].id == Some(k)
    }

    constructor ()
      ensures Valid() && registrations == map[] && nextId == 1
    {
      registrations := map[];
      nextId := 1;
    }

    /** `findById`: the stored registration that carries this id, if there is one. */
    function FindById(id: nat): (found: Option<CarRegistration>)
      reads this
      requires Valid()
      ensures found.Some? <==> exists r :: r in registrations.Values && r.id == Some(id)
      ensures found.Some? ==> found.value in registrations.Values && found.value.id == Some(id)
    {
      if id in registrations then Some(registrations[id]) else None
    }

    /** `findByIdAndCarId`: the registration with this id, provided it belongs to this car. */
    function FindByIdAndCarId(id: nat, carId: nat): (found: Option<CarRegistration>)
      reads this
      requires Valid()
      ensures found.Some? <==>
                exists r :: r in registrations.Values && r.id == Some(id) && r.carId == Some(carId)
      ensures found.Some? ==>
                && found.value in registrations.Values
                && found.value.id == Some(id)
                && found.value.carId == Some(carId)
    {
      if id in registrations && registrations[id].carId == Some(carId) then Some(registrations[id]) else None
    }

    /** `existsById`: whether some stored registration carries this id. */
    function ExistsById(id: nat): (present: bool)
      reads this
      requires Valid()
      ensures present <==> exists r :: r in registrations.Values && r.id == Some(id)
    {
      id in registrations
    }

    /** `save`, with the same insert-or-overwrite rule as for cars. */
    method Save(registration: CarRegistration) returns (saved: CarRegistration)
      requires Valid()
      modifies this
      ensures Valid()
      ensures saved.id.Some? && saved == registration.(id := saved.id)
      ensures registration.id.Some? && registration.id.value in old(registrations) ==>
                saved == registration && nextId == old(nextId) &&
                registrations == old(registrations)[registration.id.value := registration]
      ensures !(registration.id.Some? && registration.id.value in old(registrations)) ==>
                saved.id == Some(old(nextId)) && old(nextId) !in old(registrations) &&
                registrations == old(registrations)[old(nextId) := saved] && nextId == old(nextId) + 1
    {
      if registration.id.Some? && registration.id.value in registrations {
        saved := registration;
        registrations := registrations[registration.id.value := registration];
      } else {
        saved := registration.(id := Some(nextId));
        registrations := registrations[nextId := saved];
        nextId := nextId + 1;
      }
    }

    method DeleteById(id: nat)
      requires Valid()
      modifies this
      ensures Valid()
      ensures registrations == old(registrations) - {id} && nextId == old(nextId)
    {
      registrations := registrations - {id};
    }
  }
}
