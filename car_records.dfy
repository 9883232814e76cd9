/**
 * The car record of the catalog table, the dictionary shape in which the
 * application passes cars around, and the sparse criteria mapping.
 */
module CarRecords {
  import opened Wrappers
  import Seqs

  /** One row of the `cars` table; `description` is the only nullable column. */
  datatype Car = Car(
    id: int,
    brand: string,
    model: string,
    bodyType: string,
    price: int,
    power: int,
    description: Option<string>)

  /** Whether a key is in a Python dict, and its value if it is. */
  datatype Field<+T> = Absent | Present(value: T) {

    /** `d.get(key, default)`. */
    function GetOr(default: T): T {
      match this
      case Present(v) => v
      case Absent => default
    }
  }

  /**
   * A car as a dict with the keys `id`, `brand`, `model`, `body_type`,
   * `price`, `power` and `description`, each of which may be missing.
   */
  datatype CarDict = CarDict(
    id: Field<int>,
    brand: Field<string>,
    model: Field<string>,
    bodyType: Field<string>,
    price: Field<int>,
    power: Field<int>,
    description: Field<Option<string>>)

  /** All seven keys are present. */
  predicate HasAllKeys(d: CarDict) {
    d.id.Present? && d.brand.Present? && d.model.Present? && d.bodyType.Present?
    && d.price.Present? && d.power.Present? && d.description.Present?
  }

  /** Reads a record back from a dict, or `None` when a key is missing. */
  function FromDict(d: CarDict): Option<Car> {
    if HasAllKeys(d) then
      Some(Car(d.id.value, d.brand.value, d.model.value, d.bodyType.value,
               d.price.value, d.power.value, d.description.value))
    else None
  }

  /** `Car.to_dict`: every column under its own key, the nullable description included. */
  function ToDict(c: Car): (d: CarDict)
    ensures HasAllKeys(d)
    ensures FromDict(d) == Some(c)
  {
    CarDict(Present(c.id), Present(c.brand), Present(c.model), Present(c.bodyType),
            Present(c.price), Present(c.power), Present(c.description))
  }

  /** Distinct records give distinct dicts: the projection loses nothing. */
  lemma ToDictInjective(a: Car, b: Car)
    requires ToDict(a) == ToDict(b)
    ensures a == b
  {
    assert Some(a) == FromDict(ToDict(a)) == FromDict(ToDict(b)) == Some(b);
  }

  /** `[car.to_dict() for car in rows]`. */
  function ToDicts(rows: seq<Car>): (r: seq<CarDict>)
    ensures |r| == |rows|
    ensures forall i :: 0 <= i < |rows| ==> r[i] == ToDict(rows[i])
  {
    Seqs.Map(rows, ToDict)
  }

  /**
   * The sparse criteria mapping: `None` is an absent key. The only keys
   * any caller produces are these six.
   */
  datatype Criteria = Criteria(
    brand: Option<string>,
    bodyType: Option<string>,
    minPrice: Option<int>,
    maxPrice: Option<int>,
    minPower: Option<int>,
    maxPower: Option<int>)

  /** The empty mapping `{}`. */
  const NoCriteria := Criteria(None, None, None, None, None, None)

  /** Python truthiness of `criteria.get(key)` for a string value. */
  predicate TruthyText(v: Option<string>) {
    v.Some? && v.value != ""
  }

  /** Python truthiness of `criteria.get(key)` for an integer value. */
  predicate TruthyNumber(v: Option<int>) {
    v.Some? && v.value != 0
  }
}
