/**
 * The catalog store: one `cars` table, seeded once when it is empty, queried
 * with optional equality and range conditions, and asked for the distinct
 * brands and body types. The table is a sequence of rows in rowid order.
 */
module CarDatabase {
  import opened Wrappers
  import opened Seqs
  import opened CarRecords

  // ---------------------------------------------------------------------
  // Seeding

  /** One entry of the literal seed list: a record before the database gives it an id. */
  datatype SeedRow = SeedRow(
    brand: string,
    model: string,
    bodyType: string,
    price: int,
    power: int,
    description: Option<string>)

  /** The largest id in a non-empty table. */
  function MaxId(table: seq<Car>): (m: int)
    requires table != []
    ensures forall i :: 0 <= i < |table| ==> table[i].id <= m
    ensures exists i :: 0 <= i < |table| && table[i].id == m
  {
    if |table| == 1 then table[0].id
    else
      var rest := MaxId(table[1..]);
      if table[0].id >= rest then table[0].id else rest
  }

  /** The id the store gives the next inserted row: one more than the largest, or 1 in an empty table. */
  function NextId(table: seq<Car>): (n: int)
    ensures forall i :: 0 <= i < |table| ==> table[i].id < n
    ensures table == [] ==> n == 1
  {
    if table == [] then 1 else MaxId(table) + 1
  }

  /** The seed entries as rows, numbered consecutively from `firstId` in list order. */
  function Inserted(seed: seq<SeedRow>, firstId: int): (rows: seq<Car>)
    ensures |rows| == |seed|
    ensures forall k :: 0 <= k < |seed| ==>
      rows[k] == Car(firstId + k, seed[k].brand, seed[k].model, seed[k].bodyType,
                     seed[k].price, seed[k].power, seed[k].description)
  {
    if seed == [] then []
    else
      [Car(firstId, seed[0].brand, seed[0].model, seed[0].bodyType, seed[0].price,
           seed[0].power, seed[0].description)]
      + Inserted(seed[1..], firstId + 1)
  }

  /** Row order is id order, so ids are unique. */
  predicate IdsAscending(table: seq<Car>) {
    forall i, j :: 0 <= i < j < |table| ==> table[i].id < table[j].id
  }

  /** Appending a freshly numbered seed keeps ids ascending, hence unique. */
  lemma SeedKeepsIdsUnique(table: seq<Car>, seed: seq<SeedRow>)
    requires IdsAscending(table)
    ensures IdsAscending(table + Inserted(seed, NextId(table)))
  {
    var added := Inserted(seed, NextId(table));
    var t := table + added;
    forall i, j | 0 <= i < j < |t| ensures t[i].id < t[j].id {
      if j >= |table| {
        assert t[j] == added[j - |table|];
        if i < |table| {
          assert t[i] == table[i];
        } else {
          assert t[i] == added[i - |table|];
        }
      }
    }
  }

  /** The table after `_init_database`: seeded only if counting worked, found no rows and the commit succeeded. */
  function AfterInit(table: seq<Car>, seed: seq<SeedRow>, countFails: bool, commitFails: bool): (r: seq<Car>)
    ensures |table| <= |r| && r[..|table|] == table
    ensures r != table ==> table == [] && !countFails && !commitFails
    ensures IdsAscending(table) ==> IdsAscending(r)
  {
    if countFails || |table| != 0 || commitFails then table
    else
      SeedKeepsIdsUnique(table, seed);
      table + Inserted(seed, NextId(table))
  }

  /** Initialising a table that already has rows leaves it as it was. */
  lemma InitOnNonEmptyIsNoOp(table: seq<Car>, seed: seq<SeedRow>, countFails: bool, commitFails: bool)
    requires table != []
    ensures AfterInit(table, seed, countFails, commitFails) == table
  {
  }

  /** Running initialisation twice is the same as once, whenever the first one left rows behind. */
  lemma InitIsIdempotent(table: seq<Car>, seed: seq<SeedRow>, f1: bool, c1: bool, f2: bool, c2: bool)
    requires AfterInit(table, seed, f1, c1) != []
    ensures AfterInit(AfterInit(table, seed, f1, c1), seed, f2, c2) == AfterInit(table, seed, f1, c1)
  {
  }

  /** A successful seed of an empty table holds exactly the seed list, numbered from 1. */
  lemma SeedOfEmptyTable(seed: seq<SeedRow>)
    ensures AfterInit([], seed, false, false) == Inserted(seed, 1)
    ensures IdsAscending(Inserted(seed, 1))
  {
    assert [] + Inserted(seed, 1) == Inserted(seed, 1);
    SeedKeepsIdsUnique([], seed);
  }

  // ---------------------------------------------------------------------
  // Queries

  /** A WHERE condition that `query.filter(...)` adds. */
  datatype Condition =
    | BrandIs(brand: string)
    | BodyTypeIs(bodyType: string)
    | PriceAtMost(maxPrice: int)
    | PriceAtLeast(minPrice: int)
    | PowerAtLeast(minPower: int)
    | PowerAtMost(maxPower: int)

  predicate Holds(cond: Condition, c: Car) {
    match cond
    case BrandIs(b) => c.brand == b
    case BodyTypeIs(t) => c.bodyType == t
    case PriceAtMost(p) => c.price <= p
    case PriceAtLeast(p) => c.price >= p
    case PowerAtLeast(p) => c.power >= p
    case PowerAtMost(p) => c.power <= p
  }

  predicate SatisfiesAll(query: seq<Condition>, c: Car) {
    forall k :: 0 <= k < |query| ==> Holds(query[k], c)
  }

  function SatisfiesAllFn(query: seq<Condition>): Car -> bool {
    c => SatisfiesAll(query, c)
  }

  /** `query.all()`: the rows meeting every condition, in table order. */
  function Execute(table: seq<Car>, query: seq<Condition>): (rows: seq<Car>)
    ensures IsSubsequence(rows, table)
    ensures forall c :: c in rows <==> c in table && SatisfiesAll(query, c)
  {
    FilterMembership(table, SatisfiesAllFn(query));
    FilterIsSubsequence(table, SatisfiesAllFn(query));
    Filter(table, SatisfiesAllFn(query))
  }

  /** `query.filter(cond)` when `active`, otherwise the query as it was. */
  function AddIf(query: seq<Condition>, active: bool, cond: Condition): seq<Condition> {
    if active then query + [cond] else query
  }

  /** The conditions `get_cars` adds, in its order: one per truthy criteria value. */
  function ConditionsFor(criteria: Criteria): (query: seq<Condition>)
    ensures |query| <= 6
    ensures query == [] <==>
      (!TruthyText(criteria.brand) && !TruthyText(criteria.bodyType)
       && !TruthyNumber(criteria.maxPrice) && !TruthyNumber(criteria.minPrice)
       && !TruthyNumber(criteria.minPower) && !TruthyNumber(criteria.maxPower))
  {
    var q1 := AddIf([], TruthyText(criteria.brand), BrandIs(criteria.brand.GetOr("")));
    var q2 := AddIf(q1, TruthyText(criteria.bodyType), BodyTypeIs(criteria.bodyType.GetOr("")));
    var q3 := AddIf(q2, TruthyNumber(criteria.maxPrice), PriceAtMost(criteria.maxPrice.GetOr(0)));
    var q4 := AddIf(q3, TruthyNumber(criteria.minPrice), PriceAtLeast(criteria.minPrice.GetOr(0)));
    var q5 := AddIf(q4, TruthyNumber(criteria.minPower), PowerAtLeast(criteria.minPower.GetOr(0)));
    AddIf(q5, TruthyNumber(criteria.maxPower), PowerAtMost(criteria.maxPower.GetOr(0)))
  }

  /** An added condition narrows the query by exactly that condition. */
  lemma AddIfNarrows(query: seq<Condition>, active: bool, cond: Condition, c: Car)
    ensures SatisfiesAll(AddIf(query, active, cond), c) == (SatisfiesAll(query, c) && (active ==> Holds(cond, c)))
  {
    if active {
      var q := query + [cond];
      assert forall k :: 0 <= k < |query| ==> q[k] == query[k];
      assert q[|query|] == cond;
    }
  }

  /** A row satisfies the conditions `get_cars` builds iff it meets every truthy criterion. */
  lemma ConditionsMeanCriteria(criteria: Criteria)
    ensures forall c :: SatisfiesAll(ConditionsFor(criteria), c) == StoreMatches(criteria, c)
  {
    var q1 := AddIf([], TruthyText(criteria.brand), BrandIs(criteria.brand.GetOr("")));
    var q2 := AddIf(q1, TruthyText(criteria.bodyType), BodyTypeIs(criteria.bodyType.GetOr("")));
    var q3 := AddIf(q2, TruthyNumber(criteria.maxPrice), PriceAtMost(criteria.maxPrice.GetOr(0)));
    var q4 := AddIf(q3, TruthyNumber(criteria.minPrice), PriceAtLeast(criteria.minPrice.GetOr(0)));
    var q5 := AddIf(q4, TruthyNumber(criteria.minPower), PowerAtLeast(criteria.minPower.GetOr(0)));
    forall c ensures SatisfiesAll(ConditionsFor(criteria), c) == StoreMatches(criteria, c) {
      AddIfNarrows([], TruthyText(criteria.brand), BrandIs(criteria.brand.GetOr("")), c);
      AddIfNarrows(q1, TruthyText(criteria.bodyType), BodyTypeIs(criteria.bodyType.GetOr("")), c);
      AddIfNarrows(q2, TruthyNumber(criteria.maxPrice), PriceAtMost(criteria.maxPrice.GetOr(0)), c);
      AddIfNarrows(q3, TruthyNumber(criteria.minPrice), PriceAtLeast(criteria.minPrice.GetOr(0)), c);
      AddIfNarrows(q4, TruthyNumber(criteria.minPower), PowerAtLeast(criteria.minPower.GetOr(0)), c);
      AddIfNarrows(q5, TruthyNumber(criteria.maxPower), PowerAtMost(criteria.maxPower.GetOr(0)), c);
    }
  }

  /** A row meets every constraint whose criteria value is truthy; falsy values ("" or 0) impose nothing. */
  predicate StoreMatches(criteria: Criteria, c: Car) {
    BrandOk(criteria, c) && BodyTypeOk(criteria, c) && MaxPriceOk(criteria, c)
    && MinPriceOk(criteria, c) && MinPowerOk(criteria, c) && MaxPowerOk(criteria, c)
  }

  predicate BrandOk(criteria: Criteria, c: Car) {
    TruthyText(criteria.brand) ==> c.brand == criteria.brand.value
  }

  predicate BodyTypeOk(criteria: Criteria, c: Car) {
    TruthyText(criteria.bodyType) ==> c.bodyType == criteria.bodyType.value
  }

  predicate MaxPriceOk(criteria: Criteria, c: Car) {
    TruthyNumber(criteria.maxPrice) ==> c.price <= criteria.maxPrice.value
  }

  predicate MinPriceOk(criteria: Criteria, c: Car) {
    TruthyNumber(criteria.minPrice) ==> c.price >= criteria.minPrice.value
  }

  predicate MinPowerOk(criteria: Criteria, c: Car) {
    TruthyNumber(criteria.minPower) ==> c.power >= criteria.minPower.value
  }

  predicate MaxPowerOk(criteria: Criteria, c: Car) {
    TruthyNumber(criteria.maxPower) ==> c.power <= criteria.maxPower.value
  }

  function StoreMatchesFn(criteria: Criteria): Car -> bool {
    c => StoreMatches(criteria, c)
  }

  /** The rows `get_cars` selects: those matching the criteria, in table order. */
  function QueryRows(table: seq<Car>, criteria: Criteria): (rows: seq<Car>)
    ensures IsSubsequence(rows, table)
    ensures forall c :: c in rows <==> c in table && StoreMatches(criteria, c)
  {
    FilterMembership(table, StoreMatchesFn(criteria));
    FilterIsSubsequence(table, StoreMatchesFn(criteria));
    Filter(table, StoreMatchesFn(criteria))
  }

  /** With no truthy criteria value the query returns the whole table. */
  lemma QueryWithoutConstraints(table: seq<Car>, criteria: Criteria)
    requires !TruthyText(criteria.brand) && !TruthyText(criteria.bodyType)
    requires !TruthyNumber(criteria.minPrice) && !TruthyNumber(criteria.maxPrice)
    requires !TruthyNumber(criteria.minPower) && !TruthyNumber(criteria.maxPower)
    ensures QueryRows(table, criteria) == table
  {
    FilterAll(table, StoreMatchesFn(criteria));
  }

  /** A bound of 0 is falsy and so filters nothing: `max_price: 0` is the same as no `max_price`. */
  lemma ZeroMaxPriceIgnored(table: seq<Car>, criteria: Criteria)
    ensures QueryRows(table, criteria.(maxPrice := Some(0))) == QueryRows(table, criteria.(maxPrice := None))
  {
    FilterCongruent(table, StoreMatchesFn(criteria.(maxPrice := Some(0))), StoreMatchesFn(criteria.(maxPrice := None)));
  }

  // ---------------------------------------------------------------------
  // Distinct sorted values

  /** SQLite's default text order: code point by code point, a proper prefix first. */
  predicate LexLess(a: string, b: string) {
    if a == [] then b != []
    else if b == [] then false
    else a[0] < b[0] || (a[0] == b[0] && LexLess(a[1..], b[1..]))
  }

  lemma {:induction false} LexLessIrreflexive(a: string)
    ensures !LexLess(a, a)
  {
    if a != [] {
      LexLessIrreflexive(a[1..]);
    }
  }

  lemma {:induction false} LexLessTransitive(a: string, b: string, c: string)
    requires LexLess(a, b) && LexLess(b, c)
    ensures LexLess(a, c)
  {
    if a != [] && a[0] == b[0] && b[0] == c[0] {
      LexLessTransitive(a[1..], b[1..], c[1..]);
    }
  }

  lemma {:induction false} LexLessTotal(a: string, b: string)
    requires a != b
    ensures LexLess(a, b) || LexLess(b, a)
  {
    if a != [] && b != [] && a[0] == b[0] {
      assert a == [a[0]] + a[1..] && b == [b[0]] + b[1..];
      LexLessTotal(a[1..], b[1..]);
    }
  }

  lemma LexLessIsStrictOrder()
    ensures forall a, b, c :: LexLess(a, b) && LexLess(b, c) ==> LexLess(a, c)
    ensures forall a :: !LexLess(a, a)
    ensures forall a, b :: a != b ==> LexLess(a, b) || LexLess(b, a)
  {
    forall a, b, c | LexLess(a, b) && LexLess(b, c) ensures LexLess(a, c) {
      LexLessTransitive(a, b, c);
    }
    forall a ensures !LexLess(a, a) {
      LexLessIrreflexive(a);
    }
    forall a, b | a != b ensures LexLess(a, b) || LexLess(b, a) {
      LexLessTotal(a, b);
    }
  }

  /** Sorted ascending with no value twice. */
  predicate StrictlyAscending(s: seq<string>) {
    forall i, j :: 0 <= i < j < |s| ==> LexLess(s[i], s[j])
  }

  /** Inserts `x` into a strictly ascending list unless it is already there. */
  function InsertDistinct(x: string, s: seq<string>): (r: seq<string>)
    requires StrictlyAscending(s)
    ensures StrictlyAscending(r)
    ensures forall v :: v in r <==> v == x || v in s
  {
    LexLessIsStrictOrder();
    if s == [] then [x]
    else if x == s[0] then s
    else if LexLess(x, s[0]) then
      HeadBelowRest(s);
      ConsAscending(x, s);
      [x] + s
    else
      var rest := InsertDistinct(x, s[1..]);
      HeadBelowRest(s);
      ConsAscending(s[0], rest);
      [s[0]] + rest
  }

  lemma HeadBelowRest(s: seq<string>)
    requires StrictlyAscending(s) && s != []
    ensures StrictlyAscending(s[1..])
    ensures forall v :: v in s[1..] ==> LexLess(s[0], v)
  {
    forall v | v in s[1..] ensures LexLess(s[0], v) {
      var k :| 1 <= k < |s| && s[k] == v;
    }
  }

  lemma ConsAscending(h: string, t: seq<string>)
    requires StrictlyAscending(t)
    requires forall v :: v in t ==> LexLess(h, v)
    ensures StrictlyAscending([h] + t)
  {
    var r := [h] + t;
    forall i, j | 0 <= i < j < |r| ensures LexLess(r[i], r[j]) {
      assert r[j] == t[j - 1];
      if i > 0 {
        assert r[i] == t[i - 1];
      } else {
        assert t[j - 1] in t;
      }
    }
  }

  /** `SELECT DISTINCT v ... ORDER BY v` over a column: ascending, each value once. */
  function DistinctSorted(values: seq<string>): (r: seq<string>)
    ensures StrictlyAscending(r)
    ensures forall v :: v in r <==> v in values
  {
    if values == [] then []
    else InsertDistinct(values[0], DistinctSorted(values[1..]))
  }

  /** Two strictly ascending lists with the same elements are equal: the distinct sorted column is unique. */
  lemma {:induction false} AscendingIsUnique(a: seq<string>, b: seq<string>)
    requires StrictlyAscending(a) && StrictlyAscending(b)
    requires forall v :: v in a <==> v in b
    ensures a == b
  {
    LexLessIsStrictOrder();
    assert b != [] ==> b[0] in b;
    if a != [] {
      assert a[0] in b;
      HeadBelowRest(a);
      HeadBelowRest(b);
      assert a == [a[0]] + a[1..] && b == [b[0]] + b[1..];
      assert b[0] in b && b[0] in a;
      HeadIsLeast(b, a[0]);
      HeadIsLeast(a, b[0]);
      assert a[0] == b[0];
      forall v ensures v in a[1..] <==> v in b[1..] {
        if v in a[1..] {
          assert v != a[0] && v in a && v in b;
        }
        if v in b[1..] {
          assert v != b[0] && v in b && v in a;
        }
      }
      AscendingIsUnique(a[1..], b[1..]);
    }
  }

  lemma HeadIsLeast(s: seq<string>, v: string)
    requires StrictlyAscending(s) && v in s
    ensures v == s[0] || LexLess(s[0], v)
  {
  }

  function BrandColumn(c: Car): string { c.brand }
  function BodyTypeColumn(c: Car): string { c.bodyType }

  // ---------------------------------------------------------------------
  // The store

  /** `Database`: the session's view of the `cars` table. */
  class CarStore {
    var table: seq<Car>

    ghost predicate Valid()
      reads this
    {
      IdsAscending(table)
    }

    /** Opening a table that holds `existing` runs `_init_database` on it. */
    constructor (existing: seq<Car>, seed: seq<SeedRow>, countFails: bool, commitFails: bool)
      requires IdsAscending(existing)
      ensures Valid()
      ensures table == AfterInit(existing, seed, countFails, commitFails)
    {
      table := existing;
      new;
      InitDatabase(seed, countFails, commitFails);
    }

    /** `_init_database`: seed only when the row count is zero; a failing count only prints a warning. */
    method InitDatabase(seed: seq<SeedRow>, countFails: bool, commitFails: bool)
      requires Valid()
      modifies this
      ensures Valid()
      ensures table == AfterInit(old(table), seed, countFails, commitFails)
    {
      if countFails {
        return;
      }
      var count := |table|;
      if count == 0 {
        PopulateDatabase(seed, commitFails);
      }
    }

    /** `_populate_database`: add every seed row and commit, or roll back and keep the table. */
    method PopulateDatabase(seed: seq<SeedRow>, commitFails: bool)
      requires Valid()
      modifies this
      ensures Valid()
      ensures table == if commitFails then old(table) else old(table) + Inserted(seed, NextId(old(table)))
    {
      var pending := Inserted(seed, NextId(table));
      if !commitFails {
        SeedKeepsIdsUnique(table, seed);
        table := table + pending;
      }
    }

    /** `get_cars`: one condition per truthy criteria value, run over the table, each row as a dict; `[]` on a query error. */
    method GetCars(criteria: Criteria, queryFails: bool) returns (r: seq<CarDict>)
      ensures queryFails ==> r == []
      ensures !queryFails ==> r == ToDicts(QueryRows(table, criteria))
    {
      var query: seq<Condition> := [];
      ghost var q0 := query;
      if TruthyText(criteria.brand) {
        query := query + [BrandIs(criteria.brand.value)];
      }
      assert query == AddIf(q0, TruthyText(criteria.brand), BrandIs(criteria.brand.GetOr("")));
      ghost var q1 := query;
      if TruthyText(criteria.bodyType) {
        query := query + [BodyTypeIs(criteria.bodyType.value)];
      }
      assert query == AddIf(q1, TruthyText(criteria.bodyType), BodyTypeIs(criteria.bodyType.GetOr("")));
      ghost var q2 := query;
      if TruthyNumber(criteria.maxPrice) {
        query := query + [PriceAtMost(criteria.maxPrice.value)];
      }
      assert query == AddIf(q2, TruthyNumber(criteria.maxPrice), PriceAtMost(criteria.maxPrice.GetOr(0)));
      ghost var q3 := query;
      if TruthyNumber(criteria.minPrice) {
        query := query + [PriceAtLeast(criteria.minPrice.value)];
      }
      assert query == AddIf(q3, TruthyNumber(criteria.minPrice), PriceAtLeast(criteria.minPrice.GetOr(0)));
      ghost var q4 := query;
      if TruthyNumber(criteria.minPower) {
        query := query + [PowerAtLeast(criteria.minPower.value)];
      }
      assert query == AddIf(q4, TruthyNumber(criteria.minPower), PowerAtLeast(criteria.minPower.GetOr(0)));
      ghost var q5 := query;
      if TruthyNumber(criteria.maxPower) {
        query := query + [PowerAtMost(criteria.maxPower.value)];
      }
      assert query == AddIf(q5, TruthyNumber(criteria.maxPower), PowerAtMost(criteria.maxPower.GetOr(0)));
      assert query == ConditionsFor(criteria);
      ConditionsMeanCriteria(criteria);
      if queryFails {
        return [];
      }
      var cars := Execute(table, query);
      FilterCongruent(table, SatisfiesAllFn(query), StoreMatchesFn(criteria));
      r := ToDicts(cars);
    }

    /** `get_unique_brands`: the distinct brands in ascending order; `[]` on a query error. */
    method GetUniqueBrands(queryFails: bool) returns (r: seq<string>)
      ensures queryFails ==> r == []
      ensures !queryFails ==> StrictlyAscending(r)
      ensures !queryFails ==> forall b :: b in r <==> exists i :: 0 <= i < |table| && table[i].brand == b
    {
      if queryFails {
        return [];
      }
      var column := Map(table, BrandColumn);
      r := DistinctSorted(column);
      forall b ensures b in r <==> exists i :: 0 <= i < |table| && table[i].brand == b {
        if b in column {
          var i :| 0 <= i < |column| && column[i] == b;
          assert table[i].brand == b;
        }
      }
    }

    /** `get_unique_body_types`: the distinct body types in ascending order; `[]` on a query error. */
    method GetUniqueBodyTypes(queryFails: bool) returns (r: seq<string>)
      ensures queryFails ==> r == []
      ensures !queryFails ==> StrictlyAscending(r)
      ensures !queryFails ==> forall t :: t in r <==> exists i :: 0 <= i < |table| && table[i].bodyType == t
    {
      if queryFails {
        return [];
      }
      var column := Map(table, BodyTypeColumn);
      r := DistinctSorted(column);
      forall t ensures t in r <==> exists i :: 0 <= i < |table| && table[i].bodyType == t {
        if t in column {
          var i :| 0 <= i < |column| && column[i] == t;
          assert table[i].bodyType == t;
        }
      }
    }
  }
}
