/**
 * The recommendation facade: ask the store for matching cars, sort them by
 * price with a stable sort, and project each one to a six-key view.
 */
module Expert {
  import opened Wrappers
  import opened Seqs
  import opened CarRecords
  import CarDatabase

  /** The dict `recommend` builds per car: six keys, `id` dropped. */
  datatype View = View(
    brand: string,
    model: string,
    bodyType: string,
    price: int,
    power: int,
    description: Option<string>)

  /** `car['brand']`, `car['model']`, `car['body_type']`, `car['price']` and `car['power']` all succeed. */
  predicate HasViewKeys(c: CarDict) {
    c.brand.Present? && c.model.Present? && c.bodyType.Present? && c.price.Present? && c.power.Present?
  }

  predicate AllHaveViewKeys(cars: seq<CarDict>) {
    forall c | c in cars :: HasViewKeys(c)
  }

  /** The projection of one car; `description` falls back to "" only when the key is missing. */
  function ViewOf(c: CarDict): (v: View)
    requires HasViewKeys(c)
    ensures c.description.Absent? ==> v.description == Some("")
    ensures c.description.Present? ==> v.description == c.description.value
  {
    View(c.brand.value, c.model.value, c.bodyType.value, c.price.value, c.power.value,
         c.description.GetOr(Some("")))
  }

  /** A stored row keeps every column but `id` in its view, its description (even a null one) included. */
  lemma RowViewKeepsColumns(row: Car)
    ensures HasViewKeys(ToDict(row))
    ensures ViewOf(ToDict(row)) == RowView(row)
  {
  }

  /** A row with its `id` left out. */
  function RowView(row: Car): View {
    View(row.brand, row.model, row.bodyType, row.price, row.power, row.description)
  }

  /** The view does not depend on `id`. */
  lemma ViewIgnoresId(c: CarDict, id: Field<int>)
    requires HasViewKeys(c)
    ensures ViewOf(c.(id := id)) == ViewOf(c)
  {
  }

  /** The list comprehension `[view(c) for c in cars]`. */
  function ProjectAll(cars: seq<CarDict>): (views: seq<View>)
    requires AllHaveViewKeys(cars)
    ensures |views| == |cars|
    ensures forall i :: 0 <= i < |cars| ==> views[i] == ViewOf(cars[i])
  {
    seq(|cars|, i requires 0 <= i < |cars| => ViewOf(cars[i]))
  }

  // ---------------------------------------------------------------------
  // sorted(cars, key=lambda x: x['price'])

  predicate AllPriced(cars: seq<CarDict>) {
    forall c | c in cars :: c.price.Present?
  }

  predicate SortedByPrice(cars: seq<CarDict>)
    requires AllPriced(cars)
  {
    forall i, j :: 0 <= i < j < |cars| ==> cars[i].price.value <= cars[j].price.value
  }

  /** Puts `x` before the first element whose price is not below its own. */
  function InsertByPrice(x: CarDict, sorted: seq<CarDict>): (r: seq<CarDict>)
    requires x.price.Present? && AllPriced(sorted)
    ensures |r| == |sorted| + 1
    ensures multiset(r) == multiset(sorted) + multiset{x}
    ensures forall c :: c in r <==> c == x || c in sorted
  {
    if sorted == [] || x.price.value <= sorted[0].price.value then [x] + sorted
    else
      assert sorted == [sorted[0]] + sorted[1..];
      [sorted[0]] + InsertByPrice(x, sorted[1..])
  }

  lemma {:induction false} InsertKeepsSorted(x: CarDict, sorted: seq<CarDict>)
    requires x.price.Present? && AllPriced(sorted) && SortedByPrice(sorted)
    ensures AllPriced(InsertByPrice(x, sorted)) && SortedByPrice(InsertByPrice(x, sorted))
  {
    var r := InsertByPrice(x, sorted);
    assert AllPriced(r);
    if sorted == [] || x.price.value <= sorted[0].price.value {
      forall i, j | 0 <= i < j < |r| ensures r[i].price.value <= r[j].price.value {
        assert r[j] == sorted[j - 1];
        if i > 0 {
          assert r[i] == sorted[i - 1];
        } else if j > 1 {
          assert sorted[0].price.value <= sorted[j - 1].price.value;
        }
      }
    } else {
      var rest := InsertByPrice(x, sorted[1..]);
      assert r == [sorted[0]] + rest;
      InsertKeepsSorted(x, sorted[1..]);
      forall i, j | 0 <= i < j < |r| ensures r[i].price.value <= r[j].price.value {
        var c := rest[j - 1];
        assert r[j] == c;
        if i > 0 {
          assert r[i] == rest[i - 1];
        } else if c != x {
          assert c in sorted[1..];
          var k :| 0 <= k < |sorted[1..]| && sorted[1..][k] == c;
          assert sorted[k + 1] == c;
        }
      }
    }
  }

  /** Python's stable `sorted` by price, as an insertion sort that never moves a later car before an equal-priced earlier one. */
  function SortByPrice(cars: seq<CarDict>): (r: seq<CarDict>)
    requires AllPriced(cars)
    ensures |r| == |cars|
    ensures multiset(r) == multiset(cars)
    ensures forall c :: c in r <==> c in cars
    ensures AllPriced(r)
    ensures SortedByPrice(r)
  {
    if cars == [] then []
    else
      assert cars == [cars[0]] + cars[1..];
      var rest := SortByPrice(cars[1..]);
      InsertKeepsSorted(cars[0], rest);
      InsertByPrice(cars[0], rest)
  }

  function PriceIs(p: int): CarDict -> bool {
    (c: CarDict) => c.price == Present(p)
  }

  lemma {:induction false} InsertKeepsEqualPriceOrder(x: CarDict, sorted: seq<CarDict>, p: int)
    requires x.price.Present? && AllPriced(sorted)
    ensures Filter(InsertByPrice(x, sorted), PriceIs(p)) == Filter([x] + sorted, PriceIs(p))
  {
    if sorted != [] && x.price.value > sorted[0].price.value {
      InsertKeepsEqualPriceOrder(x, sorted[1..], p);
      assert ([x] + sorted)[1..] == sorted;
      assert sorted == [sorted[0]] + sorted[1..];
    }
  }

  /** Stability: the cars of any one price come out in the order they went in. */
  lemma {:induction false} SortIsStable(cars: seq<CarDict>, p: int)
    requires AllPriced(cars)
    ensures Filter(SortByPrice(cars), PriceIs(p)) == Filter(cars, PriceIs(p))
  {
    if cars != [] {
      assert cars == [cars[0]] + cars[1..];
      SortIsStable(cars[1..], p);
      InsertKeepsEqualPriceOrder(cars[0], SortByPrice(cars[1..]), p);
      assert ([cars[0]] + SortByPrice(cars[1..]))[1..] == SortByPrice(cars[1..]);
    }
  }

  // ---------------------------------------------------------------------
  // Properties of sorted views

  lemma ProjectCons(x: CarDict, t: seq<CarDict>)
    requires HasViewKeys(x) && AllHaveViewKeys(t)
    ensures AllHaveViewKeys([x] + t) && ProjectAll([x] + t) == [ViewOf(x)] + ProjectAll(t)
  {
  }

  lemma {:induction false} ProjectInsert(x: CarDict, t: seq<CarDict>)
    requires HasViewKeys(x) && AllHaveViewKeys(t)
    ensures AllHaveViewKeys(InsertByPrice(x, t))
      && multiset(ProjectAll(InsertByPrice(x, t))) == multiset(ProjectAll(t)) + multiset{ViewOf(x)}
  {
    ProjectCons(x, t);
    if t != [] {
      assert t[0] in t;
      if x.price.value > t[0].price.value {
        assert t == [t[0]] + t[1..];
        assert AllHaveViewKeys(t[1..]);
        var rest := InsertByPrice(x, t[1..]);
        assert InsertByPrice(x, t) == [t[0]] + rest;
        ProjectInsert(x, t[1..]);
        ProjectCons(t[0], t[1..]);
        ProjectCons(t[0], rest);
        assert multiset(ProjectAll(t)) == multiset{ViewOf(t[0])} + multiset(ProjectAll(t[1..]));
        assert multiset(ProjectAll([t[0]] + rest)) == multiset{ViewOf(t[0])} + multiset(ProjectAll(rest));
      }
    }
  }

  /** Sorting rearranges the views and changes none of them. */
  lemma {:induction false} ProjectSort(cars: seq<CarDict>)
    requires AllHaveViewKeys(cars)
    ensures AllHaveViewKeys(SortByPrice(cars))
      && multiset(ProjectAll(SortByPrice(cars))) == multiset(ProjectAll(cars))
  {
    if cars != [] {
      assert cars == [cars[0]] + cars[1..];
      ProjectSort(cars[1..]);
      ProjectInsert(cars[0], SortByPrice(cars[1..]));
      ProjectCons(cars[0], cars[1..]);
    }
  }

  /** Projecting then keeping one price is keeping that price then projecting. */
  lemma {:induction false} ProjectThenFilterPrice(cars: seq<CarDict>, p: int)
    requires AllHaveViewKeys(cars)
    ensures AllHaveViewKeys(Filter(cars, PriceIs(p)))
      && Filter(ProjectAll(cars), ViewPriceIs(p)) == ProjectAll(Filter(cars, PriceIs(p)))
  {
    if cars != [] {
      var x, rest := cars[0], cars[1..];
      assert x in cars;
      assert AllHaveViewKeys(rest) by {
        forall c | c in rest ensures HasViewKeys(c) {
          assert c in cars;
        }
      }
      ProjectThenFilterPrice(rest, p);
      ProjectCons(x, rest);
      assert cars == [x] + rest;
      assert ProjectAll(cars)[1..] == ProjectAll(rest);
      if x.price == Present(p) {
        ProjectCons(x, Filter(rest, PriceIs(p)));
      }
    }
  }

  function ViewPriceIs(p: int): View -> bool {
    (v: View) => v.price == p
  }

  /** What `recommend` produces from the cars the store returned. */
  datatype Outcome = Ok(views: seq<View>) | KeyError

  /** Empty in, empty out; a car lacking one of the five keys raises `KeyError`; otherwise the views sorted by price. */
  function SortedViews(cars: seq<CarDict>): (r: Outcome)
    ensures cars == [] ==> r == Ok([])
    ensures r.KeyError? <==> !AllHaveViewKeys(cars)
    ensures r.Ok? ==> |r.views| == |cars|
  {
    if cars == [] then Ok([])
    else if !AllHaveViewKeys(cars) then KeyError
    else Ok(ProjectAll(SortByPrice(cars)))
  }

  /** The views are in non-decreasing price order. */
  lemma SortedViewsAreSorted(cars: seq<CarDict>)
    requires SortedViews(cars).Ok?
    ensures var vs := SortedViews(cars).views;
      forall i, j :: 0 <= i < j < |vs| ==> vs[i].price <= vs[j].price
  {
  }

  /** The views are those of the input cars, each as often as it occurs there. */
  lemma SortedViewsArePermutation(cars: seq<CarDict>)
    requires SortedViews(cars).Ok?
    ensures multiset(SortedViews(cars).views) == multiset(ProjectAll(cars))
  {
    if cars != [] {
      ProjectSort(cars);
    }
  }

  /** Each view is the view of one of the input cars. */
  lemma ViewComesFromCar(cars: seq<CarDict>, v: View) returns (c: CarDict)
    requires SortedViews(cars).Ok? && v in SortedViews(cars).views
    ensures c in cars && HasViewKeys(c) && v == ViewOf(c)
  {
    SortedViewsArePermutation(cars);
    assert v in multiset(ProjectAll(cars));
    var i :| 0 <= i < |cars| && ProjectAll(cars)[i] == v;
    c := cars[i];
  }

  /** Views of equal price keep the order in which the store returned their cars. */
  lemma SortedViewsAreStable(cars: seq<CarDict>, p: int)
    requires SortedViews(cars).Ok?
    ensures AllHaveViewKeys(Filter(cars, PriceIs(p)))
      && Filter(SortedViews(cars).views, ViewPriceIs(p)) == ProjectAll(Filter(cars, PriceIs(p)))
  {
    ProjectThenFilterPrice(cars, p);
    if cars != [] {
      ProjectThenFilterPrice(SortByPrice(cars), p);
      SortIsStable(cars, p);
    }
  }

  // ---------------------------------------------------------------------
  // The facade

  /** `ExpertSystem`: a recommender bound to one store. */
  class ExpertSystem {
    const db: CarDatabase.CarStore

    constructor (db: CarDatabase.CarStore)
      ensures this.db == db
    {
      this.db := db;
    }

    /** `recommend`: the store's matching cars (none on a query error), sorted by price, as views. */
    method Recommend(criteria: Criteria, queryFails: bool) returns (r: Outcome)
      ensures r == SortedViews(if queryFails then [] else ToDicts(CarDatabase.QueryRows(db.table, criteria)))
    {
      var cars := db.GetCars(criteria, queryFails);
      if cars == [] {
        return Ok([]);
      }
      if !AllHaveViewKeys(cars) {
        return KeyError;
      }
      var recommendations := SortByPrice(cars);
      assert AllHaveViewKeys(recommendations);
      var result: seq<View> := [];
      for i := 0 to |recommendations|
        invariant |result| == i
        invariant forall k :: 0 <= k < i ==> result[k] == ViewOf(recommendations[k])
      {
        result := result + [ViewOf(recommendations[i])];
      }
      assert result == ProjectAll(recommendations);
      r := Ok(result);
    }
  }

  /** Views of store rows never raise, and each one is the view of a stored row meeting every active criterion. */
  lemma StoreRecommendationsMatch(table: seq<Car>, criteria: Criteria)
    ensures SortedViews(ToDicts(CarDatabase.QueryRows(table, criteria))).Ok?
    ensures forall v | v in SortedViews(ToDicts(CarDatabase.QueryRows(table, criteria))).views ::
      exists row :: row in table && CarDatabase.StoreMatches(criteria, row) && v == RowView(row)
  {
    var rows := CarDatabase.QueryRows(table, criteria);
    var dicts := ToDicts(rows);
    assert AllHaveViewKeys(dicts) by {
      forall c | c in dicts ensures HasViewKeys(c) {
        var i :| 0 <= i < |dicts| && dicts[i] == c;
      }
    }
    forall v | v in SortedViews(dicts).views
      ensures exists row :: row in table && CarDatabase.StoreMatches(criteria, row) && v == RowView(row)
    {
      var c := ViewComesFromCar(dicts, v);
      var i :| 0 <= i < |dicts| && dicts[i] == c;
      assert rows[i] in rows;
      RowViewKeepsColumns(rows[i]);
    }
  }
}
