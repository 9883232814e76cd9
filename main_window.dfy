/**
 * The main window's search: the four drop-down selections become a sparse
 * criteria mapping, the decision tree filters the cars, and the survivors
 * are sorted by price, projected to views and kept as the current results;
 * prices are shown with their thousands separated by spaces.
 */
module MainWindow {
  import opened Wrappers
  import opened Seqs
  import opened CarRecords
  import opened DecisionTree
  import CarDatabase
  import opened Expert

  // ---------------------------------------------------------------------
  // Drop-down contents

  /** One drop-down entry: its text and the `(min, max)` pair stored as its data. */
  datatype RangeOption = RangeOption(name: string, lo: Option<int>, hi: Option<int>)

  const PriceOptions: seq<RangeOption> := [
    RangeOption("Любая", None, None),
    RangeOption("до 1 млн", None, Some(1_000_000)),
    RangeOption("1 – 2 млн", Some(1_000_000), Some(2_000_000)),
    RangeOption("2 – 3 млн", Some(2_000_000), Some(3_000_000)),
    RangeOption("3 – 5 млн", Some(3_000_000), Some(5_000_000)),
    RangeOption("5 – 10 млн", Some(5_000_000), Some(10_000_000)),
    RangeOption("10+ млн", Some(10_000_000), None)
  ]

  const PowerOptions: seq<RangeOption> := [
    RangeOption("Любая", None, None),
    RangeOption("до 100 л.с.", None, Some(100)),
    RangeOption("100 – 150 л.с.", Some(100), Some(150)),
    RangeOption("150 – 200 л.с.", Some(150), Some(200)),
    RangeOption("200 – 300 л.с.", Some(200), Some(300)),
    RangeOption("300+ л.с.", Some(300), None)
  ]

  /** The first entries of the body-type and brand drop-downs. */
  const AnyBodyType := "Любой"
  const AnyBrand := "Любая"

  /** The ranges after the "any" entry are bounded, non-empty and each starts where the previous one ends. */
  lemma OptionsTileTheLine(options: seq<RangeOption>)
    requires options == PriceOptions || options == PowerOptions
    ensures options[0].lo.None? && options[0].hi.None?
    ensures options[1].lo.None? && options[|options| - 1].hi.None?
    ensures forall k :: 1 <= k < |options| - 1 ==> options[k].hi.Some? && options[k + 1].lo == options[k].hi
    ensures forall k :: 2 <= k < |options| - 1 ==> options[k].lo.Some? && options[k].lo.value < options[k].hi.value
  {
  }

  // ---------------------------------------------------------------------
  // From selections to criteria

  /** What the four drop-downs show: the two texts and the two selected indices (-1 when none). */
  datatype Selection = Selection(bodyTypeText: string, priceIndex: int, brandText: string, powerIndex: int)

  /** `combo.currentData()`: the selected entry's `(min, max)`, or `None` when nothing is selected. */
  function CurrentData(options: seq<RangeOption>, index: int): (data: Option<(Option<int>, Option<int>)>)
    ensures data.Some? <==> 0 <= index < |options|
    ensures data.Some? ==> data.value.0 == LowerOf(options, index) && data.value.1 == UpperOf(options, index)
  {
    if 0 <= index < |options| then Some((options[index].lo, options[index].hi)) else None
  }

  /** The text is a real choice: non-empty and not the "any" entry. */
  predicate Chosen(text: string, any: string) {
    text != "" && text != any
  }

  /** The lower and upper bound of the selected entry; none when nothing is selected. */
  function LowerOf(options: seq<RangeOption>, index: int): Option<int> {
    if 0 <= index < |options| then options[index].lo else None
  }

  function UpperOf(options: seq<RangeOption>, index: int): Option<int> {
    if 0 <= index < |options| then options[index].hi else None
  }

  /**
   * The criteria mapping the selections produce: a key per real text
   * choice, and a bound key exactly where the selected range has a bound.
   */
  function SelectionCriteria(sel: Selection): (c: Criteria)
    ensures c.bodyType.Some? <==> Chosen(sel.bodyTypeText, AnyBodyType)
    ensures c.bodyType.Some? ==> c.bodyType.value == sel.bodyTypeText
    ensures c.brand.Some? <==> Chosen(sel.brandText, AnyBrand)
    ensures c.brand.Some? ==> c.brand.value == sel.brandText
    ensures c.minPrice == LowerOf(PriceOptions, sel.priceIndex)
    ensures c.maxPrice == UpperOf(PriceOptions, sel.priceIndex)
    ensures c.minPower == LowerOf(PowerOptions, sel.powerIndex)
    ensures c.maxPower == UpperOf(PowerOptions, sel.powerIndex)
  {
    var price := CurrentData(PriceOptions, sel.priceIndex);
    var power := CurrentData(PowerOptions, sel.powerIndex);
    Criteria(
      brand := if Chosen(sel.brandText, AnyBrand) then Some(sel.brandText) else None,
      bodyType := if Chosen(sel.bodyTypeText, AnyBodyType) then Some(sel.bodyTypeText) else None,
      minPrice := if price.Some? then price.value.0 else None,
      maxPrice := if price.Some? then price.value.1 else None,
      minPower := if power.Some? then power.value.0 else None,
      maxPower := if power.Some? then power.value.1 else None)
  }

  /** The "any" entries of all four drop-downs produce the empty mapping. */
  lemma AnySelectionHasNoCriteria(sel: Selection)
    requires sel.bodyTypeText == AnyBodyType && sel.brandText == AnyBrand
    requires sel.priceIndex == 0 && sel.powerIndex == 0
    ensures SelectionCriteria(sel) == NoCriteria
  {
  }

  /** With every drop-down on "any", every car is shown. */
  lemma AnySelectionKeepsAllCars(sel: Selection, allCars: seq<CarDict>)
    requires sel.bodyTypeText == AnyBodyType && sel.brandText == AnyBrand
    requires sel.priceIndex == 0 && sel.powerIndex == 0
    ensures Evaluate(allCars, SelectionCriteria(sel)) == allCars
  {
    AnySelectionHasNoCriteria(sel);
    EvaluateWithoutCriteria(allCars, SelectionCriteria(sel));
  }

  /** The handler's step-by-step building of the `criteria` dict. */
  method BuildCriteria(sel: Selection) returns (criteria: Criteria)
    ensures criteria == SelectionCriteria(sel)
  {
    criteria := NoCriteria;
    var bodyType := sel.bodyTypeText;
    if bodyType != "" && bodyType != AnyBodyType {
      criteria := criteria.(bodyType := Some(bodyType));
    }
    var priceData := CurrentData(PriceOptions, sel.priceIndex);
    if priceData.Some? && (priceData.value.0.Some? || priceData.value.1.Some?) {
      if priceData.value.0.Some? {
        criteria := criteria.(minPrice := priceData.value.0);
      }
      if priceData.value.1.Some? {
        criteria := criteria.(maxPrice := priceData.value.1);
      }
    }
    var brand := sel.brandText;
    if brand != "" && brand != AnyBrand {
      criteria := criteria.(brand := Some(brand));
    }
    var powerData := CurrentData(PowerOptions, sel.powerIndex);
    if powerData.Some? && (powerData.value.0.Some? || powerData.value.1.Some?) {
      if powerData.value.0.Some? {
        criteria := criteria.(minPower := powerData.value.0);
      }
      if powerData.value.1.Some? {
        criteria := criteria.(maxPower := powerData.value.1);
      }
    }
  }

  // ---------------------------------------------------------------------
  // The search

  /** All cars through the decision tree, then sorted by price and projected. */
  function Recommendations(sel: Selection, allCars: seq<CarDict>): (r: Outcome)
    ensures allCars == [] ==> r == Ok([])
    ensures r.Ok? ==> |r.views| <= |allCars|
    ensures AllHaveViewKeys(allCars) ==> r.Ok?
  {
    FilterMembership(allCars, MatchesFn(SelectionCriteria(sel)));
    SortedViews(Evaluate(allCars, SelectionCriteria(sel)))
  }

  /** A view agrees with every real choice in the selection. */
  predicate ViewFitsSelection(sel: Selection, v: View) {
    (Chosen(sel.bodyTypeText, AnyBodyType) ==> v.bodyType == Strip(sel.bodyTypeText))
    && (Chosen(sel.brandText, AnyBrand) ==> v.brand == Strip(sel.brandText))
    && InRange(v.price, LowerOf(PriceOptions, sel.priceIndex), UpperOf(PriceOptions, sel.priceIndex))
    && InRange(v.power, LowerOf(PowerOptions, sel.powerIndex), UpperOf(PowerOptions, sel.powerIndex))
  }

  /** Every shown car fits the selection, and the list is in non-decreasing price order. */
  lemma RecommendationsFitSelection(sel: Selection, allCars: seq<CarDict>)
    requires Recommendations(sel, allCars).Ok?
    ensures forall v | v in Recommendations(sel, allCars).views :: ViewFitsSelection(sel, v)
    ensures var vs := Recommendations(sel, allCars).views;
      forall i, j :: 0 <= i < j < |vs| ==> vs[i].price <= vs[j].price
  {
    var criteria := SelectionCriteria(sel);
    var filtered := Evaluate(allCars, criteria);
    SortedViewsAreSorted(filtered);
    forall v | v in Recommendations(sel, allCars).views ensures ViewFitsSelection(sel, v) {
      var c := ViewComesFromCar(filtered, v);
      EvaluateMembership(allCars, criteria, c);
      MatchedViewFits(sel, c);
    }
  }

  /** A car the tree keeps for a selection has a view that fits the selection. */
  lemma MatchedViewFits(sel: Selection, c: CarDict)
    requires HasViewKeys(c) && Matches(SelectionCriteria(sel), c)
    ensures ViewFitsSelection(sel, ViewOf(c))
  {
  }

  /** The window's state that a search changes. */
  class CarSelectionApp {
    var currentResults: seq<View>

    constructor ()
      ensures currentResults == []
    {
      currentResults := [];
    }

    /**
     * `get_recommendations`: without a store and tree, or when a car lacks
     * a key, nothing changes; otherwise the results replace the current ones.
     */
    method GetRecommendations(ready: bool, sel: Selection, allCars: seq<CarDict>)
      modifies this
      ensures !ready || Recommendations(sel, allCars).KeyError? ==> currentResults == old(currentResults)
      ensures ready && Recommendations(sel, allCars).Ok? ==> currentResults == Recommendations(sel, allCars).views
      ensures ready && allCars == [] ==> currentResults == []
    {
      if !ready {
        return;
      }
      var criteria := BuildCriteria(sel);
      var filtered := Evaluate(allCars, criteria);
      var results := SortedViews(filtered);
      if results.KeyError? {
        return;
      }
      currentResults := results.views;
      if results.views == [] {
        currentResults := [];
      }
    }
  }

  // ---------------------------------------------------------------------
  // Price formatting: f"{price:,}".replace(",", " ")

  predicate IsDigit(ch: char) {
    '0' <= ch <= '9'
  }

  predicate AllDigits(s: string) {
    forall i :: 0 <= i < |s| ==> IsDigit(s[i])
  }

  function DigitChar(d: int): (ch: char)
    requires 0 <= d < 10
    ensures IsDigit(ch)
  {
    (d + '0' as int) as char
  }

  /** The decimal digits of `n`, without leading zeros. */
  function Decimal(n: nat): (s: string)
    ensures |s| >= 1 && AllDigits(s)
    ensures |s| > 1 ==> s[0] != '0'
  {
    if n < 10 then [DigitChar(n)] else Decimal(n / 10) + [DigitChar(n % 10)]
  }

  /** The number a digit string denotes. */
  function DigitsValue(s: string): nat
    requires AllDigits(s)
  {
    if s == [] then 0 else DigitsValue(s[..|s| - 1]) * 10 + (s[|s| - 1] as int - '0' as int)
  }

  /** Reading the digits back gives the number. */
  lemma {:induction false} DecimalRoundTrip(n: nat)
    ensures DigitsValue(Decimal(n)) == n
  {
    if n >= 10 {
      DecimalRoundTrip(n / 10);
      var s := Decimal(n);
      assert s[..|s| - 1] == Decimal(n / 10);
    }
  }

  /** `format(n, ",")` on the digits: a comma before each group of three from the right. */
  function GroupThousands(ds: string): (g: string)
    requires |ds| >= 1
    ensures |g| == |ds| + (|ds| - 1) / 3
    ensures g[0] == ds[0]
  {
    if |ds| <= 3 then ds else GroupThousands(ds[..|ds| - 3]) + "," + ds[|ds| - 3..]
  }

  /** `str.replace` of one character by another. */
  function ReplaceChar(s: string, oldCh: char, newCh: char): (r: string)
    ensures |r| == |s|
    ensures forall i :: 0 <= i < |s| && s[i] != oldCh ==> r[i] == s[i]
    ensures forall i :: 0 <= i < |s| && s[i] == oldCh ==> r[i] == newCh
    ensures oldCh != newCh ==> oldCh !in r
  {
    Map(s, (ch: char) => if ch == oldCh then newCh else ch)
  }

  /** `f"{n:,}"`: a sign, then the grouped digits of the magnitude. */
  function Thousands(n: int): (t: string)
    ensures |t| >= 1 && (t[0] == '-' <==> n < 0)
  {
    (if n < 0 then "-" else "") + GroupThousands(Decimal(if n < 0 then -n else n))
  }

  /** The price cell's text: `f"{price:,}".replace(",", " ")`. */
  function FormatPrice(price: int): (text: string)
    ensures |text| >= 1 && (text[0] == '-' <==> price < 0)
    ensures ',' !in text
  {
    ReplaceChar(Thousands(price), ',', ' ')
  }

  /** Commas exactly every fourth character from the right, digits everywhere else. */
  predicate CommaLayout(s: string) {
    |s| % 4 != 0
    && forall i :: 0 <= i < |s| ==> (s[i] == ',' <==> (|s| - i) % 4 == 0) && (s[i] != ',' ==> IsDigit(s[i]))
  }

  /** The grouped digits have their commas exactly every fourth character from the right. */
  lemma {:induction false} GroupedLayout(ds: string)
    requires |ds| >= 1 && AllDigits(ds)
    ensures CommaLayout(GroupThousands(ds))
  {
    if |ds| > 3 {
      GroupedLayout(ds[..|ds| - 3]);
      LayoutStep(GroupThousands(ds[..|ds| - 3]), ds[|ds| - 3..]);
    }
  }

  /** One more group of three digits after a comma keeps the layout. */
  lemma LayoutStep(g: string, last: string)
    requires CommaLayout(g) && |last| == 3 && AllDigits(last)
    ensures CommaLayout(g + "," + last)
  {
    var s := g + "," + last;
    forall i | 0 <= i < |s|
      ensures (s[i] == ',' <==> (|s| - i) % 4 == 0) && (s[i] != ',' ==> IsDigit(s[i]))
    {
      if i < |g| {
        assert s[i] == g[i];
        assert (|g| - i + 4) % 4 == (|g| - i) % 4;
      } else if i > |g| {
        assert s[i] == last[i - |g| - 1];
      }
    }
  }

  /** Deleting the commas from the grouped digits gives the digits. */
  lemma {:induction false} GroupedDigits(ds: string)
    requires |ds| >= 1 && AllDigits(ds)
    ensures Filter(GroupThousands(ds), NotCommaOrSpace) == ds
  {
    if |ds| <= 3 {
      DigitsPass(ds);
    } else {
      var pre := ds[..|ds| - 3];
      var last := ds[|ds| - 3..];
      var g := GroupThousands(pre);
      assert GroupThousands(ds) == (g + ",") + last;
      GroupedDigits(pre);
      FilterAppend(g + ",", last, NotCommaOrSpace);
      FilterAppend(g, ",", NotCommaOrSpace);
      assert Filter(",", NotCommaOrSpace) == [];
      DigitsPass(last);
      assert pre + last == ds;
    }
  }

  /** Digits pass the comma-and-space filter untouched. */
  lemma DigitsPass(s: string)
    requires AllDigits(s)
    ensures Filter(s, NotCommaOrSpace) == s
  {
    FilterAll(s, NotCommaOrSpace);
  }

  function NotCommaOrSpace(ch: char): bool {
    !(ch == ',' || ch == ' ')
  }

  function NotSpace(ch: char): bool {
    ch != ' '
  }

  /** The price text without its spaces is the sign and the decimal digits of the price. */
  lemma FormatPriceDigits(price: int)
    ensures var magnitude := if price < 0 then -price else price;
      Filter(FormatPrice(price), NotSpace) == (if price < 0 then "-" else "") + Decimal(magnitude)
  {
    var magnitude := if price < 0 then -price else price;
    var sign: string := if price < 0 then "-" else "";
    var ds := Decimal(magnitude);
    var replace := (ch: char) => if ch == ',' then ' ' else ch;
    forall ch: char ensures NotCommaOrSpace(ch) == NotSpace(replace(ch)) { }
    MapFilter(Thousands(price), replace, NotCommaOrSpace, NotSpace);
    FilterAppend(sign, GroupThousands(ds), NotCommaOrSpace);
    GroupedDigits(ds);
    FilterAll(sign, NotCommaOrSpace);
    var kept := Filter(Thousands(price), NotCommaOrSpace);
    assert kept == sign + ds;
    assert Map(kept, replace) == kept;
  }

  /** After the sign, spaces sit exactly every fourth character from the right and nowhere else. */
  lemma FormatPriceGrouping(price: int)
    ensures var s := FormatPrice(price);
      var digits := if price < 0 then s[1..] else s;
      (price < 0 ==> s[0] == '-')
      && |digits| % 4 != 0
      && forall i :: 0 <= i < |digits| ==> (digits[i] == ' ' <==> (|digits| - i) % 4 == 0)
  {
    var g := GroupThousands(Decimal(if price < 0 then -price else price));
    GroupedLayout(Decimal(if price < 0 then -price else price));
    FormatPriceSplits(price);
    SpacedLayout(g);
    var s := FormatPrice(price);
    if price < 0 {
      assert s[1..] == ReplaceChar(g, ',', ' ');
    }
  }

  /** The price text is the sign followed by the grouped digits with commas turned into spaces. */
  lemma FormatPriceSplits(price: int)
    ensures var g := GroupThousands(Decimal(if price < 0 then -price else price));
      FormatPrice(price) == (if price < 0 then "-" else "") + ReplaceChar(g, ',', ' ')
  {
    var g := GroupThousands(Decimal(if price < 0 then -price else price));
    if price < 0 {
      var t := Thousands(price);
      assert t == ['-'] + g;
      assert t[0] == '-' && t[1..] == g;
    } else {
      assert Thousands(price) == g;
    }
  }

  /** Turning the commas of grouped digits into spaces keeps their positions. */
  lemma SpacedLayout(g: string)
    requires CommaLayout(g)
    ensures var r := ReplaceChar(g, ',', ' ');
      forall i :: 0 <= i < |r| ==> (r[i] == ' ' <==> (|r| - i) % 4 == 0)
  {
    var r := ReplaceChar(g, ',', ' ');
    forall i | 0 <= i < |r| ensures r[i] == ' ' <==> (|r| - i) % 4 == 0 {
      assert r[i] == if g[i] == ',' then ' ' else g[i];
    }
  }

  // ---------------------------------------------------------------------
  // The store's filter next to the tree's

  /**
   * The store's query and the tree agree on stored rows when no bound is 0
   * and every requested text is already stripped.
   */
  lemma StoreAgreesWithTree(table: seq<Car>, criteria: Criteria)
    requires criteria.minPrice != Some(0) && criteria.maxPrice != Some(0)
    requires criteria.minPower != Some(0) && criteria.maxPower != Some(0)
    requires TruthyText(criteria.brand) ==> Strip(criteria.brand.value) == criteria.brand.value
    requires TruthyText(criteria.bodyType) ==> Strip(criteria.bodyType.value) == criteria.bodyType.value
    ensures ToDicts(CarDatabase.QueryRows(table, criteria)) == Evaluate(ToDicts(table), criteria)
  {
    forall c: Car ensures CarDatabase.StoreMatchesFn(criteria)(c) == MatchesFn(criteria)(ToDict(c)) {
      RowAgrees(criteria, c);
    }
    MapFilter(table, ToDict, CarDatabase.StoreMatchesFn(criteria), MatchesFn(criteria));
  }

  lemma RowAgrees(criteria: Criteria, c: Car)
    requires criteria.minPrice != Some(0) && criteria.maxPrice != Some(0)
    requires criteria.minPower != Some(0) && criteria.maxPower != Some(0)
    requires TruthyText(criteria.brand) ==> Strip(criteria.brand.value) == criteria.brand.value
    requires TruthyText(criteria.bodyType) ==> Strip(criteria.bodyType.value) == criteria.bodyType.value
    ensures CarDatabase.StoreMatches(criteria, c) == Matches(criteria, ToDict(c))
  {
  }

  /** A bound of 0: the tree applies it, the store ignores it. */
  lemma ZeroBoundDiverges()
    ensures var row := Car(1, "Lada", "Granta", "Седан", 700_000, 90, None);
      var criteria := NoCriteria.(maxPrice := Some(0));
      CarDatabase.QueryRows([row], criteria) == [row]
      && Evaluate(ToDicts([row]), criteria) == []
  {
    var row := Car(1, "Lada", "Granta", "Седан", 700_000, 90, None);
    var criteria := NoCriteria.(maxPrice := Some(0));
    assert CarDatabase.StoreMatches(criteria, row);
    assert !Matches(criteria, ToDict(row));
  }
}
