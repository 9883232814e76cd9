/**
 * The "decision tree": a fixed chain of four filter nodes applied in the
 * order body type -> price -> brand -> power. Each node filters the list it
 * is given and hands the result to the next node.
 */
module DecisionTree {
  import opened Wrappers
  import opened Seqs
  import opened CarRecords

  // ---------------------------------------------------------------------
  // str.strip()

  /** The characters for which Python's `str.isspace()` holds. */
  predicate IsSpace(ch: char) {
    ('\t' <= ch <= '\r') || ('\U{1C}' <= ch <= ' ') || ch == '\U{85}' || ch == '\U{A0}'
    || ch == '\U{1680}' || ('\U{2000}' <= ch <= '\U{200A}') || ch == '\U{2028}'
    || ch == '\U{2029}' || ch == '\U{202F}' || ch == '\U{205F}' || ch == '\U{3000}'
  }

  /** `s.lstrip()`: the longest suffix of `s` not starting with whitespace. */
  function StripLeading(s: string): (r: string)
    ensures |r| <= |s| && r == s[|s| - |r|..]
    ensures forall i :: 0 <= i < |s| - |r| ==> IsSpace(s[i])
    ensures r == [] || !IsSpace(r[0])
  {
    if s != [] && IsSpace(s[0]) then StripLeading(s[1..]) else s
  }

  /** `s.rstrip()`: the longest prefix of `s` not ending with whitespace. */
  function StripTrailing(s: string): (r: string)
    ensures |r| <= |s| && r == s[..|r|]
    ensures forall i :: |r| <= i < |s| ==> IsSpace(s[i])
    ensures r == [] || !IsSpace(r[|r| - 1])
  {
    if s != [] && IsSpace(s[|s| - 1]) then StripTrailing(s[..|s| - 1]) else s
  }

  /** `s.strip()`: the middle of `s` left after removing whitespace from both ends. */
  function Strip(s: string): (r: string)
    ensures r == [] || (!IsSpace(r[0]) && !IsSpace(r[|r| - 1]))
    ensures exists i, j ::
      0 <= i <= j <= |s| && r == s[i..j] && (forall k :: 0 <= k < i || j <= k < |s| ==> IsSpace(s[k]))
  {
    var lead := StripLeading(s);
    var r := StripTrailing(lead);
    StripRemovesSpace(s, lead, r);
    r
  }

  /** Cutting a whitespace prefix and then a whitespace suffix leaves a slice with whitespace on both sides of it. */
  lemma {:induction false} StripRemovesSpace(s: string, lead: string, r: string)
    requires |lead| <= |s| && lead == s[|s| - |lead|..]
    requires forall k :: 0 <= k < |s| - |lead| ==> IsSpace(s[k])
    requires |r| <= |lead| && r == lead[..|r|]
    requires forall k :: |r| <= k < |lead| ==> IsSpace(lead[k])
    ensures var i, j := |s| - |lead|, |s| - |lead| + |r|;
      0 <= i <= j <= |s| && r == s[i..j] && (forall k :: 0 <= k < i || j <= k < |s| ==> IsSpace(s[k]))
  {
    var i, j := |s| - |lead|, |s| - |lead| + |r|;
    assert r == s[i..j];
    forall k | 0 <= k < i || j <= k < |s| ensures IsSpace(s[k]) {
      if j <= k {
        assert s[k] == lead[k - i];
      }
    }
  }

  /** A string with no surrounding whitespace is its own strip; in particular strip is idempotent. */
  lemma StripFixesTrimmed(s: string)
    requires s == [] || (!IsSpace(s[0]) && !IsSpace(s[|s| - 1]))
    ensures Strip(s) == s
  {
    assert StripLeading(s) == s;
  }

  // ---------------------------------------------------------------------
  // What each stage keeps

  /** `lo <= v <= hi`, where a missing bound does not constrain. */
  predicate InRange(v: int, lo: Option<int>, hi: Option<int>) {
    (lo.None? || v >= lo.value) && (hi.None? || v <= hi.value)
  }

  /** Keeps `c` unless a body type is asked for and `c`'s differs from its stripped form. */
  predicate BodyTypeKeeps(criteria: Criteria, c: CarDict) {
    !TruthyText(criteria.bodyType) || c.bodyType == Present(Strip(criteria.bodyType.value))
  }

  /** Price within the inclusive bounds; a missing `price` key reads as 0. */
  predicate PriceKeeps(criteria: Criteria, c: CarDict) {
    InRange(c.price.GetOr(0), criteria.minPrice, criteria.maxPrice)
  }

  /** Keeps `c` unless a brand is asked for and `c`'s differs from its stripped form. */
  predicate BrandKeeps(criteria: Criteria, c: CarDict) {
    !TruthyText(criteria.brand) || c.brand == Present(Strip(criteria.brand.value))
  }

  /** Power within the inclusive bounds; a missing `power` key reads as 0. */
  predicate PowerKeeps(criteria: Criteria, c: CarDict) {
    InRange(c.power.GetOr(0), criteria.minPower, criteria.maxPower)
  }

  /** The four stage conditions together. */
  predicate Matches(criteria: Criteria, c: CarDict) {
    BodyTypeKeeps(criteria, c) && PriceKeeps(criteria, c)
    && BrandKeeps(criteria, c) && PowerKeeps(criteria, c)
  }

  function MatchesFn(criteria: Criteria): CarDict -> bool {
    c => Matches(criteria, c)
  }

  datatype Stage = BodyTypeStage | PriceStage | BrandStage | PowerStage

  predicate StageKeeps(stage: Stage, criteria: Criteria, c: CarDict) {
    match stage
    case BodyTypeStage => BodyTypeKeeps(criteria, c)
    case PriceStage => PriceKeeps(criteria, c)
    case BrandStage => BrandKeeps(criteria, c)
    case PowerStage => PowerKeeps(criteria, c)
  }

  function Keeps(stage: Stage, criteria: Criteria): CarDict -> bool {
    c => StageKeeps(stage, criteria, c)
  }

  // ---------------------------------------------------------------------
  // The four filter functions

  /** Equality filter on one text key after stripping the criterion; no filter when the criterion is falsy. */
  function TextFilter(cars: seq<CarDict>, key: CarDict -> Field<string>, wanted: Option<string>): (r: seq<CarDict>)
    ensures !TruthyText(wanted) ==> r == cars
    ensures IsSubsequence(r, cars)
    ensures forall c :: c in r <==> c in cars && (!TruthyText(wanted) || key(c) == Present(Strip(wanted.value)))
  {
    if !TruthyText(wanted) then
      SubsequenceReflexive(cars);
      cars
    else
      var wantedValue := Strip(wanted.value);
      FilterMembership(cars, HasValueFn(key, wantedValue));
      FilterIsSubsequence(cars, HasValueFn(key, wantedValue));
      Filter(cars, HasValueFn(key, wantedValue))
  }

  function HasValueFn(key: CarDict -> Field<string>, wanted: string): CarDict -> bool {
    c => key(c) == Present(wanted)
  }

  function AtLeast(value: CarDict -> int, lo: int): CarDict -> bool {
    c => value(c) >= lo
  }

  function AtMost(value: CarDict -> int, hi: int): CarDict -> bool {
    c => value(c) <= hi
  }

  function WithinFn(value: CarDict -> int, lo: Option<int>, hi: Option<int>): CarDict -> bool {
    c => InRange(value(c), lo, hi)
  }

  /** Inclusive range filter: the lower bound first, then the upper, each only when not `None`. */
  function RangeFilter(cars: seq<CarDict>, value: CarDict -> int, lo: Option<int>, hi: Option<int>): (r: seq<CarDict>)
    ensures r == Filter(cars, WithinFn(value, lo, hi))
  {
    var result := cars;
    var result := if lo.Some? then Filter(result, AtLeast(value, lo.value)) else result;
    var result := if hi.Some? then Filter(result, AtMost(value, hi.value)) else result;
    RangeFilterSteps(cars, value, lo, hi);
    result
  }

  lemma RangeFilterSteps(cars: seq<CarDict>, value: CarDict -> int, lo: Option<int>, hi: Option<int>)
    ensures
      var afterLo := if lo.Some? then Filter(cars, AtLeast(value, lo.value)) else cars;
      (if hi.Some? then Filter(afterLo, AtMost(value, hi.value)) else afterLo)
        == Filter(cars, WithinFn(value, lo, hi))
  {
    var within := WithinFn(value, lo, hi);
    if lo.Some? && hi.Some? {
      FilterThenFilter(cars, AtLeast(value, lo.value), AtMost(value, hi.value), within);
    } else if lo.Some? {
      FilterCongruent(cars, AtLeast(value, lo.value), within);
    } else if hi.Some? {
      FilterCongruent(cars, AtMost(value, hi.value), within);
    } else {
      FilterAll(cars, within);
    }
  }

  function BodyTypeOf(c: CarDict): Field<string> { c.bodyType }
  function BrandOf(c: CarDict): Field<string> { c.brand }
  function PriceOrZero(c: CarDict): int { c.price.GetOr(0) }
  function PowerOrZero(c: CarDict): int { c.power.GetOr(0) }

  /** `_filter_body_type`. */
  function FilterBodyType(cars: seq<CarDict>, criteria: Criteria): (r: seq<CarDict>)
    ensures !TruthyText(criteria.bodyType) ==> r == cars
    ensures r == Filter(cars, Keeps(BodyTypeStage, criteria))
  {
    var r := TextFilter(cars, BodyTypeOf, criteria.bodyType);
    if !TruthyText(criteria.bodyType) then
      FilterAll(cars, Keeps(BodyTypeStage, criteria));
      r
    else
      FilterCongruent(cars, HasValueFn(BodyTypeOf, Strip(criteria.bodyType.value)), Keeps(BodyTypeStage, criteria));
      r
  }

  /** `_filter_price`. */
  function FilterPrice(cars: seq<CarDict>, criteria: Criteria): (r: seq<CarDict>)
    ensures r == Filter(cars, Keeps(PriceStage, criteria))
  {
    var r := RangeFilter(cars, PriceOrZero, criteria.minPrice, criteria.maxPrice);
    FilterCongruent(cars, WithinFn(PriceOrZero, criteria.minPrice, criteria.maxPrice), Keeps(PriceStage, criteria));
    r
  }

  /** `_filter_brand`. */
  function FilterBrand(cars: seq<CarDict>, criteria: Criteria): (r: seq<CarDict>)
    ensures !TruthyText(criteria.brand) ==> r == cars
    ensures r == Filter(cars, Keeps(BrandStage, criteria))
  {
    var r := TextFilter(cars, BrandOf, criteria.brand);
    if !TruthyText(criteria.brand) then
      FilterAll(cars, Keeps(BrandStage, criteria));
      r
    else
      FilterCongruent(cars, HasValueFn(BrandOf, Strip(criteria.brand.value)), Keeps(BrandStage, criteria));
      r
  }

  /** `_filter_power`. */
  function FilterPower(cars: seq<CarDict>, criteria: Criteria): (r: seq<CarDict>)
    ensures r == Filter(cars, Keeps(PowerStage, criteria))
  {
    var r := RangeFilter(cars, PowerOrZero, criteria.minPower, criteria.maxPower);
    FilterCongruent(cars, WithinFn(PowerOrZero, criteria.minPower, criteria.maxPower), Keeps(PowerStage, criteria));
    r
  }

  /** The filter function a node holds. */
  function ApplyStage(stage: Stage, cars: seq<CarDict>, criteria: Criteria): (r: seq<CarDict>)
    ensures r == Filter(cars, Keeps(stage, criteria))
  {
    match stage
    case BodyTypeStage => FilterBodyType(cars, criteria)
    case PriceStage => FilterPrice(cars, criteria)
    case BrandStage => FilterBrand(cars, criteria)
    case PowerStage => FilterPower(cars, criteria)
  }

  // ---------------------------------------------------------------------
  // The chain of nodes

  /** `FilterNode`: a display name, the filter it applies, and the node after it. */
  datatype FilterNode = FilterNode(name: string, stage: Stage, next: Option<FilterNode>)

  /** `build_car_decision_tree`: the root of body_type -> price -> brand -> power. */
  function BuildCarDecisionTree(): (root: FilterNode)
    ensures ChainNames(root) == ["body_type", "price", "brand", "power"]
  {
    var powerNode := FilterNode("power", PowerStage, None);
    var brandNode := FilterNode("brand", BrandStage, Some(powerNode));
    var priceNode := FilterNode("price", PriceStage, Some(brandNode));
    FilterNode("body_type", BodyTypeStage, Some(priceNode))
  }

  /** Every stage from `node` to the end of the chain keeps `c`. */
  predicate ChainKeeps(node: FilterNode, criteria: Criteria, c: CarDict)
    decreases node
  {
    StageKeeps(node.stage, criteria, c)
    && match node.next
       case None => true
       case Some(n) => ChainKeeps(n, criteria, c)
  }

  function ChainKeepsFn(node: FilterNode, criteria: Criteria): CarDict -> bool {
    c => ChainKeeps(node, criteria, c)
  }

  /** `FilterNode.evaluate`: filter, then hand over to the next node until there is none. */
  function NodeEvaluate(node: FilterNode, cars: seq<CarDict>, criteria: Criteria): (r: seq<CarDict>)
    ensures r == Filter(cars, ChainKeepsFn(node, criteria))
    decreases node
  {
    var filtered := ApplyStage(node.stage, cars, criteria);
    match node.next
    case None =>
      FilterCongruent(cars, Keeps(node.stage, criteria), ChainKeepsFn(node, criteria));
      filtered
    case Some(n) =>
      var r := NodeEvaluate(n, filtered, criteria);
      FilterThenFilter(cars, Keeps(node.stage, criteria), ChainKeepsFn(n, criteria), ChainKeepsFn(node, criteria));
      r
  }

  /** `CarDecisionTree.evaluate`: an empty list comes back empty, anything else goes through the chain. */
  function Evaluate(cars: seq<CarDict>, criteria: Criteria): (r: seq<CarDict>)
    ensures cars == [] ==> r == []
    ensures r == Filter(cars, MatchesFn(criteria))
  {
    if cars == [] then []
    else
      var r := NodeEvaluate(BuildCarDecisionTree(), cars, criteria);
      ChainIsConjunction(criteria);
      FilterCongruent(cars, ChainKeepsFn(BuildCarDecisionTree(), criteria), MatchesFn(criteria));
      r
  }

  /** Walking the built chain checks exactly the four stage conditions. */
  lemma ChainIsConjunction(criteria: Criteria)
    ensures forall c :: ChainKeeps(BuildCarDecisionTree(), criteria, c) == Matches(criteria, c)
  {
    var root := BuildCarDecisionTree();
    var priceNode := root.next.value;
    var brandNode := priceNode.next.value;
    var powerNode := brandNode.next.value;
    forall c ensures ChainKeeps(root, criteria, c) == Matches(criteria, c) {
      assert ChainKeeps(powerNode, criteria, c) == PowerKeeps(criteria, c);
      assert ChainKeeps(brandNode, criteria, c) == (BrandKeeps(criteria, c) && PowerKeeps(criteria, c));
    }
  }

  // ---------------------------------------------------------------------
  // Properties of the whole chain

  /** The chain is the composition power(brand(price(body_type(cars)))). */
  lemma EvaluateIsPipeline(cars: seq<CarDict>, criteria: Criteria)
    ensures Evaluate(cars, criteria)
         == FilterPower(FilterBrand(FilterPrice(FilterBodyType(cars, criteria), criteria), criteria), criteria)
  {
    var k1, k2, k3, k4 := Keeps(BodyTypeStage, criteria), Keeps(PriceStage, criteria),
                          Keeps(BrandStage, criteria), Keeps(PowerStage, criteria);
    var k12 := c => k1(c) && k2(c);
    var k123 := c => k12(c) && k3(c);
    FilterThenFilter(cars, k1, k2, k12);
    FilterThenFilter(cars, k12, k3, k123);
    FilterThenFilter(cars, k123, k4, MatchesFn(criteria));
  }

  /** A car is in the result iff it was in the input and meets every active criterion. */
  lemma EvaluateMembership(cars: seq<CarDict>, criteria: Criteria, c: CarDict)
    ensures c in Evaluate(cars, criteria) <==> c in cars && Matches(criteria, c)
  {
    FilterMembership(cars, MatchesFn(criteria));
  }

  /** The result keeps input order and is no longer than the input. */
  lemma EvaluateIsSubsequence(cars: seq<CarDict>, criteria: Criteria)
    ensures IsSubsequence(Evaluate(cars, criteria), cars)
    ensures |Evaluate(cars, criteria)| <= |cars|
  {
    FilterIsSubsequence(cars, MatchesFn(criteria));
  }

  /** Running the chain again on its own output changes nothing. */
  lemma EvaluateIdempotent(cars: seq<CarDict>, criteria: Criteria)
    ensures Evaluate(Evaluate(cars, criteria), criteria) == Evaluate(cars, criteria)
  {
    FilterIdempotent(cars, MatchesFn(criteria));
  }

  /** Criteria that set nothing (or only empty texts) return the input unchanged. */
  lemma EvaluateWithoutCriteria(cars: seq<CarDict>, criteria: Criteria)
    requires !TruthyText(criteria.bodyType) && !TruthyText(criteria.brand)
    requires criteria.minPrice.None? && criteria.maxPrice.None?
    requires criteria.minPower.None? && criteria.maxPower.None?
    ensures Evaluate(cars, criteria) == cars
  {
    FilterAll(cars, MatchesFn(criteria));
  }

  /** Any two stages commute, so the fixed order only matters for speed. */
  lemma StagesCommute(s1: Stage, s2: Stage, cars: seq<CarDict>, criteria: Criteria)
    ensures ApplyStage(s2, ApplyStage(s1, cars, criteria), criteria)
         == ApplyStage(s1, ApplyStage(s2, cars, criteria), criteria)
  {
    FilterCommutes(cars, Keeps(s1, criteria), Keeps(s2, criteria));
  }

  // ---------------------------------------------------------------------
  // get_filter_order

  function ChainNames(node: FilterNode): seq<string>
    decreases node
  {
    [node.name] + match node.next
                  case None => []
                  case Some(n) => ChainNames(n)
  }

  function NamesFrom(node: Option<FilterNode>): seq<string> {
    match node
    case None => []
    case Some(n) => ChainNames(n)
  }

  /** `get_filter_order`: walks the chain from the root collecting node names. */
  method GetFilterOrder(root: FilterNode) returns (order: seq<string>)
    ensures order == ChainNames(root)
    ensures root == BuildCarDecisionTree() ==> order == ["body_type", "price", "brand", "power"]
  {
    order := [];
    var node := Some(root);
    while node.Some?
      invariant order + NamesFrom(node) == ChainNames(root)
      decreases node
    {
      order := order + [node.value.name];
      node := node.value.next;
    }
  }
}
