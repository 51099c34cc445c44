/**
 Carbon weighting (`AiService.estimateCarbonFootprint`,
 `generateMockCarbonEstimates`).
 */
module Carbon {
  import opened Wrappers
  import opened Text
  import opened Table
  import opened Decimal
  import opened Gateway
  import opened Dto

  /** Kilograms of CO2-equivalent per ingredient, in declaration order. */
  const CarbonFactors: seq<(string, real)> := [
    ("rice", 1.1), ("chicken", 2.5), ("beef", 4.0), ("pork", 2.8), ("fish", 1.8),
    ("eggs", 0.8), ("milk", 0.6), ("cheese", 1.8), ("bread", 0.7), ("pasta", 0.8),
    ("tomatoes", 0.3), ("lettuce", 0.2), ("onions", 0.2), ("potatoes", 0.3), ("carrots", 0.2),
    ("spinach", 0.2), ("olive oil", 0.4), ("vegetable oil", 0.3), ("butter", 0.9), ("sugar", 0.3),
    ("flour", 0.4), ("spices", 0.1), ("herbs", 0.1), ("coconut milk", 0.5), ("vegetables", 0.3),
    ("protein", 2.0), ("oil", 0.4)
  ]

  /** The weight of an ingredient that matches no key. */
  const DefaultFactor: real := 0.5

  /** Bidirectional containment between the lower-cased ingredient and a key. */
  predicate Related(ingredientLower: string, key: string) {
    Contains(ingredientLower, key) || Contains(key, ingredientLower)
  }

  function RelatedTo(ingredientLower: string): (hit: string -> bool) {
    key => Related(ingredientLower, key)
  }

  /** Entry `k` is the first, in declaration order, related to the lower-cased ingredient. */
  ghost predicate IsFirstCarbonKey(ingredientLower: string, k: int) {
    && 0 <= k < |CarbonFactors|
    && Related(ingredientLower, CarbonFactors[k].0)
    && forall j :: 0 <= j < k ==> !Related(ingredientLower, CarbonFactors[j].0)
  }

  /** Every table weight lies in [0.1, 4.0] and is a whole number of hundredths. */
  lemma FactorsInRange()
    ensures forall k :: 0 <= k < |CarbonFactors| ==>
      0.1 <= CarbonFactors[k].1 <= 4.0 && IsCents(CarbonFactors[k].1)
  {
  }

  /**
   The weight the fallback assigns: the factor of the first key related to
   the lower-cased ingredient, or 0.5.
   */
  function FactorFor(ingredient: string): (w: real)
    ensures 0.1 <= w <= 4.0
    ensures IsCents(w)
    ensures (exists k :: IsFirstCarbonKey(Lower(ingredient), k) && w == CarbonFactors[k].1)
         || ((forall j :: 0 <= j < |CarbonFactors| ==> !Related(Lower(ingredient), CarbonFactors[j].0))
             && w == DefaultFactor)
  {
    FactorsInRange();
    var w := Lookup(CarbonFactors, RelatedTo(Lower(ingredient)), DefaultFactor);
    assert forall k ::
      IsFirstHit(CarbonFactors, RelatedTo(Lower(ingredient)), k) ==> IsFirstCarbonKey(Lower(ingredient), k);
    w
  }

  /** The weight lookup ignores letter case: a lower-cased name gets the same weight. */
  lemma FactorForIgnoresCase(ingredient: string)
    ensures FactorFor(Lower(ingredient)) == FactorFor(ingredient)
  {
    LowerIdempotent(ingredient);
  }

  /**
   `generateMockCarbonEstimates`: one entry per input, in order, named by the
   original (not lower-cased) string; the two-decimal rounding never changes
   a table weight.
   */
  function MockEstimates(ingredients: seq<string>): (r: seq<IngredientEstimate>)
    ensures |r| == |ingredients|
    ensures forall i :: 0 <= i < |r| ==> r[i].name == ingredients[i] && r[i].carbonKg == FactorFor(ingredients[i])
    ensures forall i :: 0 <= i < |r| ==> 0.1 <= r[i].carbonKg <= 4.0
  {
    var r := seq(|ingredients|, i requires 0 <= i < |ingredients| =>
      IngredientEstimate(ingredients[i], Round2(FactorFor(ingredients[i]))));
    assert forall i :: 0 <= i < |r| ==> r[i].carbonKg == FactorFor(ingredients[i]) by {
      forall i | 0 <= i < |r| ensures r[i].carbonKg == FactorFor(ingredients[i]) {
        Round2OfCents(FactorFor(ingredients[i]));
      }
    }
    r
  }

  /** The fallback treats each ingredient on its own: it distributes over concatenation. */
  lemma MockEstimatesAppend(a: seq<string>, b: seq<string>)
    ensures MockEstimates(a + b) == MockEstimates(a) + MockEstimates(b)
  {
    var l, ra, rb := MockEstimates(a + b), MockEstimates(a), MockEstimates(b);
    assert |l| == |ra + rb|;
    forall i | 0 <= i < |l| ensures l[i] == (ra + rb)[i] {
      if i < |a| {
        assert (a + b)[i] == a[i];
      } else {
        assert (a + b)[i] == b[i - |a|];
      }
    }
  }

  /** The shape check: an object with both a `name` and a `carbon_kg` property. */
  predicate WellShaped(item: JsonItem) {
    item.JsonObject? && item.name.Some? && item.carbonKg.Some?
  }

  /** The reply is text that parses to an array every element of which is well shaped. */
  predicate AiAccepted(reply: Reply, parse: string -> Parsed<JsonItem>) {
    && HasText(reply)
    && parse(reply.content).JsonArray?
    && forall item :: item in parse(reply.content).items ==> WellShaped(item)
  }

  /** A well-shaped element read as an estimate, with nothing checked or changed. */
  function AsEstimate(item: JsonItem): (e: IngredientEstimate)
    requires WellShaped(item)
  {
    IngredientEstimate(item.name.value, item.carbonKg.value)
  }

  /** A well-shaped array read as estimates, element by element. */
  function AsEstimates(items: seq<JsonItem>): (r: seq<IngredientEstimate>)
    requires forall item :: item in items ==> WellShaped(item)
    ensures |r| == |items|
    ensures forall i :: 0 <= i < |r| ==> r[i] == AsEstimate(items[i])
  {
    seq(|items|, i requires 0 <= i < |items| => assert items[i] in items; AsEstimate(items[i]))
  }

  /**
   `estimateCarbonFootprint`: an accepted AI array is returned as it is, even
   empty or of another length than the input; every other outcome gives the
   table fallback, which has one in-range weight per input.
   */
  function EstimateCarbon(ingredients: seq<string>, reply: Reply, parse: string -> Parsed<JsonItem>)
    : (r: seq<IngredientEstimate>)
    ensures AiAccepted(reply, parse) ==> r == AsEstimates(parse(reply.content).items)
    ensures !AiAccepted(reply, parse) ==> r == MockEstimates(ingredients)
    ensures !AiAccepted(reply, parse) ==> |r| == |ingredients|
    ensures !AiAccepted(reply, parse) ==>
      forall i :: 0 <= i < |r| ==> r[i].name == ingredients[i] && 0.1 <= r[i].carbonKg <= 4.0
  {
    if !HasText(reply) then MockEstimates(ingredients)
    else
      match parse(reply.content)
      case JsonArray(items) =>
        if forall item :: item in items ==> WellShaped(item) then AsEstimates(items)
        else MockEstimates(ingredients)
      case _ => MockEstimates(ingredients)
  }
}
