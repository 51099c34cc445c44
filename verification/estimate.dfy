/**
 Report assembly (`EstimateService`): the extractor's list goes to the
 estimator, the weights are summed and the sum is rounded half-up to two
 decimals.
 */
module Estimate {
  import opened Text
  import opened Decimal
  import opened Gateway
  import opened Dto
  import opened Ingredients
  import opened Carbon

  /** A sub-call's result: a value, or the exception it threw. */
  datatype Outcome<+T> = Done(value: T) | Threw(error: string)

  /** `reduce((sum, i) => sum + i.carbon_kg, 0)`, folded from the left. */
  function Total(estimates: seq<IngredientEstimate>): (sum: real)
    decreases |estimates|
  {
    if |estimates| == 0 then 0.0
    else Total(estimates[..|estimates| - 1]) + estimates[|estimates| - 1].carbonKg
  }

  /** The total of a concatenation is the sum of the totals. */
  lemma {:induction false} TotalAppend(a: seq<IngredientEstimate>, b: seq<IngredientEstimate>)
    ensures Total(a + b) == Total(a) + Total(b)
    decreases |b|
  {
    if |b| > 0 {
      var b' := b[..|b| - 1];
      assert (a + b)[..|a + b| - 1] == a + b';
      TotalAppend(a, b');
    } else {
      assert a + b == a;
    }
  }

  /** Peeling the first weight off the fold. */
  lemma TotalOfFirst(estimates: seq<IngredientEstimate>)
    requires |estimates| > 0
    ensures Total(estimates) == estimates[0].carbonKg + Total(estimates[1..])
  {
    var head := [estimates[0]];
    assert estimates == head + estimates[1..];
    TotalAppend(head, estimates[1..]);
    assert head[..0] == [];
  }

  /** With every weight in [lo, hi], the total lies in [n * lo, n * hi]. */
  lemma {:induction false} TotalBounds(estimates: seq<IngredientEstimate>, lo: real, hi: real)
    requires forall i :: 0 <= i < |estimates| ==> lo <= estimates[i].carbonKg <= hi
    ensures |estimates| as real * lo <= Total(estimates) <= |estimates| as real * hi
    decreases |estimates|
  {
    if |estimates| > 0 {
      TotalBounds(estimates[..|estimates| - 1], lo, hi);
    }
  }

  /**
   When the weight completion is not accepted, the total of the fallback
   weights lies between 0.1 and 4.0 kg per ingredient.
   */
  lemma FallbackTotalBounds(ingredients: seq<string>, reply: Reply, parse: string -> Parsed<JsonItem>)
    requires !AiAccepted(reply, parse)
    ensures |ingredients| as real * 0.1 <= Total(EstimateCarbon(ingredients, reply, parse))
    ensures Total(EstimateCarbon(ingredients, reply, parse)) <= |ingredients| as real * 4.0
  {
    TotalBounds(EstimateCarbon(ingredients, reply, parse), 0.1, 4.0);
  }

  /**
   The report for `dishLabel` over `estimates`: the estimates unchanged and their
   total rounded half-up to hundredths.
   */
  function Assemble(dishLabel: string, estimates: seq<IngredientEstimate>): (r: EstimateResponse)
    ensures r.dish == dishLabel && r.ingredients == estimates
    ensures IsCents(r.estimatedCarbonKg)
    ensures Total(estimates) - 0.005 < r.estimatedCarbonKg <= Total(estimates) + 0.005
  {
    EstimateResponse(dishLabel, Round2(Total(estimates)), estimates)
  }

  /**
   The shared body of both service methods: extract, estimate on exactly the
   extracted list, assemble. An exception from either step is rethrown as it
   is; there is no fallback of its own.
   */
  function Compose(dishLabel: string, extracted: Outcome<seq<string>>,
                   estimate: seq<string> -> Outcome<seq<IngredientEstimate>>): (r: Outcome<EstimateResponse>)
    ensures extracted.Threw? ==> r == Threw(extracted.error)
    ensures extracted.Done? && estimate(extracted.value).Threw? ==> r == Threw(estimate(extracted.value).error)
    ensures extracted.Done? && estimate(extracted.value).Done? ==>
      r.Done? && r.value.dish == dishLabel && r.value.ingredients == estimate(extracted.value).value
    ensures r.Done? ==> IsCents(r.value.estimatedCarbonKg)
    ensures r.Done? ==>
      Total(r.value.ingredients) - 0.005 < r.value.estimatedCarbonKg <= Total(r.value.ingredients) + 0.005
  {
    match extracted
    case Threw(e) => Threw(e)
    case Done(ingredients) =>
      match estimate(ingredients)
      case Threw(e) => Threw(e)
      case Done(estimates) => Done(Assemble(dishLabel, estimates))
  }

  /**
   `estimateFromDishName`: the dish name is copied, the estimator sees the
   extractor's list, and the report's total is the rounded sum of the weights
   it lists. The caller guarantees a non-blank dish name.
   */
  function EstimateFromDishName(request: DishRequest,
                                dishReply: Reply, dishParse: string -> Parsed<string>,
                                weightReply: Reply, weightParse: string -> Parsed<JsonItem>)
    : (r: Outcome<EstimateResponse>)
    requires !IsBlank(request.dish)
    ensures r.Done?
    ensures r.value.dish == request.dish
    ensures r.value.ingredients
         == EstimateCarbon(ExtractFromDish(request.dish, dishReply, dishParse), weightReply, weightParse)
    ensures r.value.estimatedCarbonKg == Round2(Total(r.value.ingredients))
  {
    var r := Compose(request.dish, Done(ExtractFromDish(request.dish, dishReply, dishParse)),
                     ingredients => Done(EstimateCarbon(ingredients, weightReply, weightParse)));
    CentsWindowUnique(Total(r.value.ingredients), r.value.estimatedCarbonKg, Round2(Total(r.value.ingredients)));
    r
  }

  /** `estimateFromImage`: the same pipeline over the image list, labelled "Dish from Image". */
  function EstimateFromImage(image: seq<bv8>, weightReply: Reply, weightParse: string -> Parsed<JsonItem>)
    : (r: Outcome<EstimateResponse>)
    ensures r.Done?
    ensures r.value.dish == "Dish from Image"
    ensures r.value.ingredients == EstimateCarbon(ExtractFromImage(image), weightReply, weightParse)
    ensures r.value.estimatedCarbonKg == Round2(Total(r.value.ingredients))
  {
    var r := Compose("Dish from Image", Done(ExtractFromImage(image)),
                     ingredients => Done(EstimateCarbon(ingredients, weightReply, weightParse)));
    CentsWindowUnique(Total(r.value.ingredients), r.value.estimatedCarbonKg, Round2(Total(r.value.ingredients)));
    r
  }

  /**
   `getMockEstimate`: the given name with four fixed items; its total is the
   plain, unrounded sum.
   */
  function MockEstimate(dishName: string): (r: EstimateResponse)
    ensures r.dish == dishName
    ensures |r.ingredients| == 4
    ensures r.estimatedCarbonKg == Total(r.ingredients) == 4.2
  {
    var items := [
      IngredientEstimate("Rice", 1.1),
      IngredientEstimate("Chicken", 2.5),
      IngredientEstimate("Spices", 0.2),
      IngredientEstimate("Oil", 0.4)
    ];
    assert Total(items) == 4.2 by {
      assert items[..3] == items[..4][..3];
      assert Total(items[..1]) == 1.1 by { assert items[..1][..0] == []; }
      assert Total(items[..2]) == 3.6 by { assert items[..2][..1] == items[..1]; }
      assert Total(items[..3]) == 3.8 by { assert items[..3][..2] == items[..2]; }
      assert items[..4] == items;
    }
    EstimateResponse(dishName, Total(items), items)
  }
}
