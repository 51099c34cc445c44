/**
 Worked examples of the pipeline with the completion gateway down, and the
 edge cases of the lookups and of the scraper.
 */
module Scenarios {
  import opened Text
  import opened Gateway
  import opened Dto
  import opened Ingredients
  import opened Carbon
  import opened Estimate
  import opened Decimal
  import opened Wrappers

  /** No key of `CarbonFactors[lo..hi]` is related to the lower-cased name `x`. */
  ghost predicate NoKeyBetween(x: string, lo: nat, hi: nat) {
    forall j :: lo <= j < hi && j < |CarbonFactors| ==> !Related(x, CarbonFactors[j].0)
  }

  /** A weight lookup is pinned by its first related key. */
  lemma FactorAt(ingredient: string, x: string, k: nat)
    requires Lower(ingredient) == x && k < |CarbonFactors|
    requires Related(x, CarbonFactors[k].0) && NoKeyBetween(x, 0, k)
    ensures FactorFor(ingredient) == CarbonFactors[k].1
  {
  }

  /** A name and a key that each hold a character the other lacks are unrelated. */
  lemma Apart(x: string, key: string, c: char, d: char)
    requires c in key && c !in x
    requires d in x && d !in key
    ensures !Related(x, key)
  {
    MissingCharNotContained(x, key, c);
    MissingCharNotContained(key, x, d);
  }

  /** The scan passes over one more key. */
  lemma ExtendMisses(x: string, j: nat, key: string)
    requires j < |CarbonFactors| && CarbonFactors[j].0 == key && NoKeyBetween(x, 0, j)
    requires !Related(x, key)
    ensures NoKeyBetween(x, 0, j + 1)
  {
  }

  /** `c` is in `key` but not in `x`, and `d` is in `x` but not in `key`. */
  predicate Separates(x: string, key: string, w: (char, char)) {
    w.0 in key && w.0 !in x && w.1 in x && w.1 !in key
  }

  /**
   The scan passes over the keys from index `from` on, one for each pair of
   `ws`, each pair separating `x` from its key.
   */
  lemma {:induction false} SkipKeys(x: string, from: nat, ws: seq<(char, char)>)
    requires from + |ws| <= |CarbonFactors| && NoKeyBetween(x, 0, from)
    requires forall i :: 0 <= i < |ws| ==> Separates(x, CarbonFactors[from + i].0, ws[i])
    ensures NoKeyBetween(x, 0, from + |ws|)
    decreases |ws|
  {
    if |ws| > 0 {
      assert Separates(x, CarbonFactors[from].0, ws[0]);
      Apart(x, CarbonFactors[from].0, ws[0].0, ws[0].1);
      ExtendMisses(x, from, CarbonFactors[from].0);
      assert forall i :: 0 <= i < |ws| - 1 ==> ws[1..][i] == ws[i + 1];
      SkipKeys(x, from + 1, ws[1..]);
    }
  }

  lemma DishAt(dish: string, k: nat)
    requires IsFirstDishKey(Lower(dish), k)
    ensures MockIngredients(dish) == DishTable[k].1
  {
  }

  /** A dish name containing "biryani" gets the biryani list. */
  lemma DishOfChickenBiryani()
    ensures MockIngredients("Chicken Biryani") == ["rice", "chicken", "spices", "oil", "onions", "tomatoes"]
  {
    assert Lower("Chicken Biryani") == "chicken biryani" by {
      assert forall i :: 0 <= i < 15 ==> Lower("Chicken Biryani")[i] == "chicken biryani"[i];
    }
    assert IsSliceAt("chicken biryani", "biryani", 8);
    ContainsMeansSlice("chicken biryani", "biryani");
    DishAt("Chicken Biryani", 0);
  }

  /** "Pasta Salad" contains two keys; `salad` is declared before `pasta`, so it wins. */
  lemma DishOfPastaSalad()
    ensures MockIngredients("Pasta Salad") == ["lettuce", "tomatoes", "cucumber", "olive oil", "vinegar"]
  {
    assert Lower("Pasta Salad") == "pasta salad" by {
      assert forall i :: 0 <= i < 11 ==> Lower("Pasta Salad")[i] == "pasta salad"[i];
    }
    assert !Contains("pasta salad", "biryani") && !Contains("pasta salad", "pizza");
    assert IsSliceAt("pasta salad", "salad", 6);
    ContainsMeansSlice("pasta salad", "salad");
    DishAt("Pasta Salad", 2);
  }

  /** "coconut milk" meets `milk` before `coconut milk`: declaration order decides. */
  lemma FactorOfCoconutMilk()
    ensures FactorFor("coconut milk") == 0.6
  {
    assert Lower("coconut milk") == "coconut milk" by {
      assert forall i :: 0 <= i < 12 ==> Lower("coconut milk")[i] == "coconut milk"[i];
    }
    CoconutMilkMissesKeysBelow6();
    FactorAt("coconut milk", "coconut milk", 6);
  }

  /** The empty name is contained in every key, so the first key, `rice`, decides. */
  lemma FactorOfEmptyName()
    ensures FactorFor("") == 1.1
  {
    assert Lower("") == "";
    FactorAt("", "", 0);
  }

  /** The name is lower-cased before the lookup. */
  lemma FactorOfCapitalisedRice()
    ensures FactorFor("Rice") == 1.1
  {
    assert Lower("Rice") == "rice" by {
      assert forall i :: 0 <= i < 4 ==> Lower("Rice")[i] == "rice"[i];
    }
    FactorAt("Rice", "rice", 0);
  }

  lemma FactorOfRice()
    ensures FactorFor("rice") == 1.1
  {
    assert Lower("rice") == "rice" by {
      assert forall i :: 0 <= i < 4 ==> Lower("rice")[i] == "rice"[i];
    }
    FactorAt("rice", "rice", 0);
  }

  lemma FactorOfChicken()
    ensures FactorFor("chicken") == 2.5
  {
    assert Lower("chicken") == "chicken" by {
      assert forall i :: 0 <= i < 7 ==> Lower("chicken")[i] == "chicken"[i];
    }
    SkipKeys("chicken", 0, [('r', 'h')]);
    FactorAt("chicken", "chicken", 1);
  }

  lemma FactorOfSpices()
    ensures FactorFor("spices") == 0.1
  {
    assert Lower("spices") == "spices" by {
      assert forall i :: 0 <= i < 6 ==> Lower("spices")[i] == "spices"[i];
    }
    SpicesMissesKeysBelow21();
    FactorAt("spices", "spices", 21);
  }

  /** "oil" is first contained in `olive oil`. */
  lemma FactorOfOil()
    ensures FactorFor("oil") == 0.4
  {
    assert Lower("oil") == "oil" by {
      assert forall i :: 0 <= i < 3 ==> Lower("oil")[i] == "oil"[i];
    }
    OilMissesKeysBelow16();
    FactorAt("oil", "oil", 16);
  }

  lemma FactorOfOnions()
    ensures FactorFor("onions") == 0.2
  {
    assert Lower("onions") == "onions" by {
      assert forall i :: 0 <= i < 6 ==> Lower("onions")[i] == "onions"[i];
    }
    OnionsMissesKeysBelow12();
    FactorAt("onions", "onions", 12);
  }

  lemma FactorOfTomatoes()
    ensures FactorFor("tomatoes") == 0.3
  {
    assert Lower("tomatoes") == "tomatoes" by {
      assert forall i :: 0 <= i < 8 ==> Lower("tomatoes")[i] == "tomatoes"[i];
    }
    TomatoesMissesKeysBelow10();
    FactorAt("tomatoes", "tomatoes", 10);
  }

  lemma FactorOfVegetables()
    ensures FactorFor("vegetables") == 0.3
  {
    assert Lower("vegetables") == "vegetables" by {
      assert forall i :: 0 <= i < 10 ==> Lower("vegetables")[i] == "vegetables"[i];
    }
    VegetablesMissesKeysBelow24();
    FactorAt("vegetables", "vegetables", 24);
  }


  const BiryaniWeights: seq<IngredientEstimate> := [
    IngredientEstimate("rice", 1.1), IngredientEstimate("chicken", 2.5),
    IngredientEstimate("spices", 0.1), IngredientEstimate("oil", 0.4),
    IngredientEstimate("onions", 0.2), IngredientEstimate("tomatoes", 0.3)]

  const ImageWeights: seq<IngredientEstimate> := [
    IngredientEstimate("rice", 1.1), IngredientEstimate("chicken", 2.5),
    IngredientEstimate("vegetables", 0.3), IngredientEstimate("spices", 0.1),
    IngredientEstimate("oil", 0.4)]

  lemma OnionsTomatoesWeights()
    ensures MockEstimates(["onions", "tomatoes"])
         == [IngredientEstimate("onions", 0.2), IngredientEstimate("tomatoes", 0.3)]
  {
    FactorOfOnions();
    FactorOfTomatoes();
  }

  lemma RiceChickenWeights()
    ensures MockEstimates(["rice", "chicken"])
         == [IngredientEstimate("rice", 1.1), IngredientEstimate("chicken", 2.5)]
  {
    FactorOfRice();
    FactorOfChicken();
  }

  lemma VegetablesWeight()
    ensures MockEstimates(["vegetables"]) == [IngredientEstimate("vegetables", 0.3)]
  {
    FactorOfVegetables();
  }

  lemma SpicesOilWeights()
    ensures MockEstimates(["spices", "oil"]) == [IngredientEstimate("spices", 0.1), IngredientEstimate("oil", 0.4)]
  {
    FactorOfSpices();
    FactorOfOil();
  }

  /** The fallback weights of the biryani list. */
  lemma BiryaniFallbackWeights(weightParse: string -> Parsed<JsonItem>)
    ensures EstimateCarbon(["rice", "chicken", "spices", "oil", "onions", "tomatoes"], Failed, weightParse)
         == BiryaniWeights
  {
    var a := ["rice", "chicken", "spices", "oil"];
    var b := ["onions", "tomatoes"];
    assert a + b == ["rice", "chicken", "spices", "oil", "onions", "tomatoes"];
    MockEstimatesAppend(a, b);
    assert MockEstimates(a) == ListWeights by {
      GatewayDownIngredientList(weightParse);
    }
    OnionsTomatoesWeights();
    assert ListWeights + [IngredientEstimate("onions", 0.2), IngredientEstimate("tomatoes", 0.3)] == BiryaniWeights;
  }

  /** The fallback weights of the image list. */
  lemma ImageFallbackWeights(weightParse: string -> Parsed<JsonItem>)
    ensures EstimateCarbon(ImageIngredients, Failed, weightParse) == ImageWeights
  {
    var a := ["rice", "chicken"];
    var b := ["vegetables"];
    var c := ["spices", "oil"];
    assert a + b + c == ImageIngredients;
    MockEstimatesAppend(a, b);
    MockEstimatesAppend(a + b, c);
    RiceChickenWeights();
    VegetablesWeight();
    SpicesOilWeights();
  }

  const ListWeights: seq<IngredientEstimate> := [
    IngredientEstimate("rice", 1.1), IngredientEstimate("chicken", 2.5),
    IngredientEstimate("spices", 0.1), IngredientEstimate("oil", 0.4)]

  lemma ListTotal()
    ensures Round2(Total(ListWeights)) == 4.1
  {
    var es := ListWeights;
    TotalOfFirst(es);
    TotalOfFirst(es[1..]);
    TotalOfFirst(es[2..]);
    TotalOfFirst(es[3..]);
    assert es[1..][1..] == es[2..] && es[2..][1..] == es[3..] && es[3..][1..] == [];
    assert Total(es) == 4.1;
  }

  /** The example list with the gateway down: weights 1.1, 2.5, 0.1, 0.4 and total 4.1. */
  lemma GatewayDownIngredientList(weightParse: string -> Parsed<JsonItem>)
    ensures EstimateCarbon(["rice", "chicken", "spices", "oil"], Failed, weightParse) == ListWeights
    ensures Round2(Total(EstimateCarbon(["rice", "chicken", "spices", "oil"], Failed, weightParse))) == 4.1
  {
    var a := ["rice", "chicken"];
    var b := ["spices", "oil"];
    assert a + b == ["rice", "chicken", "spices", "oil"];
    MockEstimatesAppend(a, b);
    RiceChickenWeights();
    SpicesOilWeights();
    ListTotal();
  }

  lemma BiryaniTotal()
    ensures Round2(Total(BiryaniWeights)) == 4.6
  {
    var es := BiryaniWeights;
    TotalOfFirst(es);
    TotalOfFirst(es[1..]);
    TotalOfFirst(es[2..]);
    TotalOfFirst(es[3..]);
    TotalOfFirst(es[4..]);
    TotalOfFirst(es[5..]);
    assert es[1..][1..] == es[2..] && es[2..][1..] == es[3..] && es[3..][1..] == es[4..];
    assert es[4..][1..] == es[5..] && es[5..][1..] == [];
    assert Total(es) == 4.6;
  }

  lemma ImageTotal()
    ensures Round2(Total(ImageWeights)) == 4.4
  {
    var es := ImageWeights;
    TotalOfFirst(es);
    TotalOfFirst(es[1..]);
    TotalOfFirst(es[2..]);
    TotalOfFirst(es[3..]);
    TotalOfFirst(es[4..]);
    assert es[1..][1..] == es[2..] && es[2..][1..] == es[3..] && es[3..][1..] == es[4..];
    assert es[4..][1..] == [];
    assert Total(es) == 4.4;
  }

  /** With both completions down, "Chicken Biryani" is estimated from the biryani list at 4.6 kg. */
  lemma GatewayDownBiryani(dishParse: string -> Parsed<string>, weightParse: string -> Parsed<JsonItem>)
    ensures !IsBlank("Chicken Biryani")
    ensures EstimateFromDishName(DishRequest("Chicken Biryani"), Failed, dishParse, Failed, weightParse)
         == Done(EstimateResponse("Chicken Biryani", 4.6, BiryaniWeights))
  {
    assert !IsSpace("Chicken Biryani"[0]);
    BlankMeansAllSpace("Chicken Biryani");
    DishOfChickenBiryani();
    BiryaniFallbackWeights(weightParse);
    BiryaniTotal();
  }

  /** The image path, with the weight completion down, gives 4.4 kg whatever the bytes. */
  lemma GatewayDownImage(image: seq<bv8>, weightParse: string -> Parsed<JsonItem>)
    ensures EstimateFromImage(image, Failed, weightParse)
         == Done(EstimateResponse("Dish from Image", 4.4, ImageWeights))
  {
    ImageFallbackWeights(weightParse);
    ImageTotal();
  }

  /** An accepted AI array is returned even when it is empty and the input is not. */
  lemma EmptyAiArrayAccepted()
    ensures EstimateCarbon(["rice"], Text("[]"), s => JsonArray([])) == []
  {
  }

  /** A well-shaped AI array of another length than the input is also returned as it is. */
  lemma ShortAiArrayAccepted()
    ensures EstimateCarbon(["rice", "beef"], Text("..."),
                           s => JsonArray([JsonObject(Some("rice"), Some(9.99))]))
         == [IngredientEstimate("rice", 9.99)]
  {
  }

  /** One element without `carbon_kg` sends the whole array to the fallback table. */
  lemma MisshapenAiArrayFallsBack()
    ensures EstimateCarbon(["rice"], Text("..."),
                           s => JsonArray([JsonObject(Some("rice"), Some(9.99)), JsonObject(Some("x"), None)]))
         == [IngredientEstimate("rice", 1.1)]
  {
    var items := [JsonObject(Some("rice"), Some(9.99)), JsonObject(Some("x"), None)];
    assert items[1] in items && !WellShaped(items[1]);
    FactorOfRice();
  }

  /** A JSON array from the dish completion is returned verbatim, duplicates and all. */
  lemma DishArrayVerbatim(dish: string)
    ensures ExtractFromDish(dish, Text("[\"Rice\",\"rice\",\"rice\"]"), s => JsonArray(["Rice", "rice", "rice"]))
         == ["Rice", "rice", "rice"]
  {
  }

  /** The test fixture lists Spices at 0.2, where the fallback table gives 0.1. */
  lemma MockEstimateDiffersFromTable(dishName: string)
    ensures MockEstimate(dishName).ingredients[2] == IngredientEstimate("Spices", 0.2)
    ensures FactorFor("Spices") == 0.1
  {
    assert Lower("Spices") == "spices" by {
      assert forall i :: 0 <= i < 6 ==> Lower("Spices")[i] == "spices"[i];
    }
    SpicesMissesKeysBelow21();
    FactorAt("Spices", "spices", 21);
  }

  // The key scans behind the weight examples: each step passes over a few more
  // keys of the table, naming for each key a character it has that the name
  // lacks and one the name has that it lacks.

  /** None of the first 3 keys is related to "coconut milk". */
  lemma CoconutMilkMissesKeysBelow3()
    ensures NoKeyBetween("coconut milk", 0, 3)
  {
    SkipKeys("coconut milk", 0, [('r', 'o'), ('h', 'o'), ('b', 'c')]);
  }

  /** None of the 6 keys declared before `milk` is related to "coconut milk". */
  lemma CoconutMilkMissesKeysBelow6()
    ensures NoKeyBetween("coconut milk", 0, 6)
  {
    CoconutMilkMissesKeysBelow3();
    SkipKeys("coconut milk", 3, [('p', 'c'), ('f', 'c'), ('e', 'c')]);
  }

  /** None of the first 8 keys is related to "spices". */
  lemma SpicesMissesKeysBelow8()
    ensures NoKeyBetween("spices", 0, 8)
  {
    SkipKeys("spices", 0, [
      ('r', 's'), ('h', 's'), ('b', 's'), ('o', 's'), ('f', 'p'), ('g', 'p'),
      ('m', 's'), ('h', 'p')]);
  }

  /** None of the first 16 keys is related to "spices". */
  lemma SpicesMissesKeysBelow16()
    ensures NoKeyBetween("spices", 0, 16)
  {
    SpicesMissesKeysBelow8();
    SkipKeys("spices", 8, [
      ('b', 's'), ('a', 'i'), ('t', 'p'), ('l', 's'), ('o', 'p'), ('o', 'i'),
      ('a', 'p'), ('n', 'e')]);
  }

  /** None of the 21 keys declared before `spices` is related to "spices". */
  lemma SpicesMissesKeysBelow21()
    ensures NoKeyBetween("spices", 0, 21)
  {
    SpicesMissesKeysBelow16();
    SkipKeys("spices", 16, [
      ('o', 's'), ('v', 's'), ('b', 's'), ('u', 'p'), ('f', 's')]);
  }

  /** None of the first 8 keys is related to "oil". */
  lemma OilMissesKeysBelow8()
    ensures NoKeyBetween("oil", 0, 8)
  {
    SkipKeys("oil", 0, [
      ('r', 'o'), ('c', 'o'), ('b', 'o'), ('p', 'i'), ('f', 'o'), ('e', 'o'),
      ('m', 'o'), ('c', 'o')]);
  }

  /** None of the 16 keys declared before `olive oil` is related to "oil". */
  lemma OilMissesKeysBelow16()
    ensures NoKeyBetween("oil", 0, 16)
  {
    OilMissesKeysBelow8();
    SkipKeys("oil", 8, [
      ('b', 'o'), ('p', 'o'), ('t', 'i'), ('e', 'o'), ('n', 'l'), ('p', 'i'),
      ('c', 'i'), ('s', 'o')]);
  }

  /** None of the first 6 keys is related to "onions". */
  lemma OnionsMissesKeysBelow6()
    ensures NoKeyBetween("onions", 0, 6)
  {
    SkipKeys("onions", 0, [
      ('r', 'o'), ('c', 'o'), ('b', 'o'), ('p', 'n'), ('f', 'o'), ('e', 'o')]);
  }

  /** None of the 12 keys declared before `onions` is related to "onions". */
  lemma OnionsMissesKeysBelow12()
    ensures NoKeyBetween("onions", 0, 12)
  {
    OnionsMissesKeysBelow6();
    SkipKeys("onions", 6, [
      ('m', 'o'), ('c', 'o'), ('b', 'o'), ('p', 'o'), ('t', 'n'), ('l', 'o')]);
  }

  /** None of the first 5 keys is related to "tomatoes". */
  lemma TomatoesMissesKeysBelow5()
    ensures NoKeyBetween("tomatoes", 0, 5)
  {
    SkipKeys("tomatoes", 0, [
      ('r', 't'), ('c', 't'), ('b', 't'), ('p', 't'), ('f', 't')]);
  }

  /** None of the 10 keys declared before `tomatoes` is related to "tomatoes". */
  lemma TomatoesMissesKeysBelow10()
    ensures NoKeyBetween("tomatoes", 0, 10)
  {
    TomatoesMissesKeysBelow5();
    SkipKeys("tomatoes", 5, [
      ('g', 't'), ('i', 't'), ('c', 't'), ('b', 't'), ('p', 'o')]);
  }

  /** None of the first 5 keys is related to "vegetables". */
  lemma VegetablesMissesKeysBelow5()
    ensures NoKeyBetween("vegetables", 0, 5)
  {
    SkipKeys("vegetables", 0, [
      ('r', 'v'), ('c', 'v'), ('f', 'v'), ('p', 'v'), ('f', 'v')]);
  }

  /** Every character of `eggs` occurs in "vegetables", but "gg" does not. */
  lemma EggsApartFromVegetables()
    ensures !Related("vegetables", "eggs")
  {
    MissingCharNotContained("eggs", "vegetables", 'v');
    assert !Contains("vegetables", "eggs");
  }

  /** None of the first 6 keys is related to "vegetables". */
  lemma VegetablesMissesKeysBelow6()
    ensures NoKeyBetween("vegetables", 0, 6)
  {
    VegetablesMissesKeysBelow5();
    EggsApartFromVegetables();
    ExtendMisses("vegetables", 5, "eggs");
  }

  /** None of the first 13 keys is related to "vegetables". */
  lemma VegetablesMissesKeysBelow13()
    ensures NoKeyBetween("vegetables", 0, 13)
  {
    VegetablesMissesKeysBelow6();
    SkipKeys("vegetables", 6, [
      ('m', 'v'), ('c', 'v'), ('r', 'v'), ('p', 'v'), ('o', 'v'), ('u', 'v'),
      ('o', 'v')]);
  }

  /** None of the first 21 keys is related to "vegetables". */
  lemma VegetablesMissesKeysBelow21()
    ensures NoKeyBetween("vegetables", 0, 21)
  {
    VegetablesMissesKeysBelow13();
    SkipKeys("vegetables", 13, [
      ('p', 'v'), ('c', 'v'), ('p', 'v'), ('o', 'g'), (' ', 's'), ('u', 'v'),
      ('u', 'v'), ('f', 'v')]);
  }

  /** None of the 24 keys declared before `vegetables` is related to "vegetables". */
  lemma VegetablesMissesKeysBelow24()
    ensures NoKeyBetween("vegetables", 0, 24)
  {
    VegetablesMissesKeysBelow21();
    SkipKeys("vegetables", 21, [
      ('p', 'v'), ('h', 'v'), ('c', 'v')]);
  }
}
