/**
 Ingredient derivation (`AiService.extractIngredientsFromDish`,
 `extractIngredientsFromImage`, `extractIngredientsFromText`,
 `getMockIngredients`).
 */
module Ingredients {
  import opened Text
  import opened Table
  import opened Gateway
  import opened Scraper

  /** The static dish table, in declaration order. */
  const DishTable: seq<(string, seq<string>)> := [
    ("biryani", ["rice", "chicken", "spices", "oil", "onions", "tomatoes"]),
    ("pizza", ["flour", "cheese", "tomato sauce", "pepperoni", "olive oil"]),
    ("salad", ["lettuce", "tomatoes", "cucumber", "olive oil", "vinegar"]),
    ("pasta", ["pasta", "tomato sauce", "cheese", "olive oil", "herbs"]),
    ("curry", ["rice", "vegetables", "coconut milk", "spices", "oil"]),
    ("default", ["rice", "vegetables", "protein", "spices", "oil"])
  ]

  /** The list used when no key matches (the `default` entry). */
  const DefaultIngredients: seq<string> := ["rice", "vegetables", "protein", "spices", "oil"]

  /** `DefaultIngredients` is the list of the table's own `default` entry. */
  lemma DefaultIsTableEntry()
    ensures DishTable[5] == ("default", DefaultIngredients)
  {
  }

  /** The fixed list the image path produces. */
  const ImageIngredients: seq<string> := ["rice", "chicken", "vegetables", "spices", "oil"]

  /** Table key `key` occurs in the lower-cased dish name. */
  function Mentions(dishLower: string): (hit: string -> bool) {
    key => Contains(dishLower, key)
  }

  /** Entry `k` is the first, in declaration order, whose key the lower-cased name contains. */
  ghost predicate IsFirstDishKey(dishLower: string, k: int) {
    && 0 <= k < |DishTable|
    && Contains(dishLower, DishTable[k].0)
    && forall j :: 0 <= j < k ==> !Contains(dishLower, DishTable[j].0)
  }

  /**
   `getMockIngredients`: the list of the first key the lower-cased dish name
   contains, or the default list; never empty.
   */
  function MockIngredients(dish: string): (r: seq<string>)
    ensures |r| > 0
    ensures (exists k :: IsFirstDishKey(Lower(dish), k) && r == DishTable[k].1)
         || ((forall j :: 0 <= j < |DishTable| ==> !Contains(Lower(dish), DishTable[j].0))
             && r == DefaultIngredients)
  {
    var r := Lookup(DishTable, Mentions(Lower(dish)), DefaultIngredients);
    assert forall k :: IsFirstHit(DishTable, Mentions(Lower(dish)), k) ==> IsFirstDishKey(Lower(dish), k);
    r
  }

  /** The dish lookup ignores letter case: a lower-cased name gets the same list. */
  lemma MockIngredientsIgnoresCase(dish: string)
    ensures MockIngredients(Lower(dish)) == MockIngredients(dish)
  {
    LowerIdempotent(dish);
  }

  /**
   `extractIngredientsFromText`: the first pattern with at least one raw
   match decides, even when the clean-up then leaves nothing; with no match
   at all, the table result for "Unknown Dish".
   */
  function ExtractFromText(text: string): (r: seq<string>)
    ensures HasMatch(Quoted, text) ==> r == Clean(Matches(Quoted, text))
    ensures !HasMatch(Quoted, text) && HasMatch(Bracketed, text) ==> r == Clean(Matches(Bracketed, text))
    ensures !HasMatch(Quoted, text) && !HasMatch(Bracketed, text) && HasMatch(WordRun, text)
            ==> r == Clean(Matches(WordRun, text))
    ensures !HasMatch(Quoted, text) && !HasMatch(Bracketed, text) && !HasMatch(WordRun, text)
            ==> r == DefaultIngredients
  {
    var quoted := Matches(Quoted, text);
    if |quoted| > 0 then Clean(quoted)
    else
      var bracketed := Matches(Bracketed, text);
      if |bracketed| > 0 then Clean(bracketed)
      else
        var words := Matches(WordRun, text);
        if |words| > 0 then Clean(words)
        else
          UnknownDishIsDefault();
          MockIngredients("Unknown Dish")
  }

  lemma UnknownDishMissesFirstKeys()
    ensures !Contains("unknown dish", "biryani") && !Contains("unknown dish", "pizza")
    ensures !Contains("unknown dish", "salad")
  {
  }

  lemma UnknownDishMissesLastKeys()
    ensures !Contains("unknown dish", "pasta") && !Contains("unknown dish", "curry")
    ensures !Contains("unknown dish", "default")
  {
  }

  /** The sentinel "Unknown Dish" mentions no key, so it gets the default list. */
  lemma UnknownDishIsDefault()
    ensures MockIngredients("Unknown Dish") == DefaultIngredients
  {
    assert Lower("Unknown Dish") == "unknown dish" by {
      assert forall i :: 0 <= i < 12 ==> Lower("Unknown Dish")[i] == "unknown dish"[i];
    }
    UnknownDishMissesFirstKeys();
    UnknownDishMissesLastKeys();
  }

  /** Every item the scraper returns is clean: trimmed, non-empty, markup-free, without "Example". */
  lemma ExtractFromTextItemsClean(text: string)
    ensures forall x :: x in ExtractFromText(text) ==> IsCleanItem(x)
  {
    assert forall x :: x in DefaultIngredients ==> IsCleanItem(x);
  }

  /**
   `extractIngredientsFromDish`: a failed or empty reply gives the dish-table
   list; a reply that parses to an array is returned as it is; any other
   text goes through the scraper.
   */
  function ExtractFromDish(dish: string, reply: Reply, parse: string -> Parsed<string>): (r: seq<string>)
    ensures !HasText(reply) ==> r == MockIngredients(dish) && |r| > 0
    ensures HasText(reply) && parse(reply.content).JsonArray? ==> r == parse(reply.content).items
    ensures HasText(reply) && !parse(reply.content).JsonArray? ==> r == ExtractFromText(reply.content)
  {
    if !HasText(reply) then MockIngredients(dish)
    else
      match parse(reply.content)
      case JsonArray(items) => items
      case _ => ExtractFromText(reply.content)
  }

  /** A lower-case word, or words separated by single inner spaces, is a clean scraper item. */
  lemma WordClean(x: string)
    requires |x| > 0 && x[0] != ' ' && x[|x| - 1] != ' '
    requires forall k :: 0 <= k < |x| ==> 'a' <= x[k] <= 'z' || x[k] == ' '
    ensures IsCleanItem(x)
  {
    MissingCharNotContained(x, "Example", 'E');
  }

  /** Every item of `items` is clean. */
  ghost predicate AllClean(items: seq<string>) {
    forall x :: x in items ==> IsCleanItem(x)
  }

  lemma BiryaniListClean()
    ensures AllClean(DishTable[0].1)
  {
    WordClean("rice");
    WordClean("chicken");
    WordClean("spices");
    WordClean("oil");
    WordClean("onions");
    WordClean("tomatoes");
  }

  lemma PizzaListClean()
    ensures AllClean(DishTable[1].1)
  {
    WordClean("flour");
    WordClean("cheese");
    WordClean("tomato sauce");
    WordClean("pepperoni");
    WordClean("olive oil");
  }

  lemma SaladListClean()
    ensures AllClean(DishTable[2].1)
  {
    WordClean("lettuce");
    WordClean("tomatoes");
    WordClean("cucumber");
    WordClean("olive oil");
    WordClean("vinegar");
  }

  lemma PastaListClean()
    ensures AllClean(DishTable[3].1)
  {
    WordClean("pasta");
    WordClean("tomato sauce");
    WordClean("cheese");
    WordClean("olive oil");
    WordClean("herbs");
  }

  lemma CurryListClean()
    ensures AllClean(DishTable[4].1)
  {
    WordClean("rice");
    WordClean("vegetables");
    WordClean("coconut milk");
    WordClean("spices");
    WordClean("oil");
  }

  lemma DefaultListClean()
    ensures AllClean(DishTable[5].1)
  {
    WordClean("rice");
    WordClean("vegetables");
    WordClean("protein");
    WordClean("spices");
    WordClean("oil");
  }

  /** Every list of the dish table holds clean items only. */
  lemma DishListsClean()
    ensures forall k :: 0 <= k < |DishTable| ==> AllClean(DishTable[k].1)
  {
    BiryaniListClean();
    PizzaListClean();
    SaladListClean();
    PastaListClean();
    CurryListClean();
    DefaultListClean();
  }

  /**
   Off the JSON-array path every item is clean: only a verbatim array can
   carry an empty, untrimmed, quoted or bracketed item, or one with "Example".
   */
  lemma ExtractFromDishCleanOffArrayPath(dish: string, reply: Reply, parse: string -> Parsed<string>)
    requires !(HasText(reply) && parse(reply.content).JsonArray?)
    ensures forall x :: x in ExtractFromDish(dish, reply, parse) ==> IsCleanItem(x)
  {
    if HasText(reply) {
      ExtractFromTextItemsClean(reply.content);
    } else {
      DishListsClean();
      DefaultIsTableEntry();
      assert AllClean(ExtractFromDish(dish, reply, parse));
    }
  }

  /**
   `extractIngredientsFromImage`: the placeholder ignores the image. Its
   `catch` branch is unreachable, since the `try` block cannot throw.
   */
  function ExtractFromImage(image: seq<bv8>): (r: seq<string>)
    ensures |r| == 5
  {
    ImageIngredients
  }

  /** The image path does not depend on the bytes. */
  lemma ImageIgnoresBytes(a: seq<bv8>, b: seq<bv8>)
    ensures ExtractFromImage(a) == ExtractFromImage(b) == ["rice", "chicken", "vegetables", "spices", "oil"]
  {
  }
}
