/** The request and response shapes exchanged with the HTTP layer (`src/dto/estimate.dto.ts`). */
module Dto {

  /** Body of a by-name request. */
  datatype DishRequest = DishRequest(dish: string)

  /** One weighted ingredient: its name and kilograms of CO2-equivalent. */
  datatype IngredientEstimate = IngredientEstimate(name: string, carbonKg: real)

  /** The report returned to the caller. */
  datatype EstimateResponse = EstimateResponse(
    dish: string,
    estimatedCarbonKg: real,
    ingredients: seq<IngredientEstimate>)
}
