/** Values shared by the backend services: optional values, the closed set of
    domain errors, results, partial-update fields and Python's `str.join`. */
module Common {

  datatype Option<T> = None | Some(value: T)

  /** The domain errors the services and the recipe schema raise. */
  datatype Error =
    | RecipeNotFound
    | RecipeOwnership
    | NoRecipeImage
    | NoRecipeInstructions
    | RecipeImpressionAlreadyExists
    | RecipeIngredientNotFound
    | ShoppingListItemNotFound
    | StepNumbersNotSequential
      /** the read schema refused the value the repository handed back (`None`) */
    | SchemaValidationFailed

  datatype Result<T> = Ok(value: T) | Err(error: Error)

  /** A field of a partial update: left out of the request, or sent with a value
      (pydantic's `exclude_unset` tells the two apart). */
  datatype Patch<T> = Unset | Set(value: T)

  /** Python truthiness of an optional string: present and non-empty. */
  predicate Truthy(s: Option<string>)
  {
    s.Some? && s.value != ""
  }

  /** `sep.join(parts)`. */
  function Join(parts: seq<string>, sep: string): string
  {
    if |parts| == 0 then ""
    else if |parts| == 1 then parts[0]
    else parts[0] + sep + Join(parts[1..], sep)
  }
}
