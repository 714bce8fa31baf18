# Recipe platform services, modelled in Dafny

This project models the domain-service layer of a recipe-sharing backend. It also models two small validators: the recipe request schema and the client-side field rules.

- **Recipe service.** A recipe is created unpublished, with ingredients, instructions and tags. `get_by_id` hides an unpublished recipe from everyone but its author; `get_by_slug` has no visibility rule. Only the author or a superuser may update or delete a recipe, or ask for an image upload URL. An update writes the scalar fields that were sent, replaces every sent child collection wholesale, re-indexes the recipe in search and, when `is_published=True` is sent or a published recipe is unpublished, sends one call to the recommendation engine. The joined recipe is checked against the read schema before it is indexed or returned. Publishing is guarded by an image check and an instruction check.
- **Shopping-list service.** Items are stored per user and go through a unit of work. A bulk create checks all of its ingredient references at once. Updates are partial. The purchased flag can be toggled. Items are deleted singly, by id list, or all at once.
- **Impression service.** It records that a recipe was shown to a user or to an anonymous session, de-duplicated within 24 hours, and forwards the event to the recommendation engine. It merges a session's impressions into a user, and counts the distinct recipes a user was shown.
- **Recipe schema.** The instruction step-number validator and the length and count bounds of the request bodies.
- **Field rules of the input component.** The five preset rules, and the loop that sorts the failures into errors and warnings.

## How the model is built

- **Modules.**
  - `Common`: Option, Result, the closed error set, and Python truthiness.
  - `RecipeSchemas`: `backend/src/schemas/recipe.py`.
  - `RecipeRules`: the pure decision logic of `backend/src/services/recipe.py`.
  - `Recipes`: the `RecipeService` class.
  - `ShoppingList`: the `ShoppingListItemService` class.
  - `Impressions`: the `RecipeImpressionService` class.
  - `ValidationRules`: `frontend/src/components/ui/ValidatedInput.jsx`.
- **Repositories become fields of each service class.**
  - The recipe tables form one `Store` value: recipes by id, and the three child tables as sequences of rows tagged with their recipe id.
  - Shopping items are a map by id.
  - Impressions are a sequence in insertion order.
- **In the recipe and shopping-list services, every write, commit, index call and recommendation call is appended, in order, to one log field.** The contracts fix that log exactly. The impression service keeps its impressions and its recommendation calls in two separate fields, so the relative order of its writes and its forwarded calls is not stated. This is how the model states:
  - the order of operations;
  - that nothing is written before a guard fails;
  - which calls are never made.
- **The stateful operations are methods** whose `ensures` tie the new state and the log to pure functions of the old state: `CreatedStore`, `UpdatedStore`, `DeletedStore`, `StoredBulk`, `ScopedWrite`, `Reassigned` and so on. Lemmas about those functions state what the service promises:
  - the joined view of the changed recipe;
  - that other recipes are unchanged;
  - the cascade on delete;
  - the round trips.
- **The loops of the source stay loops:**
  - the row building of `_create_*`;
  - the URL loop of `_to_recipe_schema`;
  - the id collection of `bulk_create`;
  - the aggregation loop of `validateAsync`.

### Where the code falls short of its own intent

- **The publish invariant.** The update refuses to publish a recipe without an image (`backend/src/services/recipe.py:249`) or without instructions (`backend/src/services/recipe.py:253`), so a published recipe is meant to have an image and at least one instruction. The guard as written (`backend/src/services/recipe.py:245-254`) does not keep that invariant after every successful update. The model follows the code:
  - `Recipes.RecipeService.Update` uses the guard as written (`RecipeRules.PublishCheck`).
  - Three lemmas exhibit updates that pass that guard and leave a published recipe without an image or without instructions.
  - `RecipeRules.PublishCheckIntended` is the guard the invariant calls for. It is proved to pass exactly the updates after which the invariant holds.
- **`get_by_slug`.** It receives the viewer's `user_id` like `get_by_id`, which hides an unpublished recipe from everyone but its author (`backend/src/services/recipe.py:91-93`). `get_by_slug` checks only that the recipe exists (`backend/src/services/recipe.py:312-318`), so `GetBySlug` applies no visibility rule.

## Model

| member | source | states |
|---|---|---|
| RecipeSchemas.ValidateInstructionsSteps | backend/src/schemas/recipe.py:51-60 | an accepted list is returned unchanged; the only failure is the step-number error, and only for a present list |
| RecipeSchemas.ValidateInstructionsStepsIff | backend/src/schemas/recipe.py:51-58 | the validator accepts exactly a missing list and the lists whose i-th step number is i+1 (the empty list included) |
| RecipeSchemas.StepBoundImpliesCountBound | backend/src/schemas/recipe.py:120-122 | a list numbered 1..n whose step numbers are each in 1..25 has at most 25 entries |
| RecipeSchemas.ValidCreateNumbersInstructions | backend/src/schemas/recipe.py:117-123 | a create body within all its bounds has its instructions, when present, numbered by position |
| RecipeSchemas.CreateBodyIsValidUpdate | backend/src/schemas/recipe.py:126-133 | every create body within its bounds, sent as an update of every field, is a valid update body |
| RecipeSchemas.EmptyUpdateIsValid | backend/src/schemas/recipe.py:126-133 | every update field is optional: the body that sends nothing is valid |
| RecipeRules.RecipeDataKeys | backend/src/services/recipe.py:237 | the scalar update dictionary holds a key exactly for each field that was sent, with the sent value; it never holds `slug`; it is empty iff no scalar field was sent |
| RecipeRules.PartialUpdateFields | backend/src/services/recipe.py:256-259 | a sent field takes its sent value, an unsent one keeps its value; the slug is recomputed iff the title is sent; id and author never change |
| RecipeRules.EmptyUpdateChangesNothing | backend/src/services/recipe.py:256-271 | an update that sends nothing leaves the joined recipe as it was |
| RecipeRules.ChildCollectionsReplacedWholesale | backend/src/services/recipe.py:261-271 | a sent collection (even empty) becomes exactly the sent list; an unsent one is untouched |
| RecipeRules.PublishCheckImageIff | backend/src/services/recipe.py:245-250 | the image guard fails iff the update publishes, sends no `image_path` at all, and the stored path is empty; a sent `image_path`, even null, passes |
| RecipeRules.PublishCheckInstructionsIff | backend/src/services/recipe.py:252-254 | the instruction guard, evaluated after the image guard, fails iff the update publishes and neither stored nor sent instructions are non-empty |
| RecipeRules.PublishCheckOnlyWhenPublishing | backend/src/services/recipe.py:245-254 | an update that does not set `is_published` to true passes both guards; the guards fail only with the two publish errors |
| RecipeRules.RecsysSyncAtMostOne | backend/src/services/recipe.py:181-216 | the sync makes at most one call, and one exactly when the update publishes or unpublishes a published recipe |
| RecipeRules.RecsysSyncTable | backend/src/services/recipe.py:186-216 | the four rows of the table: update with new-or-old title and ", "-joined tags; add with the stored title and tags; update with the old values and `False`; nothing |
| RecipeRules.PublishCheckAdmitsEmptiedInstructions | backend/src/services/recipe.py:252-254 | publishing while sending an empty instruction list passes the guard and leaves a published recipe with no instructions |
| RecipeRules.PublishCheckAdmitsClearedImage | backend/src/services/recipe.py:245-250 | publishing while sending `image_path: null` passes the guard and leaves a published recipe without an image |
| RecipeRules.PublishCheckSkipsPublishedRecipes | backend/src/services/recipe.py:245-254 | an update of a published recipe that leaves `is_published` out is not checked, and can take its instructions away |
| RecipeRules.PublishCheckIntendedSound | backend/src/services/recipe.py:245-254 | the guard the publish invariant calls for passes exactly the updates after which the invariant still holds |
| RecipeRules.PublishCheckIntendedStricter | backend/src/services/recipe.py:245-254 | for a publishing update, whatever that guard lets through the written guard lets through too |
| Recipes.BuildRows | backend/src/services/recipe.py:146-151 | the loop builds one row per item, in input order, each tagged with the recipe id |
| Recipes.ItemsOfAttach | backend/src/services/recipe.py:146-174 | the rows built for a recipe hold exactly its items and no other recipe's |
| Recipes.ItemsOfWithout | backend/src/services/recipe.py:291-293 | after `delete_by_recipe_id` the recipe has no rows and every other recipe keeps its own |
| Recipes.AppendedItems | backend/src/services/recipe.py:224-229 | appending the rows of a fresh recipe gives it exactly its items and leaves the others |
| Recipes.ReplacedItems | backend/src/services/recipe.py:261-271 | delete-then-recreate leaves the recipe with exactly the new items and the others with their old ones |
| Recipes.DeleteCascades | backend/src/services/recipe.py:291-293 | after the child deletes the recipe has no child rows left |
| Recipes.EmptyUpdateWritesNothing | backend/src/services/recipe.py:256-271 | an update that sends nothing issues no repository write |
| RecipeRules.UnboundedCollectionUnreadable | backend/src/schemas/recipe.py:80-85 | an update that sends an empty list of ingredients or tags, more than 50 ingredients or more than 15 tags leaves a recipe the read schema refuses |
| RecipeRules.UpdateReadableIff | backend/src/schemas/recipe.py:80-85 | starting from a readable recipe, a valid update leaves it readable exactly when each sent collection is within the read schema's count bounds |
| Recipes.CreatedViewReadable | backend/src/schemas/recipe.py:105-123 | a recipe created from a body within the create schema's bounds passes the read schema |
| Recipes.CreatedStoreJoined | backend/src/services/recipe.py:218-233 | create keeps the store's invariant, uses a fresh id, stores exactly the sent children under it, and changes no other recipe |
| Recipes.UpdatedStoreJoined | backend/src/services/recipe.py:256-271 | the write phase of update keeps the invariant and the set of recipes, changes the recipe as `ApplyUpdate` says, and changes no other recipe |
| Recipes.DeletedStoreJoined | backend/src/services/recipe.py:281-297 | delete keeps the invariant, removes the recipe and every child row of it, and changes no other recipe |
| Recipes.RecipeService.constructor | backend/src/services/recipe.py:41-57 | a service over empty repositories, with the given slug, image-URL and upload gateways |
| Recipes.RecipeService.ToRecipeSchema | backend/src/services/recipe.py:59-72 | fails with the validation error iff the joined recipe breaks the read schema; otherwise keeps the joined recipe, resolves its image URL only for a non-empty path, and resolves each instruction's URL in place, in order |
| Recipes.RecipeService.GetById | backend/src/services/recipe.py:80-95 | succeeds iff the recipe exists, is published or asked for by its author, and passes the read schema; a missing or hidden recipe is not found, a visible one the schema refuses fails validation; returns the joined recipe |
| Recipes.RecipeService.GetBySlug | backend/src/services/recipe.py:312-318 | not found iff no recipe has the slug; otherwise the joined recipe that has it, with no visibility rule, or the validation error, and then only when a recipe with the slug breaks the read schema; succeeds whenever every recipe with the slug passes it |
| Recipes.RecipeService.GetImageUploadUrl | backend/src/services/recipe.py:299-310 | not found, then ownership, then the presigned upload for the recipe |
| Recipes.RecipeService.CreateIngredients | backend/src/services/recipe.py:146-154 | the ingredient rows are appended under the recipe id; one bulk insert iff the list is non-empty |
| Recipes.RecipeService.CreateInstructions | backend/src/services/recipe.py:156-164 | the instruction rows are appended under the recipe id; one bulk insert iff the list is non-empty |
| Recipes.RecipeService.CreateTags | backend/src/services/recipe.py:166-174 | the tag rows are appended under the recipe id; one bulk insert iff the list is non-empty |
| Recipes.RecipeService.Create | backend/src/services/recipe.py:218-233 | stores the recipe unpublished, owned by the user, slug from the title; inserts the non-empty child lists (instructions only when truthy); then validates the joined recipe against the read schema: on success indexes it once and returns it, on failure keeps the writes, indexes nothing and fails validation; a body within the create schema always succeeds; never calls the recommendation engine; other recipes unchanged |
| Recipes.RecipeService.Update | backend/src/services/recipe.py:235-279 | not found, ownership, image and instruction guards in that order, with no write on any failure; then the scalar and child writes; then, only when the new joined recipe passes the read schema, one re-index of it and the sync calls computed from the recipe as loaded, otherwise the validation error with the writes kept and no index or sync call; other recipes unchanged |
| Recipes.RecipeService.WriteUpdate | backend/src/services/recipe.py:256-271 | the write phase: the scalar row update, then the child replacements, leaving the store as `UpdatedStore` |
| Recipes.RecipeService.WriteScalars | backend/src/services/recipe.py:256-259 | one row update with the sent fields (and the new slug when the title is sent), only when some field was sent |
| Recipes.RecipeService.WriteChildren | backend/src/services/recipe.py:261-271 | ingredients, instructions, then tags: each sent collection deleted and recreated, each unsent one untouched |
| Recipes.RecipeService.ReplaceIngredients | backend/src/services/recipe.py:261-263 | when sent: delete the recipe's ingredient rows, then create the sent ones |
| Recipes.RecipeService.ReplaceInstructions | backend/src/services/recipe.py:265-267 | when sent: delete the recipe's instruction rows, then create the sent ones |
| Recipes.RecipeService.ReplaceTags | backend/src/services/recipe.py:269-271 | when sent: delete the recipe's tag rows, then create the sent ones |
| Recipes.RecipeService.Delete | backend/src/services/recipe.py:281-297 | not found, then ownership, with no write on failure; then ingredients, instructions, tags, the recipe row and the search document removed in that order; other recipes unchanged |
| Recipes.RecipeService.StoreCreated | backend/src/services/recipe.py:218-231 | the write phase of create: the row under the next id, then the ingredient, instruction (when truthy) and tag inserts, leaving the store as `CreatedStore` |
| Recipes.RecipeService.DeleteRows | backend/src/services/recipe.py:291-297 | the write phase of delete: children, row and search document removed in that order, leaving the store as `DeletedStore` |
| ShoppingList.StoredBulkAt | backend/src/services/shopping_list_item.py:58 | the bulk insert adds exactly the consecutive new ids, each holding the item from its position in the batch, and keeps every other row |
| ShoppingList.IdsToCheckSnoc | backend/src/services/shopping_list_item.py:45-50 | one loop step adds the item's ingredient id to the checked set iff it is truthy |
| ShoppingList.IdsToCheckMembers | backend/src/services/shopping_list_item.py:49-50 | the checked ids are exactly the non-zero ids some item carries |
| ShoppingList.FoundFewerIff | backend/src/services/shopping_list_item.py:52-56 | the length comparison fails exactly when some checked id is not a stored ingredient |
| ShoppingList.UpdateDataKeys | backend/src/services/shopping_list_item.py:70 | the update dictionary holds exactly the fields that are not `None`, keeps a sent `False`, and is empty only for the empty patch |
| ShoppingList.WriteUpdateDataIsPatch | backend/src/services/shopping_list_item.py:70-73 | writing the dictionary changes the item exactly as the patch says |
| ShoppingList.ToggleTwiceRestores | backend/src/services/shopping_list_item.py:92-102 | two toggles by the same user restore the table |
| ShoppingList.DeletedByIdsEffect | backend/src/services/shopping_list_item.py:88-90 | none of the user's listed items is left; every other item stays as it was |
| ShoppingList.ClearedIsDeleteOfAllOwn | backend/src/services/shopping_list_item.py:104-106 | clearing equals a bulk delete of all the user's ids and leaves the user with no items |
| ShoppingList.ShoppingListItemService.constructor | backend/src/services/shopping_list_item.py:15-16 | a service over an empty item table and the given ingredient ids |
| ShoppingList.ShoppingListItemService.GetAllByUser | backend/src/services/shopping_list_item.py:18-33 | the user's items (optionally only the unpurchased ones) and their count; nothing changes |
| ShoppingList.ShoppingListItemService.Create | backend/src/services/shopping_list_item.py:35-39 | one new unpurchased item under a fresh id for the user, then one commit |
| ShoppingList.ShoppingListItemService.BulkCreate | backend/src/services/shopping_list_item.py:41-61 | fails with the ingredient error iff some truthy referenced id is unknown, writing and committing nothing; otherwise one bulk write of all items in input order under the user, then one commit |
| ShoppingList.ShoppingListItemService.Update | backend/src/services/shopping_list_item.py:63-76 | not found by an unscoped lookup; an empty patch writes and commits nothing and returns the stored item; otherwise a user-scoped write of the non-`None` fields and a commit |
| ShoppingList.ShoppingListItemService.TogglePurchased | backend/src/services/shopping_list_item.py:92-102 | not found for an unknown id; otherwise the user-scoped flip of the flag and a commit |
| ShoppingList.ShoppingListItemService.Delete | backend/src/services/shopping_list_item.py:78-86 | fails iff the id is unknown, changing nothing; otherwise the user-scoped delete and a commit |
| ShoppingList.ShoppingListItemService.DeleteByIds | backend/src/services/shopping_list_item.py:88-90 | unconditional: the user's listed items go, then a commit |
| ShoppingList.ShoppingListItemService.ClearUserShoppingList | backend/src/services/shopping_list_item.py:104-106 | unconditional: all the user's items go, then a commit |
| Impressions.RecordedIsRecent | backend/src/services/recipe_impression.py:57-61 | a recorded impression blocks the same record for the next 24 hours |
| Impressions.RecencyExpires | backend/src/services/recipe_impression.py:57-61 | after 24 hours it no longer blocks |
| Impressions.MergeEmptiesSession | backend/src/services/recipe_impression.py:68-71 | after a merge the session has no impressions; every other viewer's impressions are as before |
| Impressions.MergeUnitesViewedRecipes | backend/src/services/recipe_impression.py:68-71 | after a merge the user has been shown exactly the recipes the user or the session had been shown |
| Impressions.ViewedCountBound | backend/src/services/recipe_impression.py:94-95 | the distinct recipes a viewer was shown are no more than the viewer's impressions |
| Impressions.RecipeImpressionService.constructor | backend/src/services/recipe_impression.py:21-31 | a service over an empty impression table and the given recipe ids |
| Impressions.RecipeImpressionService.RecordImpression | backend/src/services/recipe_impression.py:52-66 | not found, then already-shown-within-24h, with nothing written or forwarded; otherwise exactly one impression stored and one `add_impression` forwarded |
| Impressions.RecipeImpressionService.RecordImpressionForAnonymous | backend/src/services/recipe_impression.py:76-92 | the same two checks keyed by the session; one impression on success; never calls the recommendation engine |
| Impressions.RecipeImpressionService.MergeImpressions | backend/src/services/recipe_impression.py:68-74 | the session's impressions are reassigned to the user; one bulk forward of them iff there are any |
| Impressions.RecipeImpressionService.GetUserViewedRecipesCount | backend/src/services/recipe_impression.py:94-95 | a read: the number of distinct recipes shown to the user, bounded by the user's impressions; nothing changes |
| ValidationRules.Utf16Length | frontend/src/components/ui/ValidatedInput.jsx:219-233 | the JavaScript length lies between the number of characters and twice that |
| ValidationRules.TrimNonEmpty | frontend/src/components/ui/ValidatedInput.jsx:211-217 | a value trims to something non-empty exactly when it has a non-white-space character |
| ValidationRules.EmailRegexIff | frontend/src/components/ui/ValidatedInput.jsx:235-245 | the regular expression accepts exactly a non-empty local part, `@`, and a domain with an inner `.`, neither part holding white space or `@` |
| ValidationRules.CheckIff | frontend/src/components/ui/ValidatedInput.jsx:210-260 | each preset rule passes exactly when the value meets its stated condition (the empty value passing all but `required`), otherwise fails as an error with its message, and never throws |
| ValidationRules.Aggregate | frontend/src/components/ui/ValidatedInput.jsx:61-79 | the loop yields the error and warning lists in rule order (a throwing rule adds the fixed message) and `isValid` iff there is no error |
| ValidationRules.ErrorsConcatenate | frontend/src/components/ui/ValidatedInput.jsx:64-78 | rule order is kept: the error lists of two runs of rules concatenate |
| ValidationRules.WarningsConcatenate | frontend/src/components/ui/ValidatedInput.jsx:64-78 | rule order is kept: the warning lists of two runs of rules concatenate |
| ValidationRules.ListsPartitionFailures | frontend/src/components/ui/ValidatedInput.jsx:64-78 | every rule that did not pass lands in exactly one of the two lists |
| ValidationRules.ValidIff | frontend/src/components/ui/ValidatedInput.jsx:64-79 | the field is valid exactly when every rule passed or only warned |
| ValidationRules.PresetRulesValidIff | frontend/src/components/ui/ValidatedInput.jsx:210-260 | with preset rules only, the field is valid exactly when every rule accepts the value, and no warning is collected |

## Left out

- **I/O and asynchrony.** Repositories, the search index, the recommendation engine and the image store are state fields or logs. Each `async` call is one step of a straight-line sequence, with no concurrency.
- **Opaque helpers are uninterpreted constants of the service.** These are `create_recipe_slug`, `get_image_url` and the presigned upload. Pydantic `model_dump` and `HttpUrl` are modelled only by their effect on field presence. `model_validate` of the read schemas is modelled by `RecipeRules.Readable`: the title, description and cook-time bounds, a positive id, 1 to 50 valid ingredients, 1 to 15 valid tags and the instruction bounds. A failure raises after the writes. Any rollback by the request's session is not modelled: the model keeps the writes and the failure.
- **Pass-through reads are not modelled, because they carry no logic of the service:**
  - `get_all`, `get_all_by_author_username` and `get_all_by_author_id` of the recipe service;
  - `_to_recipe_short_schema`;
  - the author and avatar part of `_to_recipe_full_schema`;
  - `get_user_impressions` and `_to_recipe_impression_schema` of the impression service.
- **Pagination, sorting and the repository's own filters are not modelled.** GetAllByUser returns the whole filtered set, without the repository's `skip`/`limit` window.
- **Shopping items owned by another user.** The item repository is not part of this model. When a user-scoped update or toggle finds another user's item, the model assumes the write matches no row and returns nothing. The service then fails building the read schema, after the commit; this is `SchemaValidationFailed`.
- **Recency and counting.** The impression repository is not part of this model, so four of its behaviours are assumptions:
  - the recency window includes its boundary (shown at or after now minus 24 hours);
  - the source is compared by equality of the optional value, so a record without a source matches only earlier impressions without one (`backend/src/services/recipe_impression.py:57-59`);
  - `merge_impressions` reassigns all of the session's impressions;
  - the viewed count is the number of distinct recipe ids among the user's impressions.
- Recipes.RecipeService.Update: the recipe repository is not part of this model, so two of its behaviours are assumptions. The sync is computed from `old(db).Joined(recipeId)`, taking the recipe loaded before the writes as an unchanged snapshot; an ORM session that maps identities could already show the new values there. The re-read with `user_id=user.id` (`backend/src/services/recipe.py:273`) is taken to return the updated recipe even when a superuser edits another author's draft.
- **The recommendation call signature.** The recommendation protocol declares `update_recipe` with fewer parameters than the service passes. The model records the call exactly as the service makes it.
- **The merge message.** The message a merged impression is forwarded as is taken to carry the user id, the recipe id and the source.
- **Enum values are abstract.** Difficulty and the impression source are kept as their string values, and an enum member is taken to be truthy.
- **Non-nullable scalar fields of `RecipeUpdate`.** Explicit `null` for them (title, short description, difficulty, cook time, `is_published`) is not modelled. Only `image_path` can be sent as null.
- **The shopping schemas.** The bound of 25 items on a bulk request is not modelled. Nor are the `is_actual` and `recipe` fields of the item read schema.
- **`validate_recipe_title` and `partial_model` are not part of this model.** The title bound is its length only.
- **The search document.** It is modelled as the joined recipe without its instructions. The excluded `updated_at` and `image_url` fields are not represented.
- **The input component outside its rules.** The debounce timer, rendering, icons and the validation-in-progress flag are not modelled. Custom rules are represented only by the outcome they produce (pass, failure with a severity, or exception).
- **Value types in the rules.** A rule's value is a string. The `toString()` conversion of non-string values and the rejection of `undefined`/`null` before the loop are not modelled.
