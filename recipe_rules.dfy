/** The decision logic of the recipe service, as pure functions: who may see and
    who may change a recipe, which scalar fields an update writes, the two publish
    guards and the table that maps a publish transition to a recommendation call. */
module RecipeRules {
  import opened Common
  import opened RecipeSchemas

  datatype User = User(id: int, isSuperuser: bool)

  /** A row of the recipe table. */
  datatype Recipe = Recipe(
    id: int,
    slug: string,
    title: string,
    shortDescription: string,
    difficulty: string,
    cookTimeMinutes: int,
    imagePath: Option<string>,
    authorId: int,
    isPublished: bool)

  /** A recipe joined with its ingredients, instructions and tags, as the
      repository's `get_by_id` loads it. */
  datatype RecipeView = RecipeView(
    recipe: Recipe,
    ingredients: seq<Ingredient>,
    instructions: seq<Instruction>,
    tags: seq<Tag>)

  /** The document sent to the search index: the joined recipe without its
      instructions (and without `updated_at` and `image_url`). */
  datatype SearchDocument = SearchDocument(recipe: Recipe, ingredients: seq<Ingredient>, tags: seq<Tag>)

  function Document(v: RecipeView): SearchDocument
  {
    SearchDocument(v.recipe, v.ingredients, v.tags)
  }

  /** A call to the recommendation engine, with the arguments the service passes. */
  datatype RecsysCall =
    | AddRecipe(authorId: int, recipeId: int, title: string, tags: string)
    | UpdateRecipe(authorId: int, recipeId: int, title: string, tags: string, isPublished: bool)

  /** A published recipe is visible to everyone, an unpublished one only to its author. */
  predicate Visible(r: Recipe, viewer: Option<int>)
  {
    r.isPublished || viewer == Some(r.authorId)
  }

  /** Only the author or a superuser may change or delete a recipe. */
  predicate MayModify(r: Recipe, user: User)
  {
    r.authorId == user.id || user.isSuperuser
  }

  /** The guard that update, delete and the upload URL share: not found first,
      then ownership. */
  function ModifyGuard(found: Option<Recipe>, user: User): Result<Recipe>
  {
    if found.None? then Err(RecipeNotFound)
    else if found.value.authorId != user.id && !user.isSuperuser then Err(RecipeOwnership)
    else Ok(found.value)
  }

  // The scalar part of an update, as the dictionary `model_dump(exclude_unset=True)` builds.

  datatype FieldValue = Text(s: string) | OptionalText(o: Option<string>) | Number(n: int) | Flag(b: bool)

  /** The scalar columns an update may send, by their names in the request. */
  const ScalarKeys: set<string> :=
    {"title", "short_description", "difficulty", "cook_time_minutes", "is_published", "image_path"}

  predicate Sent(u: RecipeUpdate, key: string)
  {
    if key == "title" then u.title.Set?
    else if key == "short_description" then u.shortDescription.Set?
    else if key == "difficulty" then u.difficulty.Set?
    else if key == "cook_time_minutes" then u.cookTimeMinutes.Set?
    else if key == "is_published" then u.isPublished.Set?
    else if key == "image_path" then u.imagePath.Set?
    else false
  }

  function SentValue(u: RecipeUpdate, key: string): FieldValue
    requires Sent(u, key)
  {
    if key == "title" then Text(u.title.value)
    else if key == "short_description" then Text(u.shortDescription.value)
    else if key == "difficulty" then Text(u.difficulty.value)
    else if key == "cook_time_minutes" then Number(u.cookTimeMinutes.value)
    else if key == "is_published" then Flag(u.isPublished.value)
    else OptionalText(u.imagePath.value)
  }

  /** `recipe_data`: one entry per scalar field the request sent. */
  function RecipeData(u: RecipeUpdate): map<string, FieldValue>
  {
    map key | key in ScalarKeys && Sent(u, key) :: SentValue(u, key)
  }

  /** A sent title brings a recomputed slug with it. */
  function WithSlug(data: map<string, FieldValue>, slugify: string -> string): map<string, FieldValue>
  {
    if "title" in data && data["title"].Text? then data["slug" := Text(slugify(data["title"].s))] else data
  }

  /** The repository's `update(recipe_id, **data)`: every key present overwrites its column. */
  function WriteFields(r: Recipe, data: map<string, FieldValue>): Recipe
  {
    r.(
      title := if "title" in data && data["title"].Text? then data["title"].s else r.title,
      slug := if "slug" in data && data["slug"].Text? then data["slug"].s else r.slug,
      shortDescription :=
        if "short_description" in data && data["short_description"].Text? then data["short_description"].s
        else r.shortDescription,
      difficulty := if "difficulty" in data && data["difficulty"].Text? then data["difficulty"].s else r.difficulty,
      cookTimeMinutes :=
        if "cook_time_minutes" in data && data["cook_time_minutes"].Number? then data["cook_time_minutes"].n
        else r.cookTimeMinutes,
      isPublished := if "is_published" in data && data["is_published"].Flag? then data["is_published"].b else r.isPublished,
      imagePath := if "image_path" in data && data["image_path"].OptionalText? then data["image_path"].o else r.imagePath)
  }

  /** The row after the scalar part of an update: written only when some field was sent. */
  function UpdatedRow(r: Recipe, u: RecipeUpdate, slugify: string -> string): Recipe
  {
    if RecipeData(u) != map[] then WriteFields(r, WithSlug(RecipeData(u), slugify)) else r
  }

  /** The joined recipe after an update: scalar fields as above, and each child
      collection that was sent replaces the old one wholesale. */
  function ApplyUpdate(e: RecipeView, u: RecipeUpdate, slugify: string -> string): RecipeView
  {
    RecipeView(
      UpdatedRow(e.recipe, u, slugify),
      if u.ingredients.Some? then u.ingredients.value else e.ingredients,
      if u.instructions.Some? then u.instructions.value else e.instructions,
      if u.tags.Some? then u.tags.value else e.tags)
  }

  lemma RecipeDataKeys(u: RecipeUpdate)
    ensures "title" in RecipeData(u) <==> u.title.Set?
    ensures u.title.Set? ==> RecipeData(u)["title"] == Text(u.title.value)
    ensures "short_description" in RecipeData(u) <==> u.shortDescription.Set?
    ensures u.shortDescription.Set? ==> RecipeData(u)["short_description"] == Text(u.shortDescription.value)
    ensures "difficulty" in RecipeData(u) <==> u.difficulty.Set?
    ensures u.difficulty.Set? ==> RecipeData(u)["difficulty"] == Text(u.difficulty.value)
    ensures "cook_time_minutes" in RecipeData(u) <==> u.cookTimeMinutes.Set?
    ensures u.cookTimeMinutes.Set? ==> RecipeData(u)["cook_time_minutes"] == Number(u.cookTimeMinutes.value)
    ensures "is_published" in RecipeData(u) <==> u.isPublished.Set?
    ensures u.isPublished.Set? ==> RecipeData(u)["is_published"] == Flag(u.isPublished.value)
    ensures "image_path" in RecipeData(u) <==> u.imagePath.Set?
    ensures u.imagePath.Set? ==> RecipeData(u)["image_path"] == OptionalText(u.imagePath.value)
    ensures "slug" !in RecipeData(u)
    ensures RecipeData(u) == map[] <==>
              u.title.Unset? && u.shortDescription.Unset? && u.difficulty.Unset?
              && u.cookTimeMinutes.Unset? && u.isPublished.Unset? && u.imagePath.Unset?
  {
    if u.title.Set? { assert "title" in RecipeData(u); }
    if u.shortDescription.Set? { assert "short_description" in RecipeData(u); }
    if u.difficulty.Set? { assert "difficulty" in RecipeData(u); }
    if u.cookTimeMinutes.Set? { assert "cook_time_minutes" in RecipeData(u); }
    if u.isPublished.Set? { assert "is_published" in RecipeData(u); }
    if u.imagePath.Set? { assert "image_path" in RecipeData(u); }
  }

  /** Partial update: a sent field takes the sent value, a field left out keeps its
      value; the slug is recomputed exactly when the title is sent; the id and the
      author never change. */
  lemma PartialUpdateFields(r: Recipe, u: RecipeUpdate, slugify: string -> string)
    ensures var w := UpdatedRow(r, u, slugify);
      && w.id == r.id && w.authorId == r.authorId
      && w.title == (if u.title.Set? then u.title.value else r.title)
      && w.slug == (if u.title.Set? then slugify(u.title.value) else r.slug)
      && w.shortDescription == (if u.shortDescription.Set? then u.shortDescription.value else r.shortDescription)
      && w.difficulty == (if u.difficulty.Set? then u.difficulty.value else r.difficulty)
      && w.cookTimeMinutes == (if u.cookTimeMinutes.Set? then u.cookTimeMinutes.value else r.cookTimeMinutes)
      && w.isPublished == (if u.isPublished.Set? then u.isPublished.value else r.isPublished)
      && w.imagePath == (if u.imagePath.Set? then u.imagePath.value else r.imagePath)
  {
    RecipeDataKeys(u);
  }

  /** An update that sends nothing leaves the joined recipe as it was. */
  lemma EmptyUpdateChangesNothing(e: RecipeView, slugify: string -> string)
    ensures ApplyUpdate(e, EmptyUpdate, slugify) == e
  {
    RecipeDataKeys(EmptyUpdate);
  }

  /** Sending a child collection replaces it outright: the result holds exactly the
      sent list, nothing of the old one is merged in. */
  lemma ChildCollectionsReplacedWholesale(e: RecipeView, u: RecipeUpdate, slugify: string -> string)
    ensures var a := ApplyUpdate(e, u, slugify);
      && (u.ingredients.Some? ==> a.ingredients == u.ingredients.value)
      && (u.instructions.Some? ==> a.instructions == u.instructions.value)
      && (u.tags.Some? ==> a.tags == u.tags.value)
      && (u.ingredients.None? ==> a.ingredients == e.ingredients)
      && (u.instructions.None? ==> a.instructions == e.instructions)
      && (u.tags.None? ==> a.tags == e.tags)
  {
  }

  // The publish guards, as written.

  /** Python's `recipe_data.get("image_path", "unset") != "unset"`. */
  predicate DiffersFromUnsetMarker(v: FieldValue)
  {
    !((v.Text? && v.s == "unset") || (v.OptionalText? && v.o == Some("unset")))
  }

  predicate FieldTruthy(v: FieldValue)
  {
    match v
    case Text(s) => s != ""
    case OptionalText(o) => Truthy(o)
    case Number(n) => n != 0
    case Flag(b) => b
  }

  /** The two publish guards of `update`, in the order the source runs them:
      the image first, then the instructions. */
  function PublishCheck(e: RecipeView, u: RecipeUpdate): Result<()>
  {
    var data := RecipeData(u);
    var reseted := if "image_path" in data then data["image_path"] else Text("unset");
    var supplied := if "image_path" in data then data["image_path"] else OptionalText(None);
    var publishing := u.isPublished == Set(true);
    if publishing && !(DiffersFromUnsetMarker(reseted) || FieldTruthy(supplied) || Truthy(e.recipe.imagePath))
    then Err(NoRecipeImage)
    else if publishing && !(|e.instructions| > 0 || (u.instructions.Some? && |u.instructions.value| > 0))
    then Err(NoRecipeInstructions)
    else Ok(())
  }

  /** The image guard fails exactly when the update publishes, sends no
      `image_path` at all, and the stored image path is empty; an explicitly sent
      `image_path`, even `null`, passes it. */
  lemma PublishCheckImageIff(e: RecipeView, u: RecipeUpdate)
    ensures PublishCheck(e, u) == Err(NoRecipeImage)
        <==> u.isPublished == Set(true) && u.imagePath.Unset? && !Truthy(e.recipe.imagePath)
  {
    RecipeDataKeys(u);
  }

  /** Past the image guard, the instruction guard fails exactly when the update
      publishes and neither the stored nor the sent instructions are non-empty. */
  lemma PublishCheckInstructionsIff(e: RecipeView, u: RecipeUpdate)
    ensures PublishCheck(e, u) == Err(NoRecipeInstructions)
        <==> && u.isPublished == Set(true)
             && !(u.imagePath.Unset? && !Truthy(e.recipe.imagePath))
             && |e.instructions| == 0
             && (u.instructions.None? || |u.instructions.value| == 0)
  {
    RecipeDataKeys(u);
  }

  /** An update that does not set `is_published` to true passes both guards. */
  lemma PublishCheckOnlyWhenPublishing(e: RecipeView, u: RecipeUpdate)
    ensures u.isPublished != Set(true) ==> PublishCheck(e, u) == Ok(())
    ensures PublishCheck(e, u).Err? ==> PublishCheck(e, u).error in {NoRecipeImage, NoRecipeInstructions}
  {
  }

  // The recommendation-sync table.

  function TagNames(tags: seq<Tag>): seq<string>
  {
    seq(|tags|, i requires 0 <= i < |tags| => tags[i].name)
  }

  function JoinedTags(tags: seq<Tag>): string
  {
    Join(TagNames(tags), ", ")
  }

  /** `_update_recsys_on_update`: the calls made, in order, given the recipe as it
      was loaded before the update and the update itself. */
  function RecsysSync(e: RecipeView, u: RecipeUpdate): seq<RecsysCall>
  {
    var r := e.recipe;
    var titleChanged := u.title.Set? && u.title.value != r.title;
    var tagsChanged := u.tags.Some?;
    var onPublish :=
      if u.isPublished == Set(true) then
        if titleChanged || tagsChanged then
          [UpdateRecipe(r.authorId, r.id,
                        if u.title.Set? then u.title.value else r.title,
                        JoinedTags(if u.tags.Some? then u.tags.value else e.tags),
                        true)]
        else [AddRecipe(r.authorId, r.id, r.title, JoinedTags(e.tags))]
      else [];
    var onUnpublish :=
      if r.isPublished && u.isPublished == Set(false) then
        [UpdateRecipe(r.authorId, r.id, r.title, JoinedTags(e.tags), false)]
      else [];
    onPublish + onUnpublish
  }

  /** The sync makes at most one call, and one exactly when the update publishes, or
      unpublishes a recipe that was published. */
  lemma RecsysSyncAtMostOne(e: RecipeView, u: RecipeUpdate)
    ensures |RecsysSync(e, u)| <= 1
    ensures |RecsysSync(e, u)| == 1
        <==> u.isPublished == Set(true) || (e.recipe.isPublished && u.isPublished == Set(false))
  {
  }

  /** The four outcomes of `_update_recsys_on_update` (backend/src/services/recipe.py:186-216),
      each stated on its own: publish with a change, publish without one, unpublish,
      and nothing. */
  lemma RecsysSyncTable(e: RecipeView, u: RecipeUpdate)
    ensures var r := e.recipe;
      var changed := (u.title.Set? && u.title.value != r.title) || u.tags.Some?;
      && (u.isPublished == Set(true) && changed ==>
            RecsysSync(e, u) == [UpdateRecipe(r.authorId, r.id,
                                              if u.title.Set? then u.title.value else r.title,
                                              JoinedTags(if u.tags.Some? then u.tags.value else e.tags), true)])
      && (u.isPublished == Set(true) && !changed ==>
            RecsysSync(e, u) == [AddRecipe(r.authorId, r.id, r.title, JoinedTags(e.tags))])
      && (r.isPublished && u.isPublished == Set(false) ==>
            RecsysSync(e, u) == [UpdateRecipe(r.authorId, r.id, r.title, JoinedTags(e.tags), false)])
      && (u.isPublished.Unset? || (!r.isPublished && u.isPublished == Set(false)) ==> RecsysSync(e, u) == [])
  {
  }

  // The read schema.

  /** What `RecipeRead.model_validate` (and `RecipeReadFull`, which adds only the
      author) demands of a joined recipe: the scalar bounds of the recipe body, a
      positive id, 1 to 50 ingredients and 1 to 15 tags each within its bounds,
      and instructions as the instruction validator and bounds accept them. */
  predicate Readable(v: RecipeView)
  {
    && TitleInBounds(v.recipe.title)
    && ShortDescriptionInBounds(v.recipe.shortDescription)
    && v.recipe.cookTimeMinutes > 0
    && 0 < v.recipe.id
    && 1 <= |v.ingredients| <= 50
    && (forall i :: 0 <= i < |v.ingredients| ==> ValidIngredient(v.ingredients[i]))
    && 1 <= |v.tags| <= 15
    && (forall i :: 0 <= i < |v.tags| ==> ValidTag(v.tags[i]))
    && ValidInstructions(Some(v.instructions))
  }

  /** The update body bounds neither the number of ingredients nor of tags, so a
      sent list that is empty or too long leaves a recipe the read schema refuses. */
  lemma UnboundedCollectionUnreadable(e: RecipeView, u: RecipeUpdate, slugify: string -> string)
    requires (u.ingredients.Some? && !(1 <= |u.ingredients.value| <= 50))
          || (u.tags.Some? && !(1 <= |u.tags.value| <= 15))
    ensures !Readable(ApplyUpdate(e, u, slugify))
  {
  }

  /** A valid update of a readable recipe leaves it readable exactly when each
      sent ingredient and tag list has a count the read schema allows. */
  lemma UpdateReadableIff(e: RecipeView, u: RecipeUpdate, slugify: string -> string)
    requires Readable(e) && ValidRecipeUpdate(u)
    ensures Readable(ApplyUpdate(e, u, slugify))
        <==> (u.ingredients.Some? ==> 1 <= |u.ingredients.value| <= 50)
             && (u.tags.Some? ==> 1 <= |u.tags.value| <= 15)
  {
    PartialUpdateFields(e.recipe, u, slugify);
  }

  // The publish invariant, and where the as-written guard misses it.

  /** A published recipe has an image and at least one instruction. */
  predicate PublishInvariant(v: RecipeView)
  {
    v.recipe.isPublished ==> Truthy(v.recipe.imagePath) && |v.instructions| > 0
  }

  function Identity(s: string): string { s }

  const DraftWithSteps := RecipeView(
    Recipe(1, "soup", "Soup", "Hot soup", "EASY", 10, Some("images/soup.png"), 7, false),
    [Ingredient("Water", None)],
    [Instruction(1, "Boil water", None)],
    [Tag("Dinner")])

  /** Publishing while sending an empty instruction list passes the guard (the stored
      instructions count) and leaves a published recipe with no instructions. */
  lemma PublishCheckAdmitsEmptiedInstructions()
    ensures var u := EmptyUpdate.(isPublished := Set(true), instructions := Some([]));
      && PublishCheck(DraftWithSteps, u) == Ok(())
      && !PublishInvariant(ApplyUpdate(DraftWithSteps, u, Identity))
  {
    var u := EmptyUpdate.(isPublished := Set(true), instructions := Some([]));
    RecipeDataKeys(u);
    PartialUpdateFields(DraftWithSteps.recipe, u, Identity);
  }

  /** Publishing while sending `image_path: null` passes the guard and leaves a
      published recipe without an image. */
  lemma PublishCheckAdmitsClearedImage()
    ensures var u := EmptyUpdate.(isPublished := Set(true), imagePath := Set(None));
      && PublishCheck(DraftWithSteps, u) == Ok(())
      && !PublishInvariant(ApplyUpdate(DraftWithSteps, u, Identity))
  {
    var u := EmptyUpdate.(isPublished := Set(true), imagePath := Set(None));
    RecipeDataKeys(u);
    PartialUpdateFields(DraftWithSteps.recipe, u, Identity);
  }

  /** An update of an already published recipe that leaves `is_published` out is
      not checked at all, so it can take the recipe's instructions away. */
  lemma PublishCheckSkipsPublishedRecipes()
    ensures var e := DraftWithSteps.(recipe := DraftWithSteps.recipe.(isPublished := true));
      var u := EmptyUpdate.(instructions := Some([]));
      && PublishInvariant(e)
      && PublishCheck(e, u) == Ok(())
      && !PublishInvariant(ApplyUpdate(e, u, Identity))
  {
    var e := DraftWithSteps.(recipe := DraftWithSteps.recipe.(isPublished := true));
    var u := EmptyUpdate.(instructions := Some([]));
    RecipeDataKeys(u);
    PartialUpdateFields(e.recipe, u, Identity);
  }

  /** The guard as evidently intended: it judges the recipe as the update will
      leave it, whether the update publishes it or it stays published. */
  function PublishCheckIntended(e: RecipeView, u: RecipeUpdate): Result<()>
  {
    var publishedAfter := if u.isPublished.Set? then u.isPublished.value else e.recipe.isPublished;
    var imageAfter := if u.imagePath.Set? then u.imagePath.value else e.recipe.imagePath;
    var instructionsAfter := if u.instructions.Some? then u.instructions.value else e.instructions;
    if publishedAfter && !Truthy(imageAfter) then Err(NoRecipeImage)
    else if publishedAfter && |instructionsAfter| == 0 then Err(NoRecipeInstructions)
    else Ok(())
  }

  /** The corrected guard passes exactly the updates after which the publish
      invariant holds. */
  lemma PublishCheckIntendedSound(e: RecipeView, u: RecipeUpdate, slugify: string -> string)
    ensures PublishCheckIntended(e, u).Ok? <==> PublishInvariant(ApplyUpdate(e, u, slugify))
  {
    PartialUpdateFields(e.recipe, u, slugify);
  }

  /** When an update publishes, the corrected guard is stricter than the written one:
      whatever it lets through, the written guard lets through too. */
  lemma PublishCheckIntendedStricter(e: RecipeView, u: RecipeUpdate)
    requires u.isPublished == Set(true)
    requires PublishCheckIntended(e, u).Ok?
    ensures PublishCheck(e, u).Ok?
  {
    RecipeDataKeys(u);
  }
}
