/** The recipe service: create, read, update and delete of a recipe and its child
    rows, with the search index and the recommendation engine kept in step. The
    repositories are the fields of the class (the recipe table as a map, the three
    child tables as sequences of rows); every write the service issues to them,
    to the search index and to the recommendation engine is appended, in order,
    to `log`. */
module Recipes {
  import opened Common
  import opened RecipeSchemas
  import opened RecipeRules

  /** A row of a child table: the item and the recipe it belongs to. */
  datatype Child<T> = Child(recipeId: int, item: T)

  /** An instruction of the read projection, with its resolved image URL. */
  datatype InstructionRead = InstructionRead(instruction: Instruction, imageUrl: Option<string>)

  /** The read projection of a recipe: the joined recipe, its resolved image URL
      and its instructions with theirs. */
  datatype RecipeRead = RecipeRead(view: RecipeView, imageUrl: Option<string>, instructions: seq<InstructionRead>)

  /** A write to a repository or a call to the search or recommendation gateway. */
  datatype Call =
    | InsertRecipe(recipe: Recipe)
    | UpdateRecipeRow(recipeId: int, data: map<string, FieldValue>)
    | DeleteRecipeRow(recipeId: int)
    | DeleteIngredientsOf(recipeId: int)
    | DeleteInstructionsOf(recipeId: int)
    | DeleteTagsOf(recipeId: int)
    | BulkCreateIngredients(ingredientRows: seq<Child<Ingredient>>)
    | BulkCreateInstructions(instructionRows: seq<Child<Instruction>>)
    | BulkCreateTags(tagRows: seq<Child<Tag>>)
    | IndexRecipe(document: SearchDocument)
    | DeleteSearchDocument(recipeId: int)
    | Recsys(call: RecsysCall)

  /** Each item tagged with the recipe id, in order. */
  function Attach<T>(recipeId: int, items: seq<T>): seq<Child<T>>
  {
    seq(|items|, i requires 0 <= i < |items| => Child(recipeId, items[i]))
  }

  /** The items of one recipe, in table order. */
  function ItemsOf<T>(rows: seq<Child<T>>, recipeId: int): seq<T>
  {
    if |rows| == 0 then []
    else (if rows[0].recipeId == recipeId then [rows[0].item] else []) + ItemsOf(rows[1..], recipeId)
  }

  /** `delete_by_recipe_id`: the table without the rows of one recipe. */
  function WithoutRecipe<T>(rows: seq<Child<T>>, recipeId: int): seq<Child<T>>
  {
    if |rows| == 0 then []
    else (if rows[0].recipeId == recipeId then [] else [rows[0]]) + WithoutRecipe(rows[1..], recipeId)
  }

  /** Every row of a child table belongs to one of the given recipes. */
  ghost predicate BelongTo<T>(rows: seq<Child<T>>, ids: set<int>)
  {
    forall i :: 0 <= i < |rows| ==> rows[i].recipeId in ids
  }

  lemma {:induction false} ItemsOfAppend<T>(a: seq<Child<T>>, b: seq<Child<T>>, recipeId: int)
    ensures ItemsOf(a + b, recipeId) == ItemsOf(a, recipeId) + ItemsOf(b, recipeId)
  {
    if |a| > 0 {
      assert (a + b)[1..] == a[1..] + b;
      ItemsOfAppend(a[1..], b, recipeId);
    } else {
      assert a + b == b;
    }
  }

  /** The rows built for one recipe hold exactly its items and nobody else's. */
  lemma {:induction false} ItemsOfAttach<T>(recipeId: int, items: seq<T>, other: int)
    ensures ItemsOf(Attach(recipeId, items), other) == if other == recipeId then items else []
  {
    if |items| > 0 {
      assert Attach(recipeId, items)[1..] == Attach(recipeId, items[1..]);
      ItemsOfAttach(recipeId, items[1..], other);
      if other == recipeId {
        assert [items[0]] + items[1..] == items;
      }
    }
  }

  /** After `delete_by_recipe_id` the recipe has no rows and every other recipe
      keeps its own. */
  lemma {:induction false} ItemsOfWithout<T>(rows: seq<Child<T>>, recipeId: int, other: int)
    ensures ItemsOf(WithoutRecipe(rows, recipeId), other) == if other == recipeId then [] else ItemsOf(rows, other)
  {
    if |rows| > 0 {
      var head := if rows[0].recipeId == recipeId then [] else [rows[0]];
      ItemsOfAppend(head, WithoutRecipe(rows[1..], recipeId), other);
      ItemsOfWithout(rows[1..], recipeId, other);
      if head != [] {
        assert ([rows[0]] + [])[1..] == [];
      }
    }
  }

  lemma {:induction false} WithoutRecipeBelongs<T>(rows: seq<Child<T>>, recipeId: int, ids: set<int>)
    requires BelongTo(rows, ids)
    ensures BelongTo(WithoutRecipe(rows, recipeId), ids - {recipeId})
  {
    if |rows| > 0 {
      assert rows[0].recipeId in ids;
      assert BelongTo(rows[1..], ids) by {
        forall i | 0 <= i < |rows[1..]| ensures rows[1..][i].recipeId in ids {
          assert rows[1..][i] == rows[i + 1];
        }
      }
      WithoutRecipeBelongs(rows[1..], recipeId, ids);
    }
  }

  /** Building rows one item at a time, as `_create_ingredients`,
      `_create_instructions` and `_create_tags` do before their bulk insert. */
  method BuildRows<T>(recipeId: int, items: seq<T>) returns (rows: seq<Child<T>>)
    ensures |rows| == |items|
    ensures forall i :: 0 <= i < |items| ==> rows[i] == Child(recipeId, items[i])
  {
    rows := [];
    var i := 0;
    while i < |items|
      invariant 0 <= i <= |items|
      invariant |rows| == i
      invariant forall k :: 0 <= k < i ==> rows[k] == Child(recipeId, items[k])
    {
      rows := rows + [Child(recipeId, items[i])];
      i := i + 1;
    }
  }

  /** The bulk insert of a child list: issued only for a non-empty list. */
  function IngredientWrites(recipeId: int, items: seq<Ingredient>): seq<Call>
  {
    if |items| > 0 then [BulkCreateIngredients(Attach(recipeId, items))] else []
  }

  function InstructionWrites(recipeId: int, items: seq<Instruction>): seq<Call>
  {
    if |items| > 0 then [BulkCreateInstructions(Attach(recipeId, items))] else []
  }

  function TagWrites(recipeId: int, items: seq<Tag>): seq<Call>
  {
    if |items| > 0 then [BulkCreateTags(Attach(recipeId, items))] else []
  }

  /** The scalar write of an update: one row update, only when some field was sent. */
  function ScalarWrites(recipeId: int, u: RecipeUpdate, slugify: string -> string): seq<Call>
  {
    if RecipeData(u) != map[] then [UpdateRecipeRow(recipeId, WithSlug(RecipeData(u), slugify))] else []
  }

  /** A child table after a sent collection replaced one recipe's rows; an
      unsent collection leaves the table as it is. */
  function ReplacedRows<T>(rows: seq<Child<T>>, recipeId: int, items: Option<seq<T>>): seq<Child<T>>
  {
    if items.Some? then WithoutRecipe(rows, recipeId) + Attach(recipeId, items.value) else rows
  }

  function IngredientReplaceWrites(recipeId: int, items: Option<seq<Ingredient>>): seq<Call>
  {
    if items.Some? then [DeleteIngredientsOf(recipeId)] + IngredientWrites(recipeId, items.value) else []
  }

  function InstructionReplaceWrites(recipeId: int, items: Option<seq<Instruction>>): seq<Call>
  {
    if items.Some? then [DeleteInstructionsOf(recipeId)] + InstructionWrites(recipeId, items.value) else []
  }

  function TagReplaceWrites(recipeId: int, items: Option<seq<Tag>>): seq<Call>
  {
    if items.Some? then [DeleteTagsOf(recipeId)] + TagWrites(recipeId, items.value) else []
  }

  /** The child-table writes of an update: delete-and-recreate for each child
      collection that was sent, ingredients first, then instructions, then tags. */
  function ChildWrites(recipeId: int, u: RecipeUpdate): seq<Call>
  {
    IngredientReplaceWrites(recipeId, u.ingredients)
    + InstructionReplaceWrites(recipeId, u.instructions)
    + TagReplaceWrites(recipeId, u.tags)
  }

  /** The repository writes of a successful update, in the order they are issued:
      the scalar fields if any was sent, then the child collections. */
  function UpdateWrites(recipeId: int, u: RecipeUpdate, slugify: string -> string): seq<Call>
  {
    ScalarWrites(recipeId, u, slugify) + ChildWrites(recipeId, u)
  }

  function RecsysCalls(calls: seq<RecsysCall>): seq<Call>
  {
    seq(|calls|, i requires 0 <= i < |calls| => Recsys(calls[i]))
  }

  /** An update that sends nothing writes nothing. */
  lemma EmptyUpdateWritesNothing(recipeId: int, slugify: string -> string)
    ensures UpdateWrites(recipeId, EmptyUpdate, slugify) == []
  {
    RecipeDataKeys(EmptyUpdate);
  }

  /** The row `create` inserts: unpublished, owned by the creator, slug from the title. */
  function NewRecipe(id: int, user: User, c: RecipeCreate, slugify: string -> string): Recipe
  {
    Recipe(id, slugify(c.title), c.title, c.shortDescription, c.difficulty, c.cookTimeMinutes,
           c.imagePath, user.id, false)
  }

  /** `if recipe_create.instructions`: a missing or empty list inserts nothing. */
  function CreatedInstructions(c: RecipeCreate): seq<Instruction>
  {
    if c.instructions.Some? then c.instructions.value else []
  }

  /** The repository writes of `create`, in the order they are issued. */
  function CreateWrites(id: int, user: User, c: RecipeCreate, slugify: string -> string): seq<Call>
  {
    [InsertRecipe(NewRecipe(id, user, c, slugify))]
    + IngredientWrites(id, c.ingredients)
    + InstructionWrites(id, CreatedInstructions(c))
    + TagWrites(id, c.tags)
  }

  /** A recipe created from a body within its bounds passes the read schema. */
  lemma CreatedViewReadable(id: int, user: User, c: RecipeCreate, slugify: string -> string)
    requires 0 < id && ValidRecipeCreate(c)
    ensures Readable(RecipeView(NewRecipe(id, user, c, slugify), c.ingredients, CreatedInstructions(c), c.tags))
  {
  }
  /** The tables behind the repositories the service uses: recipes by id and the
      three child tables, plus the id the recipe table assigns next. */
  datatype Store = Store(
    recipes: map<int, Recipe>,
    ingredients: seq<Child<Ingredient>>,
    instructions: seq<Child<Instruction>>,
    tags: seq<Child<Tag>>,
    nextRecipeId: int)
  {
    /** Ids are positive and below the next one, each row knows its own id, and
        every child row belongs to a stored recipe. */
    ghost predicate Valid()
    {
      && 0 < nextRecipeId
      && (forall id :: id in recipes ==> 0 < id < nextRecipeId && recipes[id].id == id)
      && BelongTo(ingredients, recipes.Keys)
      && BelongTo(instructions, recipes.Keys)
      && BelongTo(tags, recipes.Keys)
    }

    /** The recipe joined with its child rows, as `get_by_id` loads it. */
    function Joined(id: int): RecipeView
      requires id in recipes
    {
      RecipeView(recipes[id], ItemsOf(ingredients, id), ItemsOf(instructions, id), ItemsOf(tags, id))
    }
  }

  /** The tables after `create` has stored the recipe and its children. */
  function CreatedStore(s: Store, user: User, c: RecipeCreate, slugify: string -> string): Store
  {
    var id := s.nextRecipeId;
    Store(s.recipes[id := NewRecipe(id, user, c, slugify)],
          s.ingredients + Attach(id, c.ingredients),
          s.instructions + Attach(id, CreatedInstructions(c)),
          s.tags + Attach(id, c.tags),
          id + 1)
  }

  /** The tables after the write phase of `update`. */
  function UpdatedStore(s: Store, id: int, u: RecipeUpdate, slugify: string -> string): Store
    requires id in s.recipes
  {
    Store(s.recipes[id := UpdatedRow(s.recipes[id], u, slugify)],
          ReplacedRows(s.ingredients, id, u.ingredients),
          ReplacedRows(s.instructions, id, u.instructions),
          ReplacedRows(s.tags, id, u.tags),
          s.nextRecipeId)
  }

  /** The tables after `delete`. */
  function DeletedStore(s: Store, id: int): Store
  {
    Store(s.recipes - {id}, WithoutRecipe(s.ingredients, id), WithoutRecipe(s.instructions, id),
          WithoutRecipe(s.tags, id), s.nextRecipeId)
  }

  lemma {:induction false} AttachBelongs<T>(rows: seq<Child<T>>, id: int, items: seq<T>, ids: set<int>)
    requires BelongTo(rows, ids) && id in ids
    ensures BelongTo(rows + Attach(id, items), ids)
  {
    forall i | 0 <= i < |rows + Attach(id, items)| ensures (rows + Attach(id, items))[i].recipeId in ids {
      if i >= |rows| {
        assert (rows + Attach(id, items))[i] == Attach(id, items)[i - |rows|];
      } else {
        assert (rows + Attach(id, items))[i] == rows[i];
      }
    }
  }

  lemma {:induction false} BelongsToMore<T>(rows: seq<Child<T>>, ids: set<int>, more: set<int>)
    requires BelongTo(rows, ids) && ids <= more
    ensures BelongTo(rows, more)
  {
  }

  /** A recipe id no row refers to has no items. */
  lemma {:induction false} NoRowsOfFreshId<T>(rows: seq<Child<T>>, id: int, ids: set<int>)
    requires BelongTo(rows, ids) && id !in ids
    ensures ItemsOf(rows, id) == []
  {
    if |rows| > 0 {
      assert rows[0].recipeId in ids;
      assert BelongTo(rows[1..], ids) by {
        forall i | 0 <= i < |rows[1..]| ensures rows[1..][i].recipeId in ids {
          assert rows[1..][i] == rows[i + 1];
        }
      }
      NoRowsOfFreshId(rows[1..], id, ids);
    }
  }

  /** Appending the rows of a fresh recipe: it gets exactly its items, every other
      recipe keeps its own. */
  lemma AppendedItems<T>(rows: seq<Child<T>>, id: int, items: seq<T>, ids: set<int>, other: int)
    requires BelongTo(rows, ids) && id !in ids
    ensures ItemsOf(rows + Attach(id, items), other) == if other == id then items else ItemsOf(rows, other)
  {
    ItemsOfAppend(rows, Attach(id, items), other);
    ItemsOfAttach(id, items, other);
    if other == id {
      NoRowsOfFreshId(rows, id, ids);
    }
  }

  /** Delete-then-recreate of one recipe's rows: that recipe ends with exactly the
      new items, every other recipe with its old ones. */
  lemma ReplacedItems<T>(rows: seq<Child<T>>, recipeId: int, items: seq<T>, other: int)
    ensures ItemsOf(WithoutRecipe(rows, recipeId) + Attach(recipeId, items), other)
            == if other == recipeId then items else ItemsOf(rows, other)
  {
    ItemsOfAppend(WithoutRecipe(rows, recipeId), Attach(recipeId, items), other);
    ItemsOfWithout(rows, recipeId, other);
    ItemsOfAttach(recipeId, items, other);
  }

  /** After a delete the recipe has no child rows left in any table. */
  lemma DeleteCascades<T>(rows: seq<Child<T>>, recipeId: int)
    ensures ItemsOf(WithoutRecipe(rows, recipeId), recipeId) == []
  {
    ItemsOfWithout(rows, recipeId, recipeId);
  }

  /** `create` adds one unpublished recipe under a fresh id, holding exactly the
      sent children, and changes no other recipe. */
  lemma CreatedStoreJoined(s: Store, user: User, c: RecipeCreate, slugify: string -> string)
    requires s.Valid()
    ensures var t := CreatedStore(s, user, c, slugify); var id := s.nextRecipeId;
      && t.Valid()
      && id !in s.recipes
      && t.Joined(id) == RecipeView(NewRecipe(id, user, c, slugify), c.ingredients, CreatedInstructions(c), c.tags)
      && forall other :: other in s.recipes ==> other in t.recipes && t.Joined(other) == s.Joined(other)
  {
    var t := CreatedStore(s, user, c, slugify);
    var id := s.nextRecipeId;
    var keys := t.recipes.Keys;
    BelongsToMore(s.ingredients, s.recipes.Keys, keys);
    BelongsToMore(s.instructions, s.recipes.Keys, keys);
    BelongsToMore(s.tags, s.recipes.Keys, keys);
    AttachBelongs(s.ingredients, id, c.ingredients, keys);
    AttachBelongs(s.instructions, id, CreatedInstructions(c), keys);
    AttachBelongs(s.tags, id, c.tags, keys);
    forall other | other in t.recipes
      ensures ItemsOf(t.ingredients, other) == if other == id then c.ingredients else ItemsOf(s.ingredients, other)
      ensures ItemsOf(t.instructions, other) == if other == id then CreatedInstructions(c) else ItemsOf(s.instructions, other)
      ensures ItemsOf(t.tags, other) == if other == id then c.tags else ItemsOf(s.tags, other)
    {
      AppendedItems(s.ingredients, id, c.ingredients, s.recipes.Keys, other);
      AppendedItems(s.instructions, id, CreatedInstructions(c), s.recipes.Keys, other);
      AppendedItems(s.tags, id, c.tags, s.recipes.Keys, other);
    }
  }

  /** The write phase of `update` changes the one recipe as `ApplyUpdate` says and
      no other. */
  lemma UpdatedStoreJoined(s: Store, id: int, u: RecipeUpdate, slugify: string -> string)
    requires s.Valid() && id in s.recipes
    ensures var t := UpdatedStore(s, id, u, slugify);
      && t.Valid()
      && t.recipes.Keys == s.recipes.Keys
      && t.Joined(id) == ApplyUpdate(s.Joined(id), u, slugify)
      && forall other :: other in s.recipes && other != id ==> t.Joined(other) == s.Joined(other)
  {
    var t := UpdatedStore(s, id, u, slugify);
    PartialUpdateFields(s.recipes[id], u, slugify);
    assert t.recipes.Keys == s.recipes.Keys;
    if u.ingredients.Some? {
      WithoutRecipeBelongs(s.ingredients, id, s.recipes.Keys);
      BelongsToMore(WithoutRecipe(s.ingredients, id), s.recipes.Keys - {id}, s.recipes.Keys);
      AttachBelongs(WithoutRecipe(s.ingredients, id), id, u.ingredients.value, s.recipes.Keys);
    }
    if u.instructions.Some? {
      WithoutRecipeBelongs(s.instructions, id, s.recipes.Keys);
      BelongsToMore(WithoutRecipe(s.instructions, id), s.recipes.Keys - {id}, s.recipes.Keys);
      AttachBelongs(WithoutRecipe(s.instructions, id), id, u.instructions.value, s.recipes.Keys);
    }
    if u.tags.Some? {
      WithoutRecipeBelongs(s.tags, id, s.recipes.Keys);
      BelongsToMore(WithoutRecipe(s.tags, id), s.recipes.Keys - {id}, s.recipes.Keys);
      AttachBelongs(WithoutRecipe(s.tags, id), id, u.tags.value, s.recipes.Keys);
    }
    forall other | other in s.recipes
      ensures ItemsOf(t.ingredients, other)
              == if other == id && u.ingredients.Some? then u.ingredients.value else ItemsOf(s.ingredients, other)
      ensures ItemsOf(t.instructions, other)
              == if other == id && u.instructions.Some? then u.instructions.value else ItemsOf(s.instructions, other)
      ensures ItemsOf(t.tags, other)
              == if other == id && u.tags.Some? then u.tags.value else ItemsOf(s.tags, other)
    {
      if u.ingredients.Some? { ReplacedItems(s.ingredients, id, u.ingredients.value, other); }
      if u.instructions.Some? { ReplacedItems(s.instructions, id, u.instructions.value, other); }
      if u.tags.Some? { ReplacedItems(s.tags, id, u.tags.value, other); }
    }
  }

  /** `delete` removes the recipe and all of its child rows, and changes no other
      recipe. */
  lemma DeletedStoreJoined(s: Store, id: int)
    requires s.Valid()
    ensures var t := DeletedStore(s, id);
      && t.Valid()
      && id !in t.recipes
      && ItemsOf(t.ingredients, id) == [] && ItemsOf(t.instructions, id) == [] && ItemsOf(t.tags, id) == []
      && forall other :: other in t.recipes ==> other in s.recipes && t.Joined(other) == s.Joined(other)
  {
    var t := DeletedStore(s, id);
    WithoutRecipeBelongs(s.ingredients, id, s.recipes.Keys);
    WithoutRecipeBelongs(s.instructions, id, s.recipes.Keys);
    WithoutRecipeBelongs(s.tags, id, s.recipes.Keys);
    DeleteCascades(s.ingredients, id);
    DeleteCascades(s.instructions, id);
    DeleteCascades(s.tags, id);
    forall other | other in t.recipes
      ensures ItemsOf(t.ingredients, other) == ItemsOf(s.ingredients, other)
      ensures ItemsOf(t.instructions, other) == ItemsOf(s.instructions, other)
      ensures ItemsOf(t.tags, other) == ItemsOf(s.tags, other)
    {
      ItemsOfWithout(s.ingredients, id, other);
      ItemsOfWithout(s.instructions, id, other);
      ItemsOfWithout(s.tags, id, other);
    }
  }

  class RecipeService {
    /** the recipe, ingredient, instruction and tag repositories */
    var db: Store
    /** every write to a repository, the search index or the recommendation engine, in order */
    var log: seq<Call>
    /** `create_recipe_slug` */
    const slugify: string -> string
    /** the image gateway's `get_image_url` */
    const imageUrl: string -> string
    /** the image gateway's `generate_recipe_image_upload_url` */
    const uploadFor: int -> string

    constructor (slugify: string -> string, imageUrl: string -> string, uploadFor: int -> string)
      ensures db.Valid() && db.recipes == map[] && log == []
      ensures db.ingredients == [] && db.instructions == [] && db.tags == []
      ensures this.slugify == slugify && this.imageUrl == imageUrl && this.uploadFor == uploadFor
    {
      db := Store(map[], [], [], [], 1);
      log := [];
      this.slugify, this.imageUrl, this.uploadFor := slugify, imageUrl, uploadFor;
    }

    /** An image URL is resolved only for a non-empty stored path. */
    function ResolveUrl(path: Option<string>): Option<string>
    {
      if Truthy(path) then Some(imageUrl(path.value)) else None
    }

    /** `_to_recipe_schema`: the read schema validates the joined recipe; then the
        recipe's image URL and each instruction's image URL are resolved through
        the image gateway. */
    method ToRecipeSchema(v: RecipeView) returns (r: Result<RecipeRead>)
      ensures r.Ok? <==> Readable(v)
      ensures r.Err? ==> r.error == SchemaValidationFailed
      ensures r.Ok? ==> var s := r.value;
        && s.view == v
        && s.imageUrl == ResolveUrl(v.recipe.imagePath)
        && |s.instructions| == |v.instructions|
        && forall i :: 0 <= i < |v.instructions| ==>
             s.instructions[i] == InstructionRead(v.instructions[i], ResolveUrl(v.instructions[i].imagePath))
    {
      if !Readable(v) {
        return Err(SchemaValidationFailed);
      }
      var url := None;
      if Truthy(v.recipe.imagePath) {
        url := Some(imageUrl(v.recipe.imagePath.value));
      }
      var steps := seq(|v.instructions|, i requires 0 <= i < |v.instructions| => InstructionRead(v.instructions[i], None));
      var i := 0;
      while i < |steps|
        invariant 0 <= i <= |steps| == |v.instructions|
        invariant forall k :: 0 <= k < i ==> steps[k] == InstructionRead(v.instructions[k], ResolveUrl(v.instructions[k].imagePath))
        invariant forall k :: i <= k < |steps| ==> steps[k] == InstructionRead(v.instructions[k], None)
      {
        if Truthy(steps[i].instruction.imagePath) {
          steps := steps[i := steps[i].(imageUrl := Some(imageUrl(steps[i].instruction.imagePath.value)))];
        }
        i := i + 1;
      }
      r := Ok(RecipeRead(v, url, steps));
    }

    /** `get_by_id`: an absent recipe, and an unpublished one asked for by anyone
        but its author, are both reported as not found; a visible recipe the read
        schema refuses fails its validation. */
    method GetById(recipeId: int, viewer: Option<int>) returns (r: Result<RecipeRead>)
      ensures r.Ok? <==> recipeId in db.recipes && Visible(db.recipes[recipeId], viewer) && Readable(db.Joined(recipeId))
      ensures r.Err? ==> r.error == (if recipeId in db.recipes && Visible(db.recipes[recipeId], viewer)
                                     then SchemaValidationFailed else RecipeNotFound)
      ensures r.Ok? ==> r.value.view == db.Joined(recipeId)
    {
      if recipeId !in db.recipes
         || (!db.recipes[recipeId].isPublished && viewer != Some(db.recipes[recipeId].authorId)) {
        return Err(RecipeNotFound);
      }
      r := ToRecipeSchema(db.Joined(recipeId));
    }

    /** `get_by_slug`: not found only when no recipe has the slug; the service
        applies no visibility rule here; the recipe found must pass the read schema. */
    method GetBySlug(slug: string) returns (r: Result<RecipeRead>)
      requires db.Valid()
      ensures r == Err(RecipeNotFound) <==> forall id :: id in db.recipes ==> db.recipes[id].slug != slug
      ensures r.Err? ==> r.error == RecipeNotFound || r.error == SchemaValidationFailed
      ensures r == Err(SchemaValidationFailed) ==>
                exists id :: id in db.recipes && db.recipes[id].slug == slug && !Readable(db.Joined(id))
      ensures ((forall id :: id in db.recipes && db.recipes[id].slug == slug ==> Readable(db.Joined(id)))
               && (exists id :: id in db.recipes && db.recipes[id].slug == slug)) ==> r.Ok?
      ensures r.Ok? ==> var id := r.value.view.recipe.id;
                id in db.recipes && db.recipes[id].slug == slug && r.value.view == db.Joined(id)
    {
      if forall id :: id in db.recipes ==> db.recipes[id].slug != slug {
        return Err(RecipeNotFound);
      }
      var id :| id in db.recipes && db.recipes[id].slug == slug;
      r := ToRecipeSchema(db.Joined(id));
    }

    /** `get_image_upload_url`: ownership-checked, then one presigned upload. */
    method GetImageUploadUrl(user: User, recipeId: int) returns (r: Result<string>)
      ensures recipeId !in db.recipes ==> r == Err(RecipeNotFound)
      ensures recipeId in db.recipes && !MayModify(db.recipes[recipeId], user) ==> r == Err(RecipeOwnership)
      ensures recipeId in db.recipes && MayModify(db.recipes[recipeId], user) ==> r == Ok(uploadFor(recipeId))
    {
      var guard := ModifyGuard(if recipeId in db.recipes then Some(db.recipes[recipeId]) else None, user);
      if guard.Err? {
        return Err(guard.error);
      }
      r := Ok(uploadFor(recipeId));
    }

    /** `_create_ingredients`: the rows are built one by one and bulk-inserted
        only when there is at least one. */
    method CreateIngredients(recipeId: int, items: seq<Ingredient>)
      modifies this
      ensures db == old(db).(ingredients := old(db).ingredients + Attach(recipeId, items))
      ensures log == old(log) + IngredientWrites(recipeId, items)
    {
      var rows := BuildRows(recipeId, items);
      assert rows == Attach(recipeId, items);
      if |rows| > 0 {
        db := db.(ingredients := db.ingredients + rows);
        log := log + [BulkCreateIngredients(rows)];
      } else {
        assert db.ingredients + Attach(recipeId, items) == db.ingredients;
      }
    }

    /** `_create_instructions` */
    method CreateInstructions(recipeId: int, items: seq<Instruction>)
      modifies this
      ensures db == old(db).(instructions := old(db).instructions + Attach(recipeId, items))
      ensures log == old(log) + InstructionWrites(recipeId, items)
    {
      var rows := BuildRows(recipeId, items);
      assert rows == Attach(recipeId, items);
      if |rows| > 0 {
        db := db.(instructions := db.instructions + rows);
        log := log + [BulkCreateInstructions(rows)];
      } else {
        assert db.instructions + Attach(recipeId, items) == db.instructions;
      }
    }

    /** `_create_tags` */
    method CreateTags(recipeId: int, items: seq<Tag>)
      modifies this
      ensures db == old(db).(tags := old(db).tags + Attach(recipeId, items))
      ensures log == old(log) + TagWrites(recipeId, items)
    {
      var rows := BuildRows(recipeId, items);
      assert rows == Attach(recipeId, items);
      if |rows| > 0 {
        db := db.(tags := db.tags + rows);
        log := log + [BulkCreateTags(rows)];
      } else {
        assert db.tags + Attach(recipeId, items) == db.tags;
      }
    }

    /** `create`: the recipe is stored unpublished with a slug from its title and
        the non-empty child lists are bulk-inserted under the new id; the joined
        recipe is then validated by the read schema, and only when it passes is it
        indexed (once) and returned. The recommendation engine is not called. */
    method Create(user: User, c: RecipeCreate) returns (r: Result<RecipeRead>)
      requires db.Valid()
      modifies this
      ensures db.Valid()
      ensures db == CreatedStore(old(db), user, c, slugify)
      ensures var id := old(db).nextRecipeId;
        && id !in old(db).recipes
        && db.Joined(id) == RecipeView(NewRecipe(id, user, c, slugify), c.ingredients, CreatedInstructions(c), c.tags)
        && (r.Ok? <==> Readable(db.Joined(id)))
        && (r.Err? ==> r.error == SchemaValidationFailed)
        && (r.Ok? ==> r.value.view == db.Joined(id))
        && log == old(log) + CreateWrites(id, user, c, slugify)
                  + (if r.Ok? then [IndexRecipe(Document(db.Joined(id)))] else [])
      ensures ValidRecipeCreate(c) ==> r.Ok?
      ensures forall other :: other in old(db).recipes ==> other in db.recipes && db.Joined(other) == old(db).Joined(other)
    {
      var id := StoreCreated(user, c);
      CreatedStoreJoined(old(db), user, c, slugify);
      if ValidRecipeCreate(c) {
        CreatedViewReadable(id, user, c, slugify);
      }
      var created := db.Joined(id);
      if !Readable(created) {
        return Err(SchemaValidationFailed);
      }
      log := log + [IndexRecipe(Document(created))];
      r := ToRecipeSchema(created);
    }

    /** The write phase of `create`: the row, then the ingredients, the
        instructions when the list is truthy, and the tags. */
    method StoreCreated(user: User, c: RecipeCreate) returns (id: int)
      modifies this
      ensures id == old(db).nextRecipeId
      ensures db == CreatedStore(old(db), user, c, slugify)
      ensures log == old(log) + CreateWrites(id, user, c, slugify)
    {
      ghost var log0 := log;
      id := db.nextRecipeId;
      var row := NewRecipe(id, user, c, slugify);
      db := db.(recipes := db.recipes[id := row], nextRecipeId := id + 1);
      log := log + [InsertRecipe(row)];
      CreateIngredients(id, c.ingredients);
      if c.instructions.Some? && |c.instructions.value| > 0 {
        CreateInstructions(id, c.instructions.value);
      } else {
        assert db.instructions + Attach(id, CreatedInstructions(c)) == db.instructions;
      }
      CreateTags(id, c.tags);
      ghost var w0, w1, w2, w3 := [InsertRecipe(row)], IngredientWrites(id, c.ingredients),
        InstructionWrites(id, CreatedInstructions(c)), TagWrites(id, c.tags);
      assert log == log0 + w0 + w1 + w2 + w3;
      assert log0 + w0 + w1 + w2 + w3 == log0 + (w0 + w1 + w2 + w3);
    }

    /** `update`: not found, then ownership, then the two publish guards, all before
        any write; then the sent scalar fields, then delete-and-recreate of each
        sent child collection; then the re-read recipe is validated by the read
        schema, and only when it passes is it re-indexed once and the
        recommendation sync run. */
    method Update(user: User, recipeId: int, u: RecipeUpdate) returns (r: Result<RecipeRead>)
      requires db.Valid()
      modifies this
      ensures db.Valid()
      ensures recipeId !in old(db).recipes ==> r == Err(RecipeNotFound)
      ensures recipeId in old(db).recipes && !MayModify(old(db).recipes[recipeId], user) ==> r == Err(RecipeOwnership)
      ensures recipeId in old(db).recipes && MayModify(old(db).recipes[recipeId], user)
              && PublishCheck(old(db).Joined(recipeId), u).Err? ==>
                r == Err(PublishCheck(old(db).Joined(recipeId), u).error)
      ensures !(recipeId in old(db).recipes && MayModify(old(db).recipes[recipeId], user)
                && PublishCheck(old(db).Joined(recipeId), u).Ok?) ==>
                db == old(db) && log == old(log)
      ensures recipeId in old(db).recipes && MayModify(old(db).recipes[recipeId], user)
              && PublishCheck(old(db).Joined(recipeId), u).Ok? ==>
                && db == UpdatedStore(old(db), recipeId, u, slugify)
                && db.Joined(recipeId) == ApplyUpdate(old(db).Joined(recipeId), u, slugify)
                && (r.Ok? <==> Readable(db.Joined(recipeId)))
                && (r.Err? ==> r.error == SchemaValidationFailed)
                && (r.Ok? ==> r.value.view == db.Joined(recipeId))
                && log == old(log) + UpdateWrites(recipeId, u, slugify)
                          + (if r.Ok? then [IndexRecipe(Document(db.Joined(recipeId)))]
                                           + RecsysCalls(RecsysSync(old(db).Joined(recipeId), u))
                             else [])
                && forall other :: other in old(db).recipes && other != recipeId ==>
                     other in db.recipes && db.Joined(other) == old(db).Joined(other)
    {
      var guard := ModifyGuard(if recipeId in db.recipes then Some(db.recipes[recipeId]) else None, user);
      if guard.Err? {
        return Err(guard.error);
      }
      var existing := db.Joined(recipeId);
      var check := PublishCheck(existing, u);
      if check.Err? {
        return Err(check.error);
      }
      WriteUpdate(recipeId, u);
      UpdatedStoreJoined(old(db), recipeId, u, slugify);
      var updated := db.Joined(recipeId);
      if !Readable(updated) {
        assert log == old(log) + UpdateWrites(recipeId, u, slugify) + [];
        return Err(SchemaValidationFailed);
      }
      ghost var written := log;
      log := log + [IndexRecipe(Document(updated))];
      log := log + RecsysCalls(RecsysSync(existing, u));
      assert log == written + ([IndexRecipe(Document(updated))] + RecsysCalls(RecsysSync(existing, u)));
      r := ToRecipeSchema(updated);
    }

    /** The write phase of `update`: the sent scalar fields (with a new slug when
        the title is sent), then each sent child collection deleted and recreated. */
    method WriteUpdate(recipeId: int, u: RecipeUpdate)
      requires recipeId in db.recipes
      modifies this
      ensures db == UpdatedStore(old(db), recipeId, u, slugify)
      ensures log == old(log) + UpdateWrites(recipeId, u, slugify)
    {
      WriteScalars(recipeId, u);
      WriteChildren(recipeId, u);
    }

    /** Each sent child collection deleted and recreated, in table order. */
    method WriteChildren(recipeId: int, u: RecipeUpdate)
      modifies this
      ensures db == old(db).(ingredients := ReplacedRows(old(db).ingredients, recipeId, u.ingredients),
                             instructions := ReplacedRows(old(db).instructions, recipeId, u.instructions),
                             tags := ReplacedRows(old(db).tags, recipeId, u.tags))
      ensures log == old(log) + ChildWrites(recipeId, u)
    {
      ghost var log0 := log;
      ghost var w1 := IngredientReplaceWrites(recipeId, u.ingredients);
      ghost var w2 := InstructionReplaceWrites(recipeId, u.instructions);
      ghost var w3 := TagReplaceWrites(recipeId, u.tags);
      ReplaceIngredients(recipeId, u.ingredients);
      ReplaceInstructions(recipeId, u.instructions);
      ReplaceTags(recipeId, u.tags);
      assert log == log0 + w1 + w2 + w3;
      assert ChildWrites(recipeId, u) == w1 + w2 + w3;
      assert log0 + w1 + w2 + w3 == log0 + (w1 + w2 + w3);
    }

    /** `update_by_id` with the sent scalar fields and, when the title is sent, the new slug. */
    method WriteScalars(recipeId: int, u: RecipeUpdate)
      requires recipeId in db.recipes
      modifies this
      ensures db == old(db).(recipes := old(db).recipes[recipeId := UpdatedRow(old(db).recipes[recipeId], u, slugify)])
      ensures log == old(log) + ScalarWrites(recipeId, u, slugify)
    {
      var data := RecipeData(u);
      if data != map[] {
        var written := WithSlug(data, slugify);
        db := db.(recipes := db.recipes[recipeId := WriteFields(db.recipes[recipeId], written)]);
        log := log + [UpdateRecipeRow(recipeId, written)];
      } else {
        assert db.recipes[recipeId := db.recipes[recipeId]] == db.recipes;
      }
    }

    /** When the ingredients were sent: `delete_by_recipe_id` on them, then `_create_ingredients`. */
    method ReplaceIngredients(recipeId: int, items: Option<seq<Ingredient>>)
      modifies this
      ensures db == old(db).(ingredients := ReplacedRows(old(db).ingredients, recipeId, items))
      ensures log == old(log) + IngredientReplaceWrites(recipeId, items)
    {
      if items.Some? {
        db := db.(ingredients := WithoutRecipe(db.ingredients, recipeId));
        log := log + [DeleteIngredientsOf(recipeId)];
        CreateIngredients(recipeId, items.value);
      }
    }

    /** When the instructions were sent: `delete_by_recipe_id` on them, then `_create_instructions`. */
    method ReplaceInstructions(recipeId: int, items: Option<seq<Instruction>>)
      modifies this
      ensures db == old(db).(instructions := ReplacedRows(old(db).instructions, recipeId, items))
      ensures log == old(log) + InstructionReplaceWrites(recipeId, items)
    {
      if items.Some? {
        db := db.(instructions := WithoutRecipe(db.instructions, recipeId));
        log := log + [DeleteInstructionsOf(recipeId)];
        CreateInstructions(recipeId, items.value);
      }
    }

    /** When the tags were sent: `delete_by_recipe_id` on them, then `_create_tags`. */
    method ReplaceTags(recipeId: int, items: Option<seq<Tag>>)
      modifies this
      ensures db == old(db).(tags := ReplacedRows(old(db).tags, recipeId, items))
      ensures log == old(log) + TagReplaceWrites(recipeId, items)
    {
      if items.Some? {
        db := db.(tags := WithoutRecipe(db.tags, recipeId));
        log := log + [DeleteTagsOf(recipeId)];
        CreateTags(recipeId, items.value);
      }
    }

    /** `delete`: not found, then ownership; then the ingredients, the instructions,
        the tags, the recipe row and the search document, in that order. */
    method Delete(user: User, recipeId: int) returns (r: Result<()>)
      requires db.Valid()
      modifies this
      ensures db.Valid()
      ensures recipeId !in old(db).recipes ==> r == Err(RecipeNotFound)
      ensures recipeId in old(db).recipes && !MayModify(old(db).recipes[recipeId], user) ==> r == Err(RecipeOwnership)
      ensures recipeId in old(db).recipes && MayModify(old(db).recipes[recipeId], user) ==> r.Ok?
      ensures r.Err? ==> db == old(db) && log == old(log)
      ensures r.Ok? ==>
                && db == DeletedStore(old(db), recipeId)
                && recipeId !in db.recipes
                && ItemsOf(db.ingredients, recipeId) == [] && ItemsOf(db.instructions, recipeId) == []
                && ItemsOf(db.tags, recipeId) == []
                && log == old(log) + [DeleteIngredientsOf(recipeId), DeleteInstructionsOf(recipeId),
                                      DeleteTagsOf(recipeId), DeleteRecipeRow(recipeId),
                                      DeleteSearchDocument(recipeId)]
      ensures r.Ok? ==> forall other :: other in db.recipes ==>
                          other in old(db).recipes && db.Joined(other) == old(db).Joined(other)
    {
      var guard := ModifyGuard(if recipeId in db.recipes then Some(db.recipes[recipeId]) else None, user);
      if guard.Err? {
        return Err(guard.error);
      }
      DeleteRows(recipeId);
      DeletedStoreJoined(old(db), recipeId);
      r := Ok(());
    }

    /** The write phase of `delete`: the children, the row, then the search document. */
    method DeleteRows(recipeId: int)
      modifies this
      ensures db == DeletedStore(old(db), recipeId)
      ensures log == old(log) + [DeleteIngredientsOf(recipeId), DeleteInstructionsOf(recipeId),
                                 DeleteTagsOf(recipeId), DeleteRecipeRow(recipeId),
                                 DeleteSearchDocument(recipeId)]
    {
      db := db.(ingredients := WithoutRecipe(db.ingredients, recipeId));
      log := log + [DeleteIngredientsOf(recipeId)];
      db := db.(instructions := WithoutRecipe(db.instructions, recipeId));
      log := log + [DeleteInstructionsOf(recipeId)];
      db := db.(tags := WithoutRecipe(db.tags, recipeId));
      log := log + [DeleteTagsOf(recipeId)];
      db := db.(recipes := db.recipes - {recipeId});
      log := log + [DeleteRecipeRow(recipeId)];
      log := log + [DeleteSearchDocument(recipeId)];
    }
  }
}
