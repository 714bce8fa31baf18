/** The request schemas of a recipe: its children, the create and the partial
    update bodies, the step-number validator and the field bounds. */
module RecipeSchemas {
  import opened Common

  /** The most instructions a recipe holds, and the largest step number. */
  const MaxRecipeInstructionsCount := 25

  datatype Ingredient = Ingredient(name: string, quantity: Option<string>)

  datatype Instruction = Instruction(stepNumber: int, description: string, imagePath: Option<string>)

  datatype Tag = Tag(name: string)

  /** The body of a create request. The difficulty is an enumeration whose
      members are not part of this model, so it travels as its string value. */
  datatype RecipeCreate = RecipeCreate(
    title: string,
    shortDescription: string,
    difficulty: string,
    cookTimeMinutes: int,
    imagePath: Option<string>,
    instructions: Option<seq<Instruction>>,
    ingredients: seq<Ingredient>,
    tags: seq<Tag>)

  /** The body of a partial update. Scalar fields remember whether they were sent;
      for the collections an absent field and an explicit `null` both read as `None`. */
  datatype RecipeUpdate = RecipeUpdate(
    title: Patch<string>,
    shortDescription: Patch<string>,
    difficulty: Patch<string>,
    cookTimeMinutes: Patch<int>,
    isPublished: Patch<bool>,
    imagePath: Patch<Option<string>>,
    instructions: Option<seq<Instruction>>,
    ingredients: Option<seq<Ingredient>>,
    tags: Option<seq<Tag>>)

  /** The update that sends no field at all. */
  const EmptyUpdate := RecipeUpdate(Unset, Unset, Unset, Unset, Unset, Unset, None, None, None)

  function StepNumbers(instructions: seq<Instruction>): seq<int>
  {
    seq(|instructions|, i requires 0 <= i < |instructions| => instructions[i].stepNumber)
  }

  /** Python's `list(range(lo, hi))`. */
  function Range(lo: int, hi: int): seq<int>
    decreases hi - lo
  {
    if lo >= hi then [] else [lo] + Range(lo + 1, hi)
  }

  /** `validate_instructions_steps`: a missing or empty list passes; otherwise the
      step numbers, in order, must be exactly 1, 2, ..., n. */
  function ValidateInstructionsSteps(instructions: Option<seq<Instruction>>): (r: Result<Option<seq<Instruction>>>)
    ensures r.Ok? ==> r.value == instructions
    ensures r.Err? ==> r.error == StepNumbersNotSequential && instructions.Some?
  {
    if instructions.Some? && |instructions.value| > 0
       && StepNumbers(instructions.value) != Range(1, |instructions.value| + 1)
    then Err(StepNumbersNotSequential)
    else Ok(instructions)
  }

  /** Each instruction is numbered by its position, counting from 1. */
  predicate NumberedByPosition(instructions: seq<Instruction>)
  {
    forall i :: 0 <= i < |instructions| ==> instructions[i].stepNumber == i + 1
  }

  lemma {:induction false} RangeAt(lo: int, hi: int)
    requires lo <= hi
    ensures |Range(lo, hi)| == hi - lo
    ensures forall k :: 0 <= k < hi - lo ==> Range(lo, hi)[k] == lo + k
    decreases hi - lo
  {
    if lo < hi {
      RangeAt(lo + 1, hi);
    }
  }

  /** The validator accepts exactly the missing list and the lists numbered 1..n. */
  lemma ValidateInstructionsStepsIff(instructions: Option<seq<Instruction>>)
    ensures ValidateInstructionsSteps(instructions).Ok?
        <==> instructions.None? || NumberedByPosition(instructions.value)
  {
    if instructions.Some? {
      var xs := instructions.value;
      RangeAt(1, |xs| + 1);
      var steps := StepNumbers(xs);
      if NumberedByPosition(xs) {
        assert steps == Range(1, |xs| + 1);
      } else {
        var i :| 0 <= i < |xs| && xs[i].stepNumber != i + 1;
        assert steps[i] != Range(1, |xs| + 1)[i];
      }
    }
  }

  // Field bounds of the schemas.

  predicate TitleInBounds(title: string) { 3 <= |title| <= 135 }

  predicate ShortDescriptionInBounds(d: string) { 3 <= |d| <= 255 }

  predicate ImagePathInBounds(p: Option<string>) { p.Some? ==> |p.value| <= 255 }

  predicate ValidIngredient(i: Ingredient)
  {
    2 <= |i.name| <= 135 && (i.quantity.Some? ==> |i.quantity.value| <= 30)
  }

  predicate ValidInstruction(s: Instruction)
  {
    0 < s.stepNumber <= MaxRecipeInstructionsCount
    && |s.description| <= 255
    && ImagePathInBounds(s.imagePath)
  }

  predicate ValidTag(t: Tag) { 2 <= |t.name| <= 50 }

  /** The `instructions` field of both bodies: at most 25 entries, each in bounds,
      numbered 1..n. */
  predicate ValidInstructions(instructions: Option<seq<Instruction>>)
  {
    && ValidateInstructionsSteps(instructions).Ok?
    && (instructions.Some? ==>
          && |instructions.value| <= MaxRecipeInstructionsCount
          && forall i :: 0 <= i < |instructions.value| ==> ValidInstruction(instructions.value[i]))
  }

  predicate ValidRecipeCreate(c: RecipeCreate)
  {
    && TitleInBounds(c.title)
    && ShortDescriptionInBounds(c.shortDescription)
    && c.cookTimeMinutes > 0
    && ImagePathInBounds(c.imagePath)
    && ValidInstructions(c.instructions)
    && 1 <= |c.ingredients| <= 50
    && (forall i :: 0 <= i < |c.ingredients| ==> ValidIngredient(c.ingredients[i]))
    && 1 <= |c.tags| <= 15
    && (forall i :: 0 <= i < |c.tags| ==> ValidTag(c.tags[i]))
  }

  /** Every field is optional; a sent field obeys the same bound as in the create
      body, except that the update's ingredient and tag lists carry no count bound. */
  predicate ValidRecipeUpdate(u: RecipeUpdate)
  {
    && (u.title.Set? ==> TitleInBounds(u.title.value))
    && (u.shortDescription.Set? ==> ShortDescriptionInBounds(u.shortDescription.value))
    && (u.cookTimeMinutes.Set? ==> u.cookTimeMinutes.value > 0)
    && (u.imagePath.Set? ==> ImagePathInBounds(u.imagePath.value))
    && ValidInstructions(u.instructions)
    && (u.ingredients.Some? ==>
          forall i :: 0 <= i < |u.ingredients.value| ==> ValidIngredient(u.ingredients.value[i]))
    && (u.tags.Some? ==> forall i :: 0 <= i < |u.tags.value| ==> ValidTag(u.tags.value[i]))
  }

  /** The update that sets every field to what a create body carries. */
  function AsUpdate(c: RecipeCreate): RecipeUpdate
  {
    RecipeUpdate(Set(c.title), Set(c.shortDescription), Set(c.difficulty), Set(c.cookTimeMinutes),
                 Unset, Set(c.imagePath), c.instructions, Some(c.ingredients), Some(c.tags))
  }

  /** The step-number bound already implies the count bound: a list numbered 1..n
      whose step numbers are at most 25 has at most 25 entries. */
  lemma StepBoundImpliesCountBound(instructions: seq<Instruction>)
    requires NumberedByPosition(instructions)
    requires forall i :: 0 <= i < |instructions| ==> ValidInstruction(instructions[i])
    ensures |instructions| <= MaxRecipeInstructionsCount
  {
    if |instructions| > 0 {
      var last := |instructions| - 1;
      assert instructions[last].stepNumber == |instructions|;
      assert ValidInstruction(instructions[last]);
    }
  }

  /** A valid create body has its instructions, when present, numbered by position. */
  lemma ValidCreateNumbersInstructions(c: RecipeCreate)
    requires ValidRecipeCreate(c)
    ensures c.instructions.Some? ==> NumberedByPosition(c.instructions.value)
  {
    ValidateInstructionsStepsIff(c.instructions);
  }

  /** The update body is no stricter than the create body: a valid create body,
      sent as an update of every field, is a valid update. */
  lemma CreateBodyIsValidUpdate(c: RecipeCreate)
    requires ValidRecipeCreate(c)
    ensures ValidRecipeUpdate(AsUpdate(c))
  {
  }

  /** Every field is optional: the update that sends nothing is valid. */
  lemma EmptyUpdateIsValid()
    ensures ValidRecipeUpdate(EmptyUpdate)
  {
  }
}
