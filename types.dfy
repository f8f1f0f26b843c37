/**
 * Shapes of the records the application reads from and writes to its hosted
 * database (src/types/database.ts). They carry no behaviour of their own.
 */
module RecipeTypes {
  import opened Wrappers

  datatype RecipeCategory = Cooking | Baking | Beverage | Other
  datatype RecipeVisibility = Private | Household | Followers | Public

  /** Every unit an ingredient quantity may be given in. */
  datatype UnitType =
    | Tsp | Tbsp | Cup | FlOz | Pint | Quart | Gallon
    | Oz | Lb
    | Ml | L | G | Kg
    | Pinch | Dash
    | Piece | Whole | Slice | Clove | Sprig | Leaf
    | ToTaste | AsNeeded

  /**
   * A quantity as the editors hold it. The source keeps it as a JavaScript
   * float produced by parseFloat; the model never computes with it.
   */
  type Quantity = real

  datatype Recipe = Recipe(
    id: string,
    authorId: Option<string>,
    householdId: string,
    parentRecipeId: Option<string>,
    title: string,
    description: Option<string>,
    category: RecipeCategory,
    visibility: RecipeVisibility,
    prepTimeMinutes: Option<int>,
    cookTimeMinutes: Option<int>,
    servings: int,
    sourceUrl: Option<string>,
    imageUrl: Option<string>,
    createdAt: string,
    updatedAt: string)

  datatype Ingredient = Ingredient(
    id: string,
    recipeId: string,
    name: string,
    qtyImperial: Option<Quantity>,
    unitImperial: Option<UnitType>,
    qtyMetric: Option<Quantity>,
    unitMetric: Option<UnitType>,
    sortOrder: int,
    notes: Option<string>)

  datatype Instruction = Instruction(
    id: string,
    recipeId: string,
    stepNumber: int,
    content: string,
    durationMinutes: Option<int>,
    temperature: Option<string>)

  datatype CookingNote = CookingNote(
    id: string,
    recipeId: string,
    userId: string,
    cookedOn: string,
    multiplier: Quantity,
    rating: Option<int>,
    notes: Option<string>,
    photoUrl: Option<string>,
    createdAt: string)

  /** An image row; `instructionId` is None for a recipe's main images. */
  datatype RecipeImage = RecipeImage(
    id: string,
    recipeId: string,
    instructionId: Option<string>,
    url: string,
    storagePath: string,
    caption: Option<string>,
    orderIndex: int,
    createdAt: string)

  /**
   * A recipe as the detail views hold it: the row plus the related lists a
   * query may have joined in (absent when the query did not ask for them).
   */
  datatype RecipeWithDetails = RecipeWithDetails(
    recipe: Recipe,
    ingredients: Option<seq<Ingredient>>,
    instructions: Option<seq<Instruction>>,
    images: Option<seq<RecipeImage>>)
}
