/**
 * The "Save for Shopping" button of a recipe page
 * (src/components/recipe/OfflineControl.tsx): it shows whether the recipe is
 * in the offline cache and saves or removes it when pressed.
 */
module OfflineToggle {
  import opened Wrappers
  import opened RecipeTypes
  import opened OfflineStorage

  class OfflineControl {
    // the component's props
    const recipe: RecipeWithDetails
    const ingredients: seq<Ingredient>
    const instructions: seq<Instruction>
    const notes: seq<CookingNote>
    // the component's state
    var isOffline: bool
    var loading: bool
    var isSupported: bool

    /** The recipe id the control saves and removes. */
    function Id(): string { recipe.recipe.id }

    /** The button shows the cache as it is: the flag is membership of the recipe's id. */
    predicate InSync(store: OfflineStore)
      reads this, store
    {
      isOffline == (Id() in store.records)
    }

    /** Without storage support the component renders nothing, so there is no button to press. */
    predicate Rendered()
      reads this
    {
      isSupported
    }

    /** First render: not offline, loading, support not yet known. */
    constructor (recipe: RecipeWithDetails, ingredients: seq<Ingredient>, instructions: seq<Instruction>, notes: seq<CookingNote>)
      ensures this.recipe == recipe && this.ingredients == ingredients
      ensures this.instructions == instructions && this.notes == notes
      ensures !isOffline && loading && !isSupported
    {
      this.recipe := recipe;
      this.ingredients := ingredients;
      this.instructions := instructions;
      this.notes := notes;
      isOffline := false;
      loading := true;
      isSupported := false;
    }

    /**
     * `checkSupport`, run when the recipe id changes. `hasIndexedDB` is whether
     * the browser offers IndexedDB; `lookupFails` is whether the membership
     * lookup rejects. That rejection is not caught, so the handler stops before
     * it clears `loading`.
     */
    method CheckSupport(store: OfflineStore, hasIndexedDB: bool, lookupFails: bool)
      requires store.Valid()
      modifies this
      ensures isSupported == (old(isSupported) || hasIndexedDB)
      ensures hasIndexedDB && !lookupFails ==> InSync(store)
      ensures !hasIndexedDB || lookupFails ==> isOffline == old(isOffline)
      ensures loading == (if hasIndexedDB && lookupFails then old(loading) else false)
    {
      if hasIndexedDB {
        isSupported := true;
        if lookupFails {
          return;
        }
        var offline := store.IsRecipeOffline(Id());
        isOffline := offline;
      }
      loading := false;
    }

    /**
     * `toggleOffline`, the button's click handler. The button is only there
     * when storage is supported and is disabled while loading. `storageFails`
     * is whether the store call rejects; a rejected put or delete leaves the
     * store as it was, the error is reported and the flag keeps its value.
     */
    method ToggleOffline(store: OfflineStore, now: int, storageFails: bool)
      requires Rendered() && !loading
      requires store.Valid()
      modifies this, store
      ensures store.Valid()
      ensures store.records ==
        if storageFails then old(store.records)
        else if old(isOffline) then Delete(old(store.records), Id())
        else Put(old(store.records), Snapshot(recipe, ingredients, instructions, Some(notes), now))
      ensures isOffline == if storageFails then old(isOffline) else !old(isOffline)
      ensures !loading && isSupported == old(isSupported)
      ensures old(InSync(store)) ==> InSync(store)
      ensures !storageFails ==> InSync(store)
    {
      loading := true;
      if !storageFails {
        if isOffline {
          store.RemoveOfflineRecipe(Id());
          isOffline := false;
        } else {
          store.SaveRecipeOffline(recipe, ingredients, instructions, Some(notes), now);
          isOffline := true;
        }
      }
      loading := false;
    }
  }
}
