/**
 * The heart button of a recipe page (src/components/recipe/FavoriteButton.tsx):
 * it shows whether the signed-in user has favourited the recipe and adds or
 * removes the favourite when pressed.
 */
module Favorites {
  import opened Wrappers

  /** PostgREST's "no single row" error code, which the status check does not treat as a failure. */
  const NoRowsCode: string := "PGRST116"

  /** The `user_favorites` table, as the set of its (user id, recipe id) rows. */
  class FavoritesTable {
    var rows: set<(string, string)>

    constructor (rows: set<(string, string)>)
      ensures this.rows == rows
    {
      this.rows := rows;
    }
  }

  class FavoriteButton {
    // the component's prop
    const recipeId: string
    // the component's state
    var isFavorite: bool
    var loading: bool

    /** The heart shows the table as it is for this user and recipe. */
    predicate InSync(table: FavoritesTable, userId: string)
      reads this, table
    {
      isFavorite == ((userId, recipeId) in table.rows)
    }

    /** First render: not a favourite, not busy. */
    constructor (recipeId: string)
      ensures this.recipeId == recipeId
      ensures !isFavorite && !loading
    {
      this.recipeId := recipeId;
      isFavorite := false;
      loading := false;
    }

    /**
     * `checkFavoriteStatus`, run when the recipe or the user changes. `user` is
     * the signed-in user's id; `errorCode` is the code of the error the lookup
     * answers with, if any. A "no single row" answer counts as no row; any other
     * error is logged and leaves the heart as it was.
     */
    method CheckFavoriteStatus(table: FavoritesTable, user: Option<string>, errorCode: Option<string>)
      modifies this
      ensures loading == old(loading)
      ensures user.None? || (errorCode.Some? && errorCode.value != NoRowsCode) ==> isFavorite == old(isFavorite)
      ensures user.Some? && errorCode.Some? && errorCode.value == NoRowsCode ==> !isFavorite
      ensures user.Some? && errorCode.None? ==> InSync(table, user.value)
    {
      if user.None? {
        return;
      }
      if errorCode.Some? && errorCode.value != NoRowsCode {
        return;
      }
      var found := errorCode.None? && (user.value, recipeId) in table.rows;
      isFavorite := found;
    }

    /**
     * `toggleFavorite`, the button's click handler. Nothing happens without a
     * signed-in user or while a toggle is under way. Otherwise the row is
     * deleted when the heart is full and inserted when it is empty; `fails` is
     * whether the database answers with an error, which is logged and leaves the
     * heart as it was. Either way the button is usable again afterwards.
     */
    method ToggleFavorite(table: FavoritesTable, user: Option<string>, fails: bool)
      modifies this, table
      ensures user.None? || old(loading) ==>
        table.rows == old(table.rows) && isFavorite == old(isFavorite) && loading == old(loading)
      ensures user.Some? && !old(loading) ==> !loading
      ensures user.Some? && !old(loading) && fails ==>
        table.rows == old(table.rows) && isFavorite == old(isFavorite)
      ensures user.Some? && !old(loading) && !fails && old(isFavorite) ==>
        table.rows == old(table.rows) - {(user.value, recipeId)} && !isFavorite
      ensures user.Some? && !old(loading) && !fails && !old(isFavorite) ==>
        table.rows == old(table.rows) + {(user.value, recipeId)} && isFavorite
      ensures user.Some? && !old(loading) && !fails ==> InSync(table, user.value)
      ensures user.Some? ==> forall r :: r in table.rows && r.0 != user.value ==> r in old(table.rows)
    {
      if user.None? || loading {
        return;
      }
      loading := true;
      if !fails {
        if isFavorite {
          table.rows := table.rows - {(user.value, recipeId)};
          isFavorite := false;
        } else {
          table.rows := table.rows + {(user.value, recipeId)};
          isFavorite := true;
        }
      }
      loading := false;
    }
  }

  /**
   * Two successful presses by the same user leave the table as it was and the
   * heart as it was, when the heart showed the table to begin with.
   */
  method ToggleTwice(button: FavoriteButton, table: FavoritesTable, userId: string)
    requires !button.loading && button.InSync(table, userId)
    modifies button, table
    ensures table.rows == old(table.rows)
    ensures button.isFavorite == old(button.isFavorite)
    ensures button.InSync(table, userId)
  {
    button.ToggleFavorite(table, Some(userId), false);
    button.ToggleFavorite(table, Some(userId), false);
  }
}
