# Virtual Recipe Box: a verified model of its client-side core

Virtual Recipe Box is a Next.js/React application for keeping, sharing and
cooking from family recipes. This project models, in Dafny, the parts of its
client that hold logic and state of their own:

- the **offline recipe cache** (`src/lib/offline-storage.ts`): an IndexedDB
  object store keyed by recipe id with a `by-title` index. Here it is a class
  whose map of records the save and remove operations update. Listing the
  cache returns every record once, sorted by title and then by id.
- the **"Save for Shopping" button** (`OfflineControl.tsx`): a class with the
  component's three state flags. Its handlers keep the flag equal to
  membership of the recipe in the cache.
- the **heart button** (`FavoriteButton.tsx`): a favourites table of
  (user, recipe) rows, and the component's `isFavorite` and `loading` flags.
- **session timing** (`session-manager.ts`):
  - the "remember me" preference slot;
  - the token lifetime that preference selects;
  - when a session is refreshed and when it is checked again.
- the **auth context** (`AuthProvider.tsx`): the signed-in user, the loading
  flag and the re-authentication overlay. It is a transition function over the
  events the provider reacts to, and a class whose handlers follow it.
- **biometric sign-in** (`biometric-auth.ts`):
  - feature detection;
  - the credential descriptor kept in localStorage;
  - the buffer/Base64 conversions;
  - registration and authentication, with their error messages;
  - the device name read from the user agent.
- the **ingredient and instruction editors** (`IngredientInput.tsx`,
  `InstructionInput.tsx`):
  - add, remove and update are pure list edits;
  - drag-to-reorder moves an item in place in an array;
  - instructions are renumbered `1..n` after a removal or a drag. Adding a step appends it with number length + 1 and renumbers nothing.
- the **recipe list page** (`src/app/recipes/page.tsx`):
  - the card image chosen for each recipe;
  - the favourites set;
  - the search/category/favourites filter;
  - how prep and cook times are written out.

Network calls, the clock, the platform authenticator and browser storage
failures are inputs to the operations. They are not modelled as processes.

Modules:

| file | module | what it holds |
|---|---|---|
| `wrappers.dfy` | `Wrappers` | `Option` |
| `types.dfy` | `RecipeTypes` | the database row types the core uses |
| `text.dfy` | `Text` | the string operations:<br>• `includes` / regular-expression word tests<br>• ASCII lower-casing<br>• decimal rendering and reading of integers<br>• code-point string order |
| `list_ops.dfy` | `ListOps` | the list edits and the drag move, both as a function and in place on an array |
| `offline_storage.dfy` | `OfflineStorage` | the offline cache |
| `offline_control.dfy` | `OfflineToggle` | the offline button |
| `favorite_button.dfy` | `Favorites` | the heart button and the favourites table |
| `session_manager.dfy` | `SessionManager` | session timing |
| `auth_provider.dfy` | `AuthProvider` | the auth context |
| `biometric_auth.dfy` | `BiometricAuth` | WebAuthn sign-in |
| `ingredient_input.dfy` | `IngredientInput` | the ingredient editor |
| `instruction_input.dfy` | `InstructionInput` | the instruction editor |
| `recipes_page.dfy` | `RecipeList` | the recipe list page |

## Model

| member | source | states |
|---|---|---|
| `OfflineStorage.Snapshot` | src/lib/offline-storage.ts:33-47 | the stored record is the recipe spread with the given ingredients, instructions and save time. Missing notes default to the empty list. |
| `OfflineStorage.Put` | src/lib/offline-storage.ts:40-46 | `put` by key: afterwards the record is under its own id and the other keys keep their records. It preserves the keyed-by-id invariant. |
| `OfflineStorage.Delete` | src/lib/offline-storage.ts:54-57 | `delete` by key: only that key goes, and deleting a missing key changes nothing. |
| `OfflineStorage.DeleteUndoesPut` | src/lib/offline-storage.ts:33-57 | removing a recipe that was just saved restores the cache. |
| `OfflineStorage.PutIdempotent` | src/lib/offline-storage.ts:33-47 | saving the same record twice equals saving it once. |
| `OfflineStorage.ListedBeforeTotal` | src/lib/offline-storage.ts:28 | any two records are ordered by the `by-title` index one way or the other. |
| `OfflineStorage.ListedBeforeTransitive` | src/lib/offline-storage.ts:28 | the index order is transitive. |
| `OfflineStorage.InsertPosition` | src/lib/offline-storage.ts:59-62 | the slot of a record in a sorted listing: everything before it comes no later, and the item at it comes after. |
| `OfflineStorage.InsertByTitleSorted` | src/lib/offline-storage.ts:59-62 | inserting at that slot keeps the listing sorted. |
| `OfflineStorage.OfflineStore.constructor` | src/lib/offline-storage.ts:22-31 | a freshly created store is empty. |
| `OfflineStorage.OfflineStore.SaveRecipeOffline` | src/lib/offline-storage.ts:33-47 | the new cache is the old one with the snapshot put under the recipe's id. |
| `OfflineStorage.OfflineStore.GetOfflineRecipe` | src/lib/offline-storage.ts:49-52 | it returns the record stored under the id, or nothing when the id is absent. |
| `OfflineStorage.OfflineStore.RemoveOfflineRecipe` | src/lib/offline-storage.ts:54-57 | the new cache is the old one without the id. |
| `OfflineStorage.OfflineStore.IsRecipeOffline` | src/lib/offline-storage.ts:64-68 | true exactly when the id is in the cache. |
| `OfflineStorage.OfflineStore.GetAllOfflineRecipes` | src/lib/offline-storage.ts:59-62 | the listing has as many entries as the cache has records. It is sorted by title then id, every entry is the stored record for its id, every record appears, and no id appears twice. |
| `OfflineStorage.ListingStep` | src/lib/offline-storage.ts:59-62 | one step of the index scan keeps the scan invariant. |
| `OfflineStorage.StepListsExactly` | src/lib/offline-storage.ts:59-62 | after one step of the scan, the listed records are exactly those no longer pending. |
| `OfflineToggle.OfflineControl.constructor` | src/components/recipe/OfflineControl.tsx:21-23 | first render: not offline, loading, support unknown. |
| `OfflineToggle.OfflineControl.CheckSupport` | src/components/recipe/OfflineControl.tsx:29-37 | with IndexedDB present, support is set and the flag becomes cache membership. A rejected lookup leaves `loading` as it was. Without IndexedDB only `loading` is cleared. |
| `OfflineToggle.OfflineControl.ToggleOffline` | src/components/recipe/OfflineControl.tsx:39-55 | removes the recipe when it is cached, and saves a snapshot with the notes otherwise. On success the flag flips and matches the cache. On failure the cache and flag are unchanged. `loading` ends false. |
| `Favorites.FavoritesTable.constructor` | src/components/recipe/FavoriteButton.tsx:27-32 | a table holding the given rows. |
| `Favorites.FavoriteButton.constructor` | src/components/recipe/FavoriteButton.tsx:16-17 | first render: not a favourite, not loading. |
| `Favorites.FavoriteButton.CheckFavoriteStatus` | src/components/recipe/FavoriteButton.tsx:23-39 | with a user and no error, the heart equals row membership. `PGRST116` clears it. Another error, or no user, leaves it alone. |
| `Favorites.FavoriteButton.ToggleFavorite` | src/components/recipe/FavoriteButton.tsx:41-73 | no user, or a toggle already under way: nothing changes. Otherwise the row is deleted or inserted and the heart flips. A failure changes neither. Other users' rows are never added. `loading` ends false, and on success the heart matches the table. |
| `Favorites.ToggleTwice` | src/components/recipe/FavoriteButton.tsx:41-73 | two successful presses restore the table and the heart. |
| `SessionManager.PreferenceFor` | src/lib/session-manager.ts:42-45 | the written preference remembers the flag and picks `long` exactly when it is set. |
| `SessionManager.SessionDurationSeconds` | src/lib/session-manager.ts:73-75 | 60 days (5184000 s) when remembered, else 1 day (86400 s). |
| `SessionManager.FloorSeconds` | src/lib/session-manager.ts:85 | a whole second is at or before `Math.floor(now/1000)` exactly when its milliseconds are at or before `now`. |
| `SessionManager.ShouldRefreshSession` | src/lib/session-manager.ts:82-90 | false without an expiry. Otherwise true exactly from 299 s before expiry onwards, i.e. fewer than 300 whole seconds left. |
| `SessionManager.GetNextCheckTime` | src/lib/session-manager.ts:95-107 | always one minute or five. One minute exactly when an expiry is known and fewer than 600 whole seconds remain. |
| `SessionManager.RefreshDueMeansFrequentChecks` | src/lib/session-manager.ts:82-107 | a session due for refresh is checked every minute. |
| `SessionManager.PreferenceSlot.constructor` | src/lib/session-manager.ts:6 | the slot starts with the given contents. |
| `SessionManager.PreferenceSlot.GetSessionPreference` | src/lib/session-manager.ts:19-34 | the stored preference when it parses. Otherwise, or outside a browser, the default (not remembered, short). |
| `SessionManager.PreferenceSlot.SetSessionPreference` | src/lib/session-manager.ts:39-52 | stores the preference for the flag. Outside a browser, or when the write throws, nothing changes. |
| `SessionManager.PreferenceSlot.ClearSessionPreference` | src/lib/session-manager.ts:57-65 | empties the slot, in a browser, unless `removeItem` throws. A throw is logged and leaves the slot as it was. |
| `SessionManager.PreferenceSlot.GetSessionDuration` | src/lib/session-manager.ts:70-76 | the lifetime of the given preference, or else of the stored one. |
| `SessionManager.SetThenGet` | src/lib/session-manager.ts:19-52 | reading after writing gives the preference for the written flag. |
| `SessionManager.ClearThenGet` | src/lib/session-manager.ts:19-65 | reading after clearing gives the default. |
| `AuthProvider.Next` | src/components/auth/AuthProvider.tsx:23-85 | opening inputs show the overlay and closing inputs hide it; any other input leaves it. A rejected sign-out closes nothing. The session lookup and auth events set the user from the session and end loading. No other input touches user or loading. |
| `AuthProvider.HiddenChangesNothing` | src/components/auth/AuthProvider.tsx:44-46 | a visibility change to anything but `visible` changes nothing. |
| `AuthProvider.ModalTransitions` | src/components/auth/AuthProvider.tsx:23-85 | the overlay appears only on an opening input and disappears only on a closing one. |
| `AuthProvider.ModalStaysHidden` | src/components/auth/AuthProvider.tsx:33-60 | with no opening input, a hidden overlay stays hidden over any run of inputs. |
| `AuthProvider.LoadingNeverResumes` | src/components/auth/AuthProvider.tsx:25-41 | once loading has ended, no run of inputs restarts it. |
| `AuthProvider.AuthContext.constructor` | src/components/auth/AuthProvider.tsx:18-20 | mounting: no user, loading, overlay hidden, nowhere navigated. |
| `AuthProvider.AuthContext.OnInitialSession` | src/components/auth/AuthProvider.tsx:25-28 | the state follows `Next` for the first session lookup. |
| `AuthProvider.AuthContext.OnAuthStateChange` | src/components/auth/AuthProvider.tsx:33-41 | the state follows `Next` for the auth event. |
| `AuthProvider.AuthContext.HandleVisibilityChange` | src/components/auth/AuthProvider.tsx:44-60 | the state follows `Next` for the visibility change, the session lookup and the refresh outcome. |
| `AuthProvider.AuthContext.SignOut` | src/components/auth/AuthProvider.tsx:72-75 | the state follows `Next`: the overlay is hidden once the sign-out resolves. A rejected sign-out leaves the state as it was. |
| `AuthProvider.AuthContext.HandleReauthSuccess` | src/components/auth/AuthProvider.tsx:77-79 | the overlay is hidden. |
| `AuthProvider.AuthContext.HandleReauthClose` | src/components/auth/AuthProvider.tsx:81-85 | the overlay is hidden and `/offline` is appended to the navigations. |
| `BiometricAuth.IsBiometricSupported` | src/lib/biometric-auth.ts:20-26 | WebAuthn is supported exactly when there is a window, `PublicKeyCredential` exists and `navigator.credentials` exists. |
| `BiometricAuth.IsPlatformAuthenticatorAvailable` | src/lib/biometric-auth.ts:31-40 | true exactly when WebAuthn is supported and the platform probe answered true. A rejected probe gives false. |
| `BiometricAuth.RegistrationErrorMessage` | src/lib/biometric-auth.ts:103-112 | "cancelled" exactly for `NotAllowedError`, the generic failure otherwise. |
| `BiometricAuth.AuthenticationErrorMessage` | src/lib/biometric-auth.ts:159-167 | "cancelled" exactly for `NotAllowedError`, the generic failure otherwise. |
| `BiometricAuth.GetDeviceName` | src/lib/biometric-auth.ts:224-234 | each of the six labels is returned exactly when its word is in the user agent and no earlier word is. |
| `BiometricAuth.BinaryOf` | src/lib/biometric-auth.ts:239-246 | one char per byte, all below 256. |
| `BiometricAuth.BytesOf` | src/lib/biometric-auth.ts:251-258 | one byte per char. |
| `BiometricAuth.BytesOfBinaryOf` | src/lib/biometric-auth.ts:239-258 | bytes to binary string and back is the identity. |
| `BiometricAuth.BinaryOfBytesOf` | src/lib/biometric-auth.ts:239-258 | a binary string to bytes and back is the identity. |
| `BiometricAuth.BufferRoundTrip` | src/lib/biometric-auth.ts:239-258 | with a sound Base64 codec, decoding an encoded buffer gives it back. |
| `BiometricAuth.ArrayBufferToBase64` | src/lib/biometric-auth.ts:239-246 | the loop builds the binary string of the buffer and encodes it. |
| `BiometricAuth.Base64ToArrayBuffer` | src/lib/biometric-auth.ts:251-258 | decodes the text, then fills a byte array char by char. Undecodable text gives nothing. |
| `BiometricAuth.EncodeThenDecode` | src/lib/biometric-auth.ts:239-258 | the two conversions chained return the original bytes. |
| `BiometricAuth.CredentialSlot.constructor` | src/lib/biometric-auth.ts:8 | the slot starts with the given contents. |
| `BiometricAuth.CredentialSlot.GetBiometricCredential` | src/lib/biometric-auth.ts:193-206 | the stored descriptor when one parses, else nothing. |
| `BiometricAuth.CredentialSlot.HasBiometricCredential` | src/lib/biometric-auth.ts:186-188 | true exactly when a descriptor can be read. |
| `BiometricAuth.CredentialSlot.SaveBiometricCredential` | src/lib/biometric-auth.ts:211-219 | stores the descriptor. Outside a browser, or when the write throws, nothing changes. |
| `BiometricAuth.CredentialSlot.RemoveBiometricCredential` | src/lib/biometric-auth.ts:173-181 | empties the slot in a browser unless `removeItem` throws. A throw is logged and leaves the slot as it was. Without a throw, no descriptor can be read afterwards. |
| `BiometricAuth.RegisterBiometric` | src/lib/biometric-auth.ts:45-113 | fails with "not supported" when unsupported. On creation, returns and stores the descriptor with the encoded raw id, the device name and the time. No credential gives the generic failure; an error gives its message. Failure paths leave the slot. |
| `BiometricAuth.AuthenticateWithBiometric` | src/lib/biometric-auth.ts:118-168 | the result is one of:<br>• "not supported";<br>• "no credential";<br>• a failure when the stored key does not decode;<br>• success on any assertion;<br>• the mapped message on an error. |
| `BiometricAuth.RegisterThenAuthenticate` | src/lib/biometric-auth.ts:45-168 | after a stored registration, a credential is found and authentication succeeds. |
| `ListOps.RemoveAt` | src/components/recipe/IngredientInput.tsx:35-37 | `filter` by index: drops exactly position `index`. Any other index leaves the list as it is. |
| `ListOps.InsertAt` | src/components/recipe/IngredientInput.tsx:60 | `splice(index, 0, x)`: `x` lands at `index` with the rest shifted. |
| `ListOps.MoveAt` | src/components/recipe/IngredientInput.tsx:54-60 | where every element of a moved list comes from. |
| `ListOps.MovePermutation` | src/components/recipe/IngredientInput.tsx:54-60 | a move is a permutation. |
| `ListOps.Move` | src/components/recipe/IngredientInput.tsx:54-60 | the drag move (also `InstructionInput.tsx:59-65`): the list keeps its length and the dragged item lands at the target. |
| `ListOps.MoveKeepsOrder` | src/components/recipe/IngredientInput.tsx:54-60 | the other items keep their relative order. |
| `ListOps.MoveUndo` | src/components/recipe/IngredientInput.tsx:54-60 | dragging back undoes a drag. |
| `ListOps.MoveInPlace` | src/components/recipe/IngredientInput.tsx:54-60 | the array afterwards is the move of the array before. |
| `IngredientInput.UnitListsPartition` | src/components/recipe/IngredientInput.tsx:13-15 | every unit is in exactly one of the three unit menus. |
| `IngredientInput.AddIngredient` | src/components/recipe/IngredientInput.tsx:20-33 | appends a blank row whose `sort_order` is the old length. |
| `IngredientInput.RemoveIngredient` | src/components/recipe/IngredientInput.tsx:35-37 | drops exactly the row at `index`. Out-of-range indexes change nothing. |
| `IngredientInput.RemoveUndoesAdd` | src/components/recipe/IngredientInput.tsx:20-37 | removing the row just added restores the list. |
| `IngredientInput.WithField` | src/components/recipe/IngredientInput.tsx:41 | the set field reads back as set, and every other field is kept. |
| `IngredientInput.UpdateIngredient` | src/components/recipe/IngredientInput.tsx:39-43 | only row `index` changes, and only in the named field. |
| `IngredientInput.UpdateUndo` | src/components/recipe/IngredientInput.tsx:39-43 | writing back the old value of a field restores the list. |
| `IngredientInput.IngredientEditor.constructor` | src/components/recipe/IngredientInput.tsx:18 | nothing is being dragged. |
| `IngredientInput.IngredientEditor.HandleDragStart` | src/components/recipe/IngredientInput.tsx:45-47 | remembers the dragged row. |
| `IngredientInput.IngredientEditor.HandleDragOver` | src/components/recipe/IngredientInput.tsx:49-64 | nothing happens without a drag, or over the dragged row itself. Otherwise the list is the move to `index` and the drag follows the row. |
| `IngredientInput.IngredientEditor.HandleDragEnd` | src/components/recipe/IngredientInput.tsx:66-68 | the drag ends and the list is kept. |
| `InstructionInput.Bodies` | src/components/recipe/InstructionInput.tsx:40 | the steps with their numbers taken off, position by position. |
| `InstructionInput.Renumber` | src/components/recipe/InstructionInput.tsx:40 | numbers the steps `1..n` and changes nothing else. |
| `InstructionInput.RenumberNumbered` | src/components/recipe/InstructionInput.tsx:40 | renumbering a numbered list changes nothing. |
| `InstructionInput.AddInstruction` | src/components/recipe/InstructionInput.tsx:24-35 | appends an empty step numbered length + 1, keeping a numbered list numbered. |
| `InstructionInput.RemoveInstruction` | src/components/recipe/InstructionInput.tsx:37-42 | the steps other than `index`, in order, renumbered. |
| `InstructionInput.RemoveOutOfRange` | src/components/recipe/InstructionInput.tsx:37-42 | on a numbered list, removing an absent index changes nothing. |
| `InstructionInput.RemoveUndoesAdd` | src/components/recipe/InstructionInput.tsx:24-42 | removing the step just added restores a numbered list. |
| `InstructionInput.WithField` | src/components/recipe/InstructionInput.tsx:46 | the set field reads back as set, and every other field and the step number are kept. |
| `InstructionInput.UpdateInstruction` | src/components/recipe/InstructionInput.tsx:44-48 | only step `index` changes, and only in the named field. The numbering is kept. |
| `InstructionInput.BodiesOfRemove` | src/components/recipe/InstructionInput.tsx:39-40 | dropping step numbers commutes with removing a step. |
| `InstructionInput.BodiesOfInsert` | src/components/recipe/InstructionInput.tsx:65 | dropping step numbers commutes with inserting a step. |
| `InstructionInput.BodiesOfMove` | src/components/recipe/InstructionInput.tsx:59-65 | dropping step numbers commutes with the drag move. |
| `InstructionInput.DraggedSteps` | src/components/recipe/InstructionInput.tsx:54-71 | after a drag, the steps are numbered, are a permutation of the old contents, hold the dragged step at the target, and keep the others in order. |
| `InstructionInput.InstructionEditor.constructor` | src/components/recipe/InstructionInput.tsx:22 | nothing is being dragged. |
| `InstructionInput.InstructionEditor.HandleDragStart` | src/components/recipe/InstructionInput.tsx:50-52 | remembers the dragged step. |
| `InstructionInput.InstructionEditor.HandleDragOver` | src/components/recipe/InstructionInput.tsx:54-71 | nothing happens without a drag, or over the dragged step itself. Otherwise the list is the move to `index`, renumbered, and the drag follows the step. |
| `InstructionInput.InstructionEditor.HandleDragEnd` | src/components/recipe/InstructionInput.tsx:73-75 | the drag ends and the list is kept. |
| `RecipeList.FormatTime` | src/app/recipes/page.tsx:82-88 | nothing for a missing or zero time. Otherwise:<br>• `<m>m` under an hour;<br>• `<h>h` for whole hours;<br>• `<h>h <m>m` for the rest;<br>• `-<m>m` for a negative time. |
| `RecipeList.FormatTimeReadsBack` | src/app/recipes/page.tsx:82-88 | every non-zero time, negative ones included, reads back from its text. |
| `RecipeList.FormatTimeInjective` | src/app/recipes/page.tsx:82-88 | different non-zero times are never written the same way. |
| `RecipeList.FindImage` | src/app/recipes/page.tsx:51 | the first image of the recipe, or nothing exactly when none belongs to it. |
| `RecipeList.DisplayImage` | src/app/recipes/page.tsx:50-57 | the main image's URL when it is non-empty. With no image of the recipe (or no image data), the legacy `image_url`. |
| `RecipeList.WithDisplayImages` | src/app/recipes/page.tsx:50-57 | every loaded recipe, in order, gets its card image. |
| `RecipeList.LoadRecipes` | src/app/recipes/page.tsx:31-65 | a failed query keeps the list. Otherwise the list is the answer, in order. |
| `RecipeList.LoadFavorites` | src/app/recipes/page.tsx:67-80 | with a user and no error, the set is exactly the recipes with a favourite row for that user. Otherwise it is unchanged. |
| `RecipeList.MatchesSearch` | src/app/recipes/page.tsx:93-99 | an empty query matches everything. Otherwise the lower-cased query must occur in the lower-cased title or in the lower-cased description, if there is one. |
| `RecipeList.SearchIgnoresQueryCase` | src/app/recipes/page.tsx:94-97 | lower-casing the query first does not change what it matches. |
| `RecipeList.MatchesCategory` | src/app/recipes/page.tsx:101-104 | "all" matches every recipe. Any other choice matches only recipes with exactly that category. |
| `RecipeList.Kept` | src/app/recipes/page.tsx:93-109 | a recipe is kept when it matches the search and the category, and, with favourites only, is a favourite. |
| `RecipeList.FilterRecipes` | src/app/recipes/page.tsx:91-112 | an order-preserving sublist holding exactly the recipes that pass all three filters, each as many times as in the list:<br>• search in the lower-cased title or description;<br>• the category;<br>• favourites. |
| `RecipeList.NoFiltersKeepsAll` | src/app/recipes/page.tsx:91-112 | with no search, all categories and favourites off, every recipe is shown. |
| `Text.Contains` | src/app/recipes/page.tsx:95-97 | `includes`: true exactly when `sub` occurs at some position. |
| `Text.ToLower` | src/app/recipes/page.tsx:94-97 | same length, each char lower-cased. |
| `Text.NatToString` | src/app/recipes/page.tsx:84-87 | the decimal text of a count: non-empty, all digits, no leading zero. |
| `Text.NatToStringInjective` | src/app/recipes/page.tsx:84-87 | different counts never get the same decimal text. |
| `Text.IntToString` | src/app/recipes/page.tsx:84 | the text of an integer: its digits, with a `-` in front when it is negative. |
| `Text.DecimalRoundTrip` | src/app/recipes/page.tsx:84-87 | the decimal text of a number reads back as that number. |
| `Text.IntRoundTrip` | src/app/recipes/page.tsx:84 | the text of a possibly negative integer reads back as that integer. |
| `Text.StringLeTransitive` | src/lib/offline-storage.ts:28 | the code-point order on strings is transitive. |
| `Text.StringLeAntisymmetric` | src/lib/offline-storage.ts:28 | the code-point order on strings is antisymmetric. |

## Left out

- Network calls are not modelled as processes. Every Supabase query, `auth.getSession`, `refreshSession` and `signOut` appears as its outcome, passed in as a parameter. Concurrent handlers, re-entrancy across `await` and React's batching are also not modelled: each handler runs to completion.
- `Date.now()`, `navigator.userAgent` and the platform authenticator are parameters too. So is whether a `localStorage` write or removal throws. A read that throws is folded into stored contents that cannot be parsed.
- `btoa`/`atob` are a parameter codec, assumed only to be inverse on the strings `btoa` produces. Base64 itself is not part of this model.
- The WebAuthn option objects are out:
  - the random challenge, relying-party and user fields;
  - the algorithms, timeout and authenticator selection.
  Only their outcomes (created/nothing/error, asserted/nothing/error) are in.
- `authenticateWithBiometric` never checks the assertion on a server; the model keeps that behaviour.
- `SessionManager.PreferenceSlot.GetSessionPreference`: stored text that parses as JSON but is not a preference, such as `null`, `true` or `{}`, is read as the default. The source returns the parsed value unchecked (`session-manager.ts:27`). For a stored `null`, `getSessionDuration` then throws a TypeError on `pref.rememberMe` (`session-manager.ts:71-75`). The model has no such failure.
- `BiometricAuth.CredentialSlot.GetBiometricCredential`: a value that parses as JSON but is not a credential descriptor is treated as unreadable. The source would return it unchecked.
- `Text.ToLower`: lower-cases ASCII letters only. Unicode case mapping is not modelled.
- `OfflineStorage.OfflineStore.GetAllOfflineRecipes`: the model orders titles, then ids, by Unicode code point. IndexedDB compares strings by UTF-16 code unit. The two orders differ only when titles mix characters in U+E000–U+FFFF with supplementary-plane characters (U+10000 and above). IndexedDB's key ordering for non-string titles is not modelled.
- `OfflineStorage.Snapshot`: the stored record keeps only the fields in the model's recipe type. The `author` join, `is_favorite` and `parent_recipe` are dropped, although the offline detail view reads the author (`src/app/recipes/[id]/page.tsx`).
- `IngredientInput.UpdateIngredient` / `InstructionInput.UpdateInstruction`: they require an in-range index. JavaScript would grow the array for an index at the end, but the editors only pass indexes of rendered rows.
- `IngredientInput.IngredientEditor.HandleDragOver` / `InstructionInput.InstructionEditor.HandleDragOver`: they require the dragged index to be in range. The source reads `undefined` out of range, which a drag cannot produce.
- `RecipeList.FormatTime`: works on integers. Fractional minutes are not modelled.
- Not modelled:
  - rendering, styling, `alert` and `console.error`;
  - the author join, the `is_favorite` field and the `loading` flag of the list page;
  - the `disabled` attribute beyond the requires clauses it induces.
- The rest of the repository is not part of this model:
  - the other pages, the API route, the PWA helpers;
  - `ShareModal`, `ImageUpload`, `ReauthModal`, `BiometricSetup`.
