/**
 * The offline recipe cache (src/lib/offline-storage.ts): one object store,
 * keyed by recipe id, holding a full snapshot of a recipe, and an index on the
 * title through which the whole cache is listed.
 */
module OfflineStorage {
  import opened Wrappers
  import opened RecipeTypes
  import opened Text

  /**
   * A stored snapshot: the recipe's own fields spread in, then the lists
   * passed to the save call and the time of that call.
   */
  datatype OfflineRecipe = OfflineRecipe(
    recipe: Recipe,
    images: Option<seq<RecipeImage>>,
    ingredients: seq<Ingredient>,
    instructions: seq<Instruction>,
    notes: seq<CookingNote>,
    savedAt: int)
  {
    /** The store's key path. */
    function Id(): string { recipe.id }
    function Title(): string { recipe.title }
  }

  /**
   * The record `{...recipe, ingredients, instructions, notes, savedAt}`: the
   * lists passed in replace whatever lists the recipe value carried, and
   * omitted notes are stored as an empty list.
   */
  function Snapshot(
    recipe: RecipeWithDetails,
    ingredients: seq<Ingredient>,
    instructions: seq<Instruction>,
    notes: Option<seq<CookingNote>>,
    savedAt: int): (r: OfflineRecipe)
    ensures r.Id() == recipe.recipe.id && r.recipe == recipe.recipe && r.images == recipe.images
    ensures r.ingredients == ingredients && r.instructions == instructions && r.savedAt == savedAt
    ensures notes.None? ==> r.notes == []
    ensures notes.Some? ==> r.notes == notes.value
  {
    OfflineRecipe(recipe.recipe, recipe.images, ingredients, instructions,
                  match notes case Some(n) => n case None => [], savedAt)
  }

  /** Every record sits under its own id (the store's key path is `id`). */
  ghost predicate Keyed(m: map<string, OfflineRecipe>) {
    forall id :: id in m ==> m[id].Id() == id
  }

  /** `put`: insert or fully replace the record under its id; nothing else changes. */
  function Put(m: map<string, OfflineRecipe>, rec: OfflineRecipe): (r: map<string, OfflineRecipe>)
    ensures rec.Id() in r && r[rec.Id()] == rec
    ensures r.Keys == m.Keys + {rec.Id()}
    ensures forall id :: id in m && id != rec.Id() ==> r[id] == m[id]
    ensures Keyed(m) ==> Keyed(r)
  {
    m[rec.Id() := rec]
  }

  /** `delete`: remove the record under `id` if there is one; nothing else changes. */
  function Delete(m: map<string, OfflineRecipe>, id: string): (r: map<string, OfflineRecipe>)
    ensures r.Keys == m.Keys - {id}
    ensures forall k :: k in r ==> r[k] == m[k]
    ensures id !in m ==> r == m
    ensures Keyed(m) ==> Keyed(r)
  {
    m - {id}
  }

  /** Removing a recipe that was just saved leaves the other records as they were. */
  lemma DeleteUndoesPut(m: map<string, OfflineRecipe>, rec: OfflineRecipe)
    requires rec.Id() !in m
    ensures Delete(Put(m, rec), rec.Id()) == m
  {
    var r := Delete(Put(m, rec), rec.Id());
    assert r.Keys == m.Keys;
  }

  /** Saving the same snapshot twice is the same as saving it once. */
  lemma PutIdempotent(m: map<string, OfflineRecipe>, rec: OfflineRecipe)
    ensures Put(Put(m, rec), rec) == Put(m, rec)
  {
  }

  /**
   * The order of the `by-title` index: by title, and records with equal
   * titles by their key, both compared character by character (by code point).
   */
  predicate ListedBefore(a: OfflineRecipe, b: OfflineRecipe) {
    (a.Title() != b.Title() && StringLe(a.Title(), b.Title())) ||
    (a.Title() == b.Title() && StringLe(a.Id(), b.Id()))
  }

  predicate SortedByTitle(s: seq<OfflineRecipe>) {
    forall i, j :: 0 <= i < j < |s| ==> ListedBefore(s[i], s[j])
  }

  lemma ListedBeforeTotal(a: OfflineRecipe, b: OfflineRecipe)
    ensures ListedBefore(a, b) || ListedBefore(b, a)
  {
    StringLeTotal(a.Title(), b.Title());
    StringLeTotal(a.Id(), b.Id());
  }

  lemma ListedBeforeTransitive(a: OfflineRecipe, b: OfflineRecipe, c: OfflineRecipe)
    requires ListedBefore(a, b) && ListedBefore(b, c)
    ensures ListedBefore(a, c)
  {
    if a.Title() == b.Title() && b.Title() == c.Title() {
      StringLeTransitive(a.Id(), b.Id(), c.Id());
    } else {
      StringLeReflexive(a.Title());
      StringLeReflexive(b.Title());
      StringLeTransitive(a.Title(), b.Title(), c.Title());
      assert a.Title() != c.Title() by {
        if a.Title() == c.Title() {
          StringLeAntisymmetric(a.Title(), b.Title());
          assert false;
        }
      }
    }
  }

  /** Where the index order puts `x` among the records of a sorted list. */
  function InsertPosition(s: seq<OfflineRecipe>, x: OfflineRecipe): (p: nat)
    ensures p <= |s|
    ensures forall i :: 0 <= i < p ==> !ListedBefore(x, s[i])
    ensures p < |s| ==> ListedBefore(x, s[p])
  {
    if |s| == 0 || ListedBefore(x, s[0]) then 0 else 1 + InsertPosition(s[1..], x)
  }

  /** Places `x` in a list sorted by the index order, keeping it sorted. */
  function InsertByTitle(s: seq<OfflineRecipe>, x: OfflineRecipe): (r: seq<OfflineRecipe>)
  {
    var p := InsertPosition(s, x);
    s[..p] + [x] + s[p..]
  }

  lemma InsertByTitleSorted(s: seq<OfflineRecipe>, x: OfflineRecipe)
    requires SortedByTitle(s)
    ensures SortedByTitle(InsertByTitle(s, x))
  {
    var p := InsertPosition(s, x);
    var r := InsertByTitle(s, x);
    forall i | 0 <= i < p ensures ListedBefore(s[i], x) {
      ListedBeforeTotal(x, s[i]);
    }
    forall i | p <= i < |s| ensures ListedBefore(x, s[i]) {
      if i > p { ListedBeforeTransitive(x, s[p], s[i]); }
    }
    forall i, j | 0 <= i < j < |r| ensures ListedBefore(r[i], r[j]) {
      if i < p && j > p {
        ListedBeforeTransitive(s[i], x, s[j - 1]);
      }
    }
  }

  /** The cache: the object store `recipes` of the database `recipe-box-offline`. */
  class OfflineStore {
    var records: map<string, OfflineRecipe>

    ghost predicate Valid()
      reads this
    {
      Keyed(records)
    }

    /** Opening the database for the first time creates an empty store. */
    constructor ()
      ensures Valid() && records == map[]
    {
      records := map[];
    }

    /** `saveRecipeOffline`: overwrites the snapshot for the recipe's id, stamped `now`. */
    method SaveRecipeOffline(
      recipe: RecipeWithDetails,
      ingredients: seq<Ingredient>,
      instructions: seq<Instruction>,
      notes: Option<seq<CookingNote>>,
      now: int)
      requires Valid()
      modifies this
      ensures Valid()
      ensures records == Put(old(records), Snapshot(recipe, ingredients, instructions, notes, now))
    {
      records := Put(records, Snapshot(recipe, ingredients, instructions, notes, now));
    }

    /** `getOfflineRecipe`: the snapshot stored under `id`, or nothing. */
    method GetOfflineRecipe(id: string) returns (r: Option<OfflineRecipe>)
      ensures r.Some? <==> id in records
      ensures r.Some? ==> r.value == records[id]
    {
      if id in records {
        r := Some(records[id]);
      } else {
        r := None;
      }
    }

    /** `removeOfflineRecipe`: deletes the snapshot under `id`; an absent id is not an error. */
    method RemoveOfflineRecipe(id: string)
      requires Valid()
      modifies this
      ensures Valid()
      ensures records == Delete(old(records), id)
    {
      records := Delete(records, id);
    }

    /** `isRecipeOffline`: whether a lookup of `id` finds a snapshot. */
    method IsRecipeOffline(id: string) returns (b: bool)
      ensures b <==> id in records
    {
      var rec := GetOfflineRecipe(id);
      b := rec.Some?;
    }

    /**
     * `getAllOfflineRecipes`: a scan of the `by-title` index, returning every
     * snapshot once, in index order.
     */
    method GetAllOfflineRecipes() returns (r: seq<OfflineRecipe>)
      requires Valid()
      ensures |r| == |records|
      ensures SortedByTitle(r)
      ensures forall i :: 0 <= i < |r| ==> r[i].Id() in records && records[r[i].Id()] == r[i]
      ensures forall id :: id in records ==> records[id] in r
      ensures forall i, j :: 0 <= i < j < |r| ==> r[i].Id() != r[j].Id()
    {
      var pending := records.Keys;
      r := [];
      while pending != {}
        invariant ListingSoFar(records, pending, r)
        decreases |pending|
      {
        var id :| id in pending;
        var p := InsertPosition(r, records[id]);
        ListingStep(records, pending, r, id);
        r := r[..p] + [records[id]] + r[p..];
        pending := pending - {id};
      }
    }
  }

  /**
   * The state of the index scan: what is listed is sorted, and the keys still
   * `pending` are exactly those whose records are not listed yet.
   */
  ghost predicate ListingSoFar(records: map<string, OfflineRecipe>, pending: set<string>, r: seq<OfflineRecipe>) {
    && pending <= records.Keys
    && |r| + |pending| == |records|
    && SortedByTitle(r)
    && ListsExactly(records, pending, r)
  }

  /** `r` lists, once each, the records whose keys are not `pending`. */
  ghost predicate ListsExactly(records: map<string, OfflineRecipe>, pending: set<string>, r: seq<OfflineRecipe>) {
    && (forall i :: 0 <= i < |r| ==> r[i].Id() in records && r[i].Id() !in pending && records[r[i].Id()] == r[i])
    && (forall id :: id in records && id !in pending ==> records[id] in r)
    && (forall i, j :: 0 <= i < j < |r| ==> r[i].Id() != r[j].Id())
  }

  lemma ListingStep(records: map<string, OfflineRecipe>, pending: set<string>, r: seq<OfflineRecipe>, id: string)
    requires Keyed(records) && ListingSoFar(records, pending, r) && id in pending
    ensures
      var p := InsertPosition(r, records[id]);
      ListingSoFar(records, pending - {id}, r[..p] + [records[id]] + r[p..])
  {
    var p := InsertPosition(r, records[id]);
    InsertByTitleSorted(r, records[id]);
    StepListsExactly(records, pending, r, id, p);
  }

  /** Where each item of `r` with `x` inserted at `p` comes from. */
  lemma InsertedAt(r: seq<OfflineRecipe>, p: nat, x: OfflineRecipe, i: nat)
    requires p <= |r| && i <= |r|
    ensures |r[..p] + [x] + r[p..]| == |r| + 1
    ensures (r[..p] + [x] + r[p..])[i] == if i < p then r[i] else if i == p then x else r[i - 1]
  {
  }

  lemma StepListsExactly(records: map<string, OfflineRecipe>, pending: set<string>, r: seq<OfflineRecipe>, id: string, p: nat)
    requires Keyed(records) && ListsExactly(records, pending, r) && id in pending && id in records && p <= |r|
    ensures ListsExactly(records, pending - {id}, r[..p] + [records[id]] + r[p..])
  {
    StepKeepsEntries(records, pending, r, id, p);
    StepCoversKeys(records, pending, r, id, p);
    StepKeepsIdsDistinct(records, pending, r, id, p);
  }

  lemma StepKeepsEntries(records: map<string, OfflineRecipe>, pending: set<string>, r: seq<OfflineRecipe>, id: string, p: nat)
    requires Keyed(records) && ListsExactly(records, pending, r) && id in pending && id in records && p <= |r|
    ensures var next := r[..p] + [records[id]] + r[p..];
      forall i :: 0 <= i < |next| ==> next[i].Id() in records && next[i].Id() !in pending - {id} && records[next[i].Id()] == next[i]
  {
    var next := r[..p] + [records[id]] + r[p..];
    InsertedAt(r, p, records[id], 0);
    forall i | 0 <= i < |next|
      ensures next[i].Id() in records && next[i].Id() !in pending - {id} && records[next[i].Id()] == next[i]
    {
      InsertedAt(r, p, records[id], i);
      if i != p {
        var k := if i < p then i else i - 1;
        assert next[i] == r[k];
      }
    }
  }

  lemma StepCoversKeys(records: map<string, OfflineRecipe>, pending: set<string>, r: seq<OfflineRecipe>, id: string, p: nat)
    requires Keyed(records) && ListsExactly(records, pending, r) && id in pending && id in records && p <= |r|
    ensures var next := r[..p] + [records[id]] + r[p..];
      forall k :: k in records && k !in pending - {id} ==> records[k] in next
  {
    var next := r[..p] + [records[id]] + r[p..];
    forall k | k in records && k !in pending - {id} ensures records[k] in next {
      if k != id {
        var i :| 0 <= i < |r| && r[i] == records[k];
        var j := if i < p then i else i + 1;
        InsertedAt(r, p, records[id], j);
        assert next[j] == records[k];
      } else {
        InsertedAt(r, p, records[id], p);
        assert next[p] == records[id];
      }
    }
  }

  lemma StepKeepsIdsDistinct(records: map<string, OfflineRecipe>, pending: set<string>, r: seq<OfflineRecipe>, id: string, p: nat)
    requires Keyed(records) && ListsExactly(records, pending, r) && id in pending && id in records && p <= |r|
    ensures var next := r[..p] + [records[id]] + r[p..];
      forall i, j :: 0 <= i < j < |next| ==> next[i].Id() != next[j].Id()
  {
    var next := r[..p] + [records[id]] + r[p..];
    InsertedAt(r, p, records[id], 0);
    forall i, j | 0 <= i < j < |next| ensures next[i].Id() != next[j].Id() {
      InsertedAt(r, p, records[id], i);
      InsertedAt(r, p, records[id], j);
      var a := if i < p then i else i - 1;
      var b := if j < p then j else j - 1;
      if i != p && j != p {
        assert next[i] == r[a] && next[j] == r[b] && a < b;
      } else if i == p {
        assert next[j] == r[b];
      } else {
        assert next[i] == r[a];
      }
    }
  }
}
