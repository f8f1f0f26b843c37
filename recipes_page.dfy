/**
 * The logic of the recipe list page (src/app/recipes/page.tsx): the image each
 * card shows, the search / category / favourites filter, and the way prep and
 * cook times are written out.
 */
module RecipeList {
  import opened Wrappers
  import opened RecipeTypes
  import opened Text

  // ---------------------------------------------------------------------------
  // Times

  /**
   * `formatTime`: nothing for a missing or zero time; `<m>m` under an hour;
   * otherwise whole hours, followed by the remaining minutes when there are any.
   */
  function FormatTime(minutes: Option<int>): (r: Option<string>)
    ensures r.None? <==> minutes.None? || minutes.value == 0
    ensures minutes.Some? && 0 < minutes.value < 60 ==> r == Some(NatToString(minutes.value) + "m")
    ensures minutes.Some? && minutes.value >= 60 && minutes.value % 60 == 0 ==> r == Some(NatToString(minutes.value / 60) + "h")
    ensures minutes.Some? && minutes.value >= 60 && minutes.value % 60 != 0 ==>
      r == Some(NatToString(minutes.value / 60) + "h " + NatToString(minutes.value % 60) + "m")
    ensures minutes.Some? && minutes.value < 0 ==> r == Some("-" + NatToString(-minutes.value) + "m")
  {
    if minutes.None? || minutes.value == 0 then None
    else
      var m := minutes.value;
      if m < 60 then Some(IntToString(m) + "m")
      else
        var hours := m / 60;
        var mins := m % 60;
        if mins > 0 then Some(HoursAndMinutes(NatToString(hours), NatToString(mins)))
        else Some(NatToString(hours) + "h")
  }

  /** `<h>h <m>m` */
  function HoursAndMinutes(hours: string, mins: string): string {
    hours + "h " + mins + "m"
  }

  /** Reads a written-out time back into minutes: the partner of FormatTime. */
  function ReadTime(t: string): Option<int> {
    var i := IndexOf(t, 'h');
    if i == |t| then
      if |t| > 0 && t[|t| - 1] == 'm' then ReadInt(t[..|t| - 1]) else None
    else ReadHours(t[..i], t[i + 1..])
  }

  /** `hours` is the text before the `h`, `rest` the text after it. */
  function ReadHours(hours: string, rest: string): Option<int> {
    if |hours| == 0 || !AllDigits(hours) then None
    else if rest == "" then Some(DecimalValue(hours) * 60)
    else if |rest| >= 3 && rest[0] == ' ' && rest[|rest| - 1] == 'm' && AllDigits(rest[1..|rest| - 1]) then
      Some(DecimalValue(hours) * 60 + DecimalValue(rest[1..|rest| - 1]))
    else None
  }

  lemma NumeralHasNoH(n: nat)
    ensures forall k :: 0 <= k < |NatToString(n)| ==> NatToString(n)[k] != 'h'
  {
  }

  lemma ReadsBackUnderHour(m: int)
    requires m != 0 && m < 60
    ensures ReadTime(IntToString(m) + "m") == Some(m)
  {
    var n := IntToString(m);
    var t := n + "m";
    if m < 0 {
      NumeralHasNoH(-m);
      assert n == "-" + NatToString(-m);
    } else {
      NumeralHasNoH(m);
    }
    assert forall k :: 0 <= k < |n| ==> n[k] != 'h';
    IndexOfAfter(n, "m", 'h');
    assert t[..|t| - 1] == n;
    IntRoundTrip(m);
  }

  lemma ReadsBackWholeHours(h: nat)
    requires h > 0
    ensures ReadTime(NatToString(h) + "h") == Some(h * 60)
  {
    var hs := NatToString(h);
    var t := hs + "h";
    NumeralHasNoH(h);
    IndexOfAfter(hs, "h", 'h');
    assert t[..|hs|] == hs;
    DecimalRoundTrip(h);
  }

  lemma ReadTimeSplits(t: string, i: nat)
    requires i < |t| && IndexOf(t, 'h') == i
    ensures ReadTime(t) == ReadHours(t[..i], t[i + 1..])
  {
  }

  lemma ReadsBackParts(hs: string, ms: string, t: string)
    requires |hs| > 0 && AllDigits(hs) && |ms| > 0 && AllDigits(ms)
    requires t == hs + ("h" + (" " + ms + "m"))
    ensures ReadTime(t) == Some(DecimalValue(hs) * 60 + DecimalValue(ms))
  {
    var rest := " " + ms + "m";
    assert t == hs + ("h" + rest);
    IndexOfAfter(hs, "h" + rest, 'h');
    assert t[..|hs|] == hs && t[|hs| + 1..] == rest;
    ReadTimeSplits(t, |hs|);
    assert rest[1..|rest| - 1] == ms;
  }

  lemma HoursAndMinutesShape(hs: string, ms: string)
    ensures HoursAndMinutes(hs, ms) == hs + ("h" + (" " + ms + "m"))
  {
  }

  lemma ReadsBackHoursMinutes(h: nat, mins: nat, t: string)
    requires h > 0 && 0 < mins
    requires t == HoursAndMinutes(NatToString(h), NatToString(mins))
    ensures ReadTime(t) == Some(h * 60 + mins)
  {
    var hs, ms := NatToString(h), NatToString(mins);
    HoursAndMinutesShape(hs, ms);
    ReadsBackParts(hs, ms, t);
    DecimalRoundTrip(h);
    DecimalRoundTrip(mins);
  }

  /** Every non-zero time reads back as itself: the written form loses nothing. */
  lemma FormatTimeReadsBack(m: int)
    requires m != 0
    ensures FormatTime(Some(m)).Some? && ReadTime(FormatTime(Some(m)).value) == Some(m)
  {
    if m < 60 {
      ReadsBackUnderHour(m);
    } else if m % 60 > 0 {
      ReadsBackHoursMinutes(m / 60, m % 60, FormatTime(Some(m)).value);
    } else {
      ReadsBackWholeHours(m / 60);
    }
  }

  /** Two different non-zero times are never written the same way. */
  lemma FormatTimeInjective(a: int, b: int)
    requires a != 0 && b != 0 && FormatTime(Some(a)) == FormatTime(Some(b))
    ensures a == b
  {
    FormatTimeReadsBack(a);
    FormatTimeReadsBack(b);
  }

  // ---------------------------------------------------------------------------
  // Images

  /** A recipe as the list shows it: the row plus the picture chosen for its card. */
  datatype DisplayRecipe = DisplayRecipe(recipe: Recipe, displayImage: Option<string>)

  /** No image before position `i` belongs to the recipe. */
  predicate NoneBefore(images: seq<RecipeImage>, i: int, recipeId: string)
    requires 0 <= i <= |images|
  {
    forall k :: 0 <= k < i ==> images[k].recipeId != recipeId
  }

  /** `imagesData.find(img => img.recipe_id === recipe.id)`: the first image row of the recipe. */
  function FindImage(images: seq<RecipeImage>, recipeId: string): (r: Option<RecipeImage>)
    ensures r.Some? ==> r.value in images && r.value.recipeId == recipeId
    ensures r.Some? ==> exists i :: 0 <= i < |images| && images[i] == r.value && NoneBefore(images, i, recipeId)
    ensures r.None? <==> forall k :: 0 <= k < |images| ==> images[k].recipeId != recipeId
  {
    if |images| == 0 then None
    else if images[0].recipeId == recipeId then Some(images[0])
    else
      var r := FindImage(images[1..], recipeId);
      if r.Some? then
        var i :| 0 <= i < |images[1..]| && images[1..][i] == r.value && NoneBefore(images[1..], i, recipeId);
        assert images[i + 1] == r.value;
        assert NoneBefore(images, i + 1, recipeId) by {
          forall k | 0 <= k < i + 1 ensures images[k].recipeId != recipeId {
            if k > 0 { assert images[k] == images[1..][k - 1]; }
          }
        }
        r
      else
        assert forall k :: 1 <= k < |images| ==> images[k] == images[1..][k - 1];
        r
  }

  /**
   * `display_image`: the URL of the recipe's first main image (the image
   * query returned main images only, or nothing if it failed); when there is
   * none, or its URL is empty, the legacy `image_url` column.
   */
  function DisplayImage(recipe: Recipe, images: Option<seq<RecipeImage>>): (r: Option<string>)
    ensures images.Some? && FindImage(images.value, recipe.id).Some? && FindImage(images.value, recipe.id).value.url != "" ==>
      r == Some(FindImage(images.value, recipe.id).value.url)
    ensures images.Some? && FindImage(images.value, recipe.id).Some? && FindImage(images.value, recipe.id).value.url == "" ==>
      r == recipe.imageUrl
    ensures images.None? || (forall k :: 0 <= k < |images.value| ==> images.value[k].recipeId != recipe.id) ==>
      r == recipe.imageUrl
    ensures r.Some? && r != recipe.imageUrl ==> exists img :: img in images.value && img.recipeId == recipe.id && r == Some(img.url)
  {
    var main := if images.Some? then FindImage(images.value, recipe.id) else None;
    if main.Some? && main.value.url != "" then Some(main.value.url) else recipe.imageUrl
  }

  /** The `map` in `loadRecipes`: every loaded recipe, in order, with its card picture. */
  function WithDisplayImages(recipes: seq<Recipe>, images: Option<seq<RecipeImage>>): (r: seq<DisplayRecipe>)
    ensures |r| == |recipes|
    ensures forall k :: 0 <= k < |r| ==> r[k].recipe == recipes[k] && r[k].displayImage == DisplayImage(recipes[k], images)
  {
    seq(|recipes|, k requires 0 <= k < |recipes| => DisplayRecipe(recipes[k], DisplayImage(recipes[k], images)))
  }

  /**
   * `loadRecipes`: `recipes` is the recipe query's answer, None if it failed
   * (the error is logged and the list keeps what it had).
   */
  function LoadRecipes(current: seq<DisplayRecipe>, recipes: Option<seq<Recipe>>, images: Option<seq<RecipeImage>>): (r: seq<DisplayRecipe>)
    ensures recipes.None? ==> r == current
    ensures recipes.Some? ==> |r| == |recipes.value| && forall k :: 0 <= k < |r| ==> r[k].recipe == recipes.value[k]
    ensures recipes.Some? ==> forall k :: 0 <= k < |r| ==> r[k].displayImage == DisplayImage(recipes.value[k], images)
  {
    if recipes.None? then current else WithDisplayImages(recipes.value, images)
  }

  /**
   * `loadFavorites`: the ids of the recipes the signed-in user has favourited,
   * read from the `user_favorites` rows (user id, recipe id). Without a user, or
   * when the query fails (`fails`), the set keeps what it had.
   */
  function LoadFavorites(current: set<string>, user: Option<string>, favorites: set<(string, string)>, fails: bool): (r: set<string>)
    ensures user.None? || fails ==> r == current
    ensures user.Some? && !fails ==> forall id :: id in r <==> (user.value, id) in favorites
  {
    if user.None? || fails then current
    else set row | row in favorites && row.0 == user.value :: row.1
  }

  // ---------------------------------------------------------------------------
  // The filter

  datatype CategoryFilter = AllCategories | OnlyCategory(category: RecipeCategory)

  /** The filter controls: search text, category menu, favourites switch, and the user's favourite ids. */
  datatype Filters = Filters(searchQuery: string, category: CategoryFilter, favoritesOnly: bool, favoriteIds: set<string>)

  /** An empty search keeps everything; otherwise the lower-cased title or description contains the lower-cased query. */
  predicate MatchesSearch(recipe: Recipe, query: string) {
    query == "" ||
    Contains(ToLower(recipe.title), ToLower(query)) ||
    (recipe.description.Some? && Contains(ToLower(recipe.description.value), ToLower(query)))
  }

  /** Lower-casing the query first does not change what the search matches. */
  lemma {:induction false} SearchIgnoresQueryCase(recipe: Recipe, query: string)
    ensures MatchesSearch(recipe, ToLower(query)) == MatchesSearch(recipe, query)
  {
    assert ToLower(ToLower(query)) == ToLower(query);
    assert ToLower(query) == "" <==> query == "";
  }

  predicate MatchesCategory(recipe: Recipe, category: CategoryFilter) {
    category.AllCategories? || recipe.category == category.category
  }

  predicate Kept(recipe: Recipe, f: Filters) {
    MatchesSearch(recipe, f.searchQuery) &&
    MatchesCategory(recipe, f.category) &&
    (!f.favoritesOnly || recipe.id in f.favoriteIds)
  }

  /** `a` can be picked out of `b` by leaving items out, order kept. */
  predicate IsSubsequence<T(==)>(a: seq<T>, b: seq<T>)
    decreases |b|
  {
    if |b| == 0 then |a| == 0
    else IsSubsequence(a, b[1..]) || (|a| > 0 && a[0] == b[0] && IsSubsequence(a[1..], b[1..]))
  }

  /** `filteredRecipes`: the recipes the filters keep, in list order. */
  function FilterRecipes(recipes: seq<DisplayRecipe>, f: Filters): (r: seq<DisplayRecipe>)
    ensures IsSubsequence(r, recipes)
    ensures forall k :: 0 <= k < |r| ==> Kept(r[k].recipe, f)
    ensures forall x :: x in recipes && Kept(x.recipe, f) ==> x in r
    ensures forall x :: x in r ==> x in recipes
    ensures forall x :: multiset(r)[x] == if Kept(x.recipe, f) then multiset(recipes)[x] else 0
  {
    if |recipes| == 0 then []
    else
      var rest := FilterRecipes(recipes[1..], f);
      assert forall x :: x in recipes ==> x == recipes[0] || x in recipes[1..];
      assert recipes == [recipes[0]] + recipes[1..];
      assert multiset(recipes) == multiset{recipes[0]} + multiset(recipes[1..]);
      if Kept(recipes[0].recipe, f) then
        assert ([recipes[0]] + rest)[1..] == rest;
        [recipes[0]] + rest
      else
        rest
  }

  /** With no search text, every category and favourites off, the filter keeps the whole list. */
  lemma {:induction false} NoFiltersKeepsAll(recipes: seq<DisplayRecipe>, favoriteIds: set<string>)
    ensures FilterRecipes(recipes, Filters("", AllCategories, false, favoriteIds)) == recipes
    decreases |recipes|
  {
    if |recipes| > 0 {
      NoFiltersKeepsAll(recipes[1..], favoriteIds);
    }
  }
}
