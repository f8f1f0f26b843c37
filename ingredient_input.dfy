/**
 * The ingredient list editor (src/components/recipe/IngredientInput.tsx). The
 * list belongs to the parent form; the editor hands it a new list for every
 * edit. Adding, removing and changing one field build a new list from the old
 * one; dragging copies the list, splices the copy, and remembers which row is
 * being dragged.
 */
module IngredientInput {
  import opened Wrappers
  import opened RecipeTypes
  import opened ListOps

  /** An ingredient as the form holds it: the row without its `id` and `recipe_id`. */
  datatype IngredientDraft = IngredientDraft(
    name: string,
    qtyImperial: Option<Quantity>,
    unitImperial: Option<UnitType>,
    qtyMetric: Option<Quantity>,
    unitMetric: Option<UnitType>,
    sortOrder: int,
    notes: Option<string>)

  /** The unit menus: the imperial one lists volume units, the metric one weight and volume units; both add the count units. */
  const ImperialUnits: seq<UnitType> := [Tsp, Tbsp, Cup, FlOz, Oz, Lb, Pint, Quart, Gallon, Pinch, Dash]
  const MetricUnits: seq<UnitType> := [Ml, L, G, Kg]
  const CountUnits: seq<UnitType> := [Piece, Whole, Slice, Clove, Sprig, Leaf, ToTaste, AsNeeded]

  /** Every unit is offered in exactly one of the three lists. */
  lemma UnitListsPartition(u: UnitType)
    ensures u in ImperialUnits || u in MetricUnits || u in CountUnits
    ensures !(u in ImperialUnits && u in MetricUnits)
    ensures !(u in ImperialUnits && u in CountUnits)
    ensures !(u in MetricUnits && u in CountUnits)
  {
  }

  /** The row `addIngredient` appends. */
  function BlankIngredient(sortOrder: int): IngredientDraft {
    IngredientDraft("", None, None, None, None, sortOrder, None)
  }

  /** `addIngredient`: one blank row at the end, numbered by the old length. */
  function AddIngredient(ingredients: seq<IngredientDraft>): (r: seq<IngredientDraft>)
    ensures |r| == |ingredients| + 1 && r[..|ingredients|] == ingredients
    ensures r[|ingredients|].name == "" && r[|ingredients|].sortOrder == |ingredients|
    ensures r[|ingredients|].qtyImperial.None? && r[|ingredients|].unitImperial.None?
    ensures r[|ingredients|].qtyMetric.None? && r[|ingredients|].unitMetric.None? && r[|ingredients|].notes.None?
  {
    ingredients + [BlankIngredient(|ingredients|)]
  }

  /** `removeIngredient`: every row but the one at `index`, in order; sort orders are left as they were. */
  function RemoveIngredient(ingredients: seq<IngredientDraft>, index: int): (r: seq<IngredientDraft>)
    ensures 0 <= index < |ingredients| ==> |r| == |ingredients| - 1
    ensures 0 <= index < |ingredients| ==> forall k :: 0 <= k < |r| ==>
      r[k] == ingredients[if k < index then k else k + 1]
    ensures !(0 <= index < |ingredients|) ==> r == ingredients
  {
    RemoveAt(ingredients, index)
  }

  /** Removing the row just added gives back the list. */
  lemma RemoveUndoesAdd(ingredients: seq<IngredientDraft>)
    ensures RemoveIngredient(AddIngredient(ingredients), |ingredients|) == ingredients
  {
  }

  /** The fields the form edits, each carrying its new value. */
  datatype IngredientField =
    | Name(name: string)
    | QtyImperial(qtyImperial: Option<Quantity>)
    | UnitImperial(unitImperial: Option<UnitType>)
    | QtyMetric(qtyMetric: Option<Quantity>)
    | UnitMetric(unitMetric: Option<UnitType>)
    | Notes(notes: Option<string>)

  datatype FieldName = NameField | QtyImperialField | UnitImperialField | QtyMetricField | UnitMetricField | NotesField

  function FieldNameOf(f: IngredientField): FieldName {
    match f
    case Name(_) => NameField
    case QtyImperial(_) => QtyImperialField
    case UnitImperial(_) => UnitImperialField
    case QtyMetric(_) => QtyMetricField
    case UnitMetric(_) => UnitMetricField
    case Notes(_) => NotesField
  }

  /** Reads one field of a row. */
  function Field(ing: IngredientDraft, name: FieldName): IngredientField {
    match name
    case NameField => Name(ing.name)
    case QtyImperialField => QtyImperial(ing.qtyImperial)
    case UnitImperialField => UnitImperial(ing.unitImperial)
    case QtyMetricField => QtyMetric(ing.qtyMetric)
    case UnitMetricField => UnitMetric(ing.unitMetric)
    case NotesField => Notes(ing.notes)
  }

  /** `{ ...ing, [field]: value }`: the named field takes the new value, every other field and the sort order stay. */
  function WithField(ing: IngredientDraft, f: IngredientField): (r: IngredientDraft)
    ensures Field(r, FieldNameOf(f)) == f
    ensures forall n :: n != FieldNameOf(f) ==> Field(r, n) == Field(ing, n)
    ensures r.sortOrder == ing.sortOrder
  {
    match f
    case Name(v) => ing.(name := v)
    case QtyImperial(v) => ing.(qtyImperial := v)
    case UnitImperial(v) => ing.(unitImperial := v)
    case QtyMetric(v) => ing.(qtyMetric := v)
    case UnitMetric(v) => ing.(unitMetric := v)
    case Notes(v) => ing.(notes := v)
  }

  /** `updateIngredient`: a copy of the list whose row `index` has field `f` changed. */
  function UpdateIngredient(ingredients: seq<IngredientDraft>, index: nat, f: IngredientField): (r: seq<IngredientDraft>)
    requires index < |ingredients|
    ensures |r| == |ingredients|
    ensures forall k :: 0 <= k < |r| && k != index ==> r[k] == ingredients[k]
    ensures Field(r[index], FieldNameOf(f)) == f
    ensures forall n :: n != FieldNameOf(f) ==> Field(r[index], n) == Field(ingredients[index], n)
  {
    ingredients[index := WithField(ingredients[index], f)]
  }

  /** Writing back the value a field had before restores the list. */
  lemma UpdateUndo(ingredients: seq<IngredientDraft>, index: nat, f: IngredientField)
    requires index < |ingredients|
    ensures
      var before := Field(ingredients[index], FieldNameOf(f));
      UpdateIngredient(UpdateIngredient(ingredients, index, f), index, before) == ingredients
  {
    var before := Field(ingredients[index], FieldNameOf(f));
    var once := UpdateIngredient(ingredients, index, f);
    assert FieldNameOf(before) == FieldNameOf(f) by {
      match f
      case Name(_) =>
      case QtyImperial(_) =>
      case UnitImperial(_) =>
      case QtyMetric(_) =>
      case UnitMetric(_) =>
      case Notes(_) =>
    }
    var back := WithField(once[index], before);
    assert back == ingredients[index] by {
      assert forall n :: Field(back, n) == Field(ingredients[index], n);
      assert Field(back, NameField) == Field(ingredients[index], NameField);
      assert Field(back, QtyImperialField) == Field(ingredients[index], QtyImperialField);
      assert Field(back, UnitImperialField) == Field(ingredients[index], UnitImperialField);
      assert Field(back, QtyMetricField) == Field(ingredients[index], QtyMetricField);
      assert Field(back, UnitMetricField) == Field(ingredients[index], UnitMetricField);
      assert Field(back, NotesField) == Field(ingredients[index], NotesField);
    }
  }

  /** The editor's drag state together with the list it was last given. */
  class IngredientEditor {
    var ingredients: seq<IngredientDraft>
    var draggedIndex: Option<nat>

    constructor (ingredients: seq<IngredientDraft>)
      ensures this.ingredients == ingredients && draggedIndex == None
    {
      this.ingredients := ingredients;
      draggedIndex := None;
    }

    /** `handleDragStart`: remember the row picked up. */
    method HandleDragStart(index: nat)
      modifies this
      ensures draggedIndex == Some(index) && ingredients == old(ingredients)
    {
      draggedIndex := Some(index);
    }

    /**
     * `handleDragOver` on row `index`: with a row being dragged elsewhere,
     * move it to `index` and follow it there; otherwise nothing happens.
     */
    method HandleDragOver(index: nat)
      requires index < |ingredients|
      requires draggedIndex.Some? ==> draggedIndex.value < |ingredients|
      modifies this
      ensures old(draggedIndex).None? || old(draggedIndex).value == index ==>
        ingredients == old(ingredients) && draggedIndex == old(draggedIndex)
      ensures old(draggedIndex).Some? && old(draggedIndex).value != index ==>
        ingredients == Move(old(ingredients), old(draggedIndex).value, index) && draggedIndex == Some(index)
    {
      if draggedIndex.None? || draggedIndex.value == index {
        return;
      }
      var from := draggedIndex.value;
      var items := ingredients;
      var reordered := new IngredientDraft[|items|](k requires 0 <= k < |items| => items[k]);
      assert reordered[..] == items;
      MoveInPlace(reordered, from, index);
      ingredients := reordered[..];
      draggedIndex := Some(index);
    }

    /** `handleDragEnd`: nothing is being dragged any more. */
    method HandleDragEnd()
      modifies this
      ensures draggedIndex == None && ingredients == old(ingredients)
    {
      draggedIndex := None;
    }
  }
}
