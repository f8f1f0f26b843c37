/**
 * The instruction list editor (src/components/recipe/InstructionInput.tsx).
 * Like the ingredient editor, but every step carries its 1-based position as
 * `step_number`, which removing and dragging rewrite.
 */
module InstructionInput {
  import opened Wrappers
  import opened ListOps

  /** A step picture already uploaded to storage. */
  datatype StepImage = StepImage(url: string, storagePath: string)

  /** A step as the form holds it: the row without `id` and `recipe_id`, plus an optional image. */
  datatype InstructionDraft = InstructionDraft(
    stepNumber: int,
    content: string,
    durationMinutes: Option<int>,
    temperature: Option<string>,
    image: Option<StepImage>)

  /** Step numbers run 1, 2, ..., n in list order. */
  predicate Numbered(s: seq<InstructionDraft>) {
    forall k :: 0 <= k < |s| ==> s[k].stepNumber == k + 1
  }

  /** The step without its number: what the user wrote. */
  function Body(i: InstructionDraft): InstructionDraft {
    i.(stepNumber := 0)
  }

  function Bodies(s: seq<InstructionDraft>): (r: seq<InstructionDraft>)
    ensures |r| == |s| && forall k :: 0 <= k < |s| ==> r[k] == Body(s[k])
  {
    seq(|s|, k requires 0 <= k < |s| => Body(s[k]))
  }

  /** `map((inst, i) => ({ ...inst, step_number: i + 1 }))`. */
  function Renumber(s: seq<InstructionDraft>): (r: seq<InstructionDraft>)
    ensures |r| == |s| && Numbered(r)
    ensures Bodies(r) == Bodies(s)
    ensures forall k :: 0 <= k < |s| ==>
      r[k].content == s[k].content && r[k].durationMinutes == s[k].durationMinutes &&
      r[k].temperature == s[k].temperature && r[k].image == s[k].image
  {
    seq(|s|, k requires 0 <= k < |s| => s[k].(stepNumber := k + 1))
  }

  /** A list that is already numbered is left alone by renumbering. */
  lemma RenumberNumbered(s: seq<InstructionDraft>)
    requires Numbered(s)
    ensures Renumber(s) == s
  {
  }

  /** `addInstruction`: an empty step at the end, numbered one past the old length. */
  function AddInstruction(instructions: seq<InstructionDraft>): (r: seq<InstructionDraft>)
    ensures |r| == |instructions| + 1 && r[..|instructions|] == instructions
    ensures r[|instructions|] == InstructionDraft(|instructions| + 1, "", None, None, None)
    ensures Numbered(instructions) ==> Numbered(r)
  {
    instructions + [InstructionDraft(|instructions| + 1, "", None, None, None)]
  }

  /** `removeInstruction`: drop position `index` and renumber what is left. */
  function RemoveInstruction(instructions: seq<InstructionDraft>, index: int): (r: seq<InstructionDraft>)
    ensures Numbered(r)
    ensures Bodies(r) == Bodies(RemoveAt(instructions, index))
    ensures 0 <= index < |instructions| ==> |r| == |instructions| - 1
    ensures !(0 <= index < |instructions|) ==> |r| == |instructions|
  {
    Renumber(RemoveAt(instructions, index))
  }

  /** Removing from a numbered list that has nothing at `index` changes nothing. */
  lemma RemoveOutOfRange(instructions: seq<InstructionDraft>, index: int)
    requires Numbered(instructions) && !(0 <= index < |instructions|)
    ensures RemoveInstruction(instructions, index) == instructions
  {
    RenumberNumbered(instructions);
  }

  /** Removing the step just added gives back a numbered list. */
  lemma RemoveUndoesAdd(instructions: seq<InstructionDraft>)
    requires Numbered(instructions)
    ensures RemoveInstruction(AddInstruction(instructions), |instructions|) == instructions
  {
    var added := AddInstruction(instructions);
    assert RemoveAt(added, |instructions|) == instructions;
    RenumberNumbered(instructions);
  }

  /** The fields the form edits, each carrying its new value. */
  datatype InstructionField =
    | Content(content: string)
    | DurationMinutes(durationMinutes: Option<int>)
    | Temperature(temperature: Option<string>)
    | Image(image: Option<StepImage>)

  datatype FieldName = ContentField | DurationMinutesField | TemperatureField | ImageField

  function FieldNameOf(f: InstructionField): FieldName {
    match f
    case Content(_) => ContentField
    case DurationMinutes(_) => DurationMinutesField
    case Temperature(_) => TemperatureField
    case Image(_) => ImageField
  }

  /** Reads one field of a step. */
  function Field(inst: InstructionDraft, name: FieldName): InstructionField {
    match name
    case ContentField => Content(inst.content)
    case DurationMinutesField => DurationMinutes(inst.durationMinutes)
    case TemperatureField => Temperature(inst.temperature)
    case ImageField => Image(inst.image)
  }

  /** `{ ...inst, [field]: value }`: the named field takes the new value, every other field and the step number stay. */
  function WithField(inst: InstructionDraft, f: InstructionField): (r: InstructionDraft)
    ensures Field(r, FieldNameOf(f)) == f
    ensures forall n :: n != FieldNameOf(f) ==> Field(r, n) == Field(inst, n)
    ensures r.stepNumber == inst.stepNumber
  {
    match f
    case Content(v) => inst.(content := v)
    case DurationMinutes(v) => inst.(durationMinutes := v)
    case Temperature(v) => inst.(temperature := v)
    case Image(v) => inst.(image := v)
  }

  /** `updateInstruction`: one field of one step changes; nothing is renumbered. */
  function UpdateInstruction(instructions: seq<InstructionDraft>, index: nat, f: InstructionField): (r: seq<InstructionDraft>)
    requires index < |instructions|
    ensures |r| == |instructions|
    ensures forall k :: 0 <= k < |r| && k != index ==> r[k] == instructions[k]
    ensures Field(r[index], FieldNameOf(f)) == f
    ensures forall n :: n != FieldNameOf(f) ==> Field(r[index], n) == Field(instructions[index], n)
    ensures r[index].stepNumber == instructions[index].stepNumber
    ensures Numbered(instructions) ==> Numbered(r)
  {
    instructions[index := WithField(instructions[index], f)]
  }

  lemma BodiesOfRemove(s: seq<InstructionDraft>, index: nat)
    requires index < |s|
    ensures Bodies(RemoveAt(s, index)) == RemoveAt(Bodies(s), index)
  {
    var l, r := Bodies(RemoveAt(s, index)), RemoveAt(Bodies(s), index);
    assert |l| == |r|;
    forall k | 0 <= k < |l| ensures l[k] == r[k] {
      var j := if k < index then k else k + 1;
      assert RemoveAt(s, index)[k] == s[j];
    }
  }

  lemma BodiesOfInsert(s: seq<InstructionDraft>, index: nat, x: InstructionDraft)
    requires index <= |s|
    ensures Bodies(InsertAt(s, index, x)) == InsertAt(Bodies(s), index, Body(x))
  {
    var l, r := Bodies(InsertAt(s, index, x)), InsertAt(Bodies(s), index, Body(x));
    assert |l| == |r|;
    forall k | 0 <= k < |l| ensures l[k] == r[k] {
      if k != index {
        var j := if k < index then k else k - 1;
        assert InsertAt(s, index, x)[k] == s[j];
      }
    }
  }

  /** Taking step numbers off commutes with the move. */
  lemma BodiesOfMove(s: seq<InstructionDraft>, from: nat, to: nat)
    requires from < |s| && to < |s|
    ensures Bodies(Move(s, from, to)) == Move(Bodies(s), from, to)
  {
    BodiesOfRemove(s, from);
    BodiesOfInsert(RemoveAt(s, from), to, s[from]);
  }

  /**
   * The list a drag from `from` to `to` produces: numbered, a permutation of
   * the steps' contents with the dragged step at `to` and the others in their
   * old relative order.
   */
  lemma DraggedSteps(s: seq<InstructionDraft>, from: nat, to: nat)
    requires from < |s| && to < |s|
    ensures var r := Renumber(Move(s, from, to));
      && |r| == |s| && Numbered(r)
      && multiset(Bodies(r)) == multiset(Bodies(s))
      && Body(r[to]) == Body(s[from])
      && RemoveAt(Bodies(r), to) == RemoveAt(Bodies(s), from)
  {
    var r := Renumber(Move(s, from, to));
    BodiesOfMove(s, from, to);
    MovePermutation(Bodies(s), from, to);
    MoveKeepsOrder(Bodies(s), from, to);
  }

  /** The editor's drag state together with the list it was last given. */
  class InstructionEditor {
    var instructions: seq<InstructionDraft>
    var draggedIndex: Option<nat>

    constructor (instructions: seq<InstructionDraft>)
      ensures this.instructions == instructions && draggedIndex == None
    {
      this.instructions := instructions;
      draggedIndex := None;
    }

    /** `handleDragStart`. */
    method HandleDragStart(index: nat)
      modifies this
      ensures draggedIndex == Some(index) && instructions == old(instructions)
    {
      draggedIndex := Some(index);
    }

    /**
     * `handleDragOver` on step `index`: with a step being dragged elsewhere,
     * move it there, renumber, and follow it; otherwise nothing happens.
     */
    method HandleDragOver(index: nat)
      requires index < |instructions|
      requires draggedIndex.Some? ==> draggedIndex.value < |instructions|
      modifies this
      ensures old(draggedIndex).None? || old(draggedIndex).value == index ==>
        instructions == old(instructions) && draggedIndex == old(draggedIndex)
      ensures old(draggedIndex).Some? && old(draggedIndex).value != index ==>
        instructions == Renumber(Move(old(instructions), old(draggedIndex).value, index)) && draggedIndex == Some(index)
    {
      if draggedIndex.None? || draggedIndex.value == index {
        return;
      }
      var from := draggedIndex.value;
      var items := instructions;
      var reordered := new InstructionDraft[|items|](k requires 0 <= k < |items| => items[k]);
      assert reordered[..] == items;
      MoveInPlace(reordered, from, index);
      instructions := Renumber(reordered[..]);
      draggedIndex := Some(index);
    }

    /** `handleDragEnd`. */
    method HandleDragEnd()
      modifies this
      ensures draggedIndex == None && instructions == old(instructions)
    {
      draggedIndex := None;
    }
  }
}
