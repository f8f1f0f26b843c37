/**
 * The list edits the recipe editors perform: `filter((_, i) => i !== index)`,
 * `splice(index, 0, item)` and the drag "move" built from a splice-out followed
 * by a splice-in, together with the in-place array version of that move.
 */
module ListOps {

  /** `s.filter((_, i) => i !== index)`: drops position `index`; an index outside the list drops nothing. */
  function RemoveAt<T>(s: seq<T>, index: int): (r: seq<T>)
    ensures 0 <= index < |s| ==> |r| == |s| - 1
    ensures 0 <= index < |s| ==> forall k :: 0 <= k < |r| ==> r[k] == if k < index then s[k] else s[k + 1]
    ensures !(0 <= index < |s|) ==> r == s
  {
    if 0 <= index < |s| then s[..index] + s[index + 1..] else s
  }

  /** `s.splice(index, 0, x)`: inserts `x` so that it ends up at position `index`. */
  function InsertAt<T>(s: seq<T>, index: nat, x: T): (r: seq<T>)
    requires index <= |s|
    ensures |r| == |s| + 1 && r[index] == x
    ensures forall k :: 0 <= k < |r| && k != index ==> r[k] == if k < index then s[k] else s[k - 1]
  {
    s[..index] + [x] + s[index..]
  }

  /** The drag move: take the item at `from` out, then put it back in at `to`. */
  function Move<T>(s: seq<T>, from: nat, to: nat): (r: seq<T>)
    requires from < |s| && to < |s|
    ensures |r| == |s| && r[to] == s[from]
  {
    InsertAt(RemoveAt(s, from), to, s[from])
  }

  /** Where each element of a moved list comes from. */
  lemma MoveAt<T>(s: seq<T>, from: nat, to: nat, k: nat)
    requires from < |s| && to < |s| && k < |s|
    ensures |Move(s, from, to)| == |s|
    ensures Move(s, from, to)[k] ==
      if k == to then s[from]
      else if from <= k < to then s[k + 1]
      else if to < k <= from then s[k - 1]
      else s[k]
  {
  }

  /** A move is a permutation: nothing is lost, nothing is duplicated. */
  lemma MovePermutation<T>(s: seq<T>, from: nat, to: nat)
    requires from < |s| && to < |s|
    ensures multiset(Move(s, from, to)) == multiset(s)
  {
    var rest := s[..from] + s[from + 1..];
    assert s == s[..from] + [s[from]] + s[from + 1..];
    calc {
      multiset(Move(s, from, to));
      multiset(rest[..to] + [s[from]] + rest[to..]);
      multiset(rest[..to]) + multiset([s[from]]) + multiset(rest[to..]);
      { assert rest == rest[..to] + rest[to..]; }
      multiset(rest) + multiset([s[from]]);
      multiset(s[..from]) + multiset(s[from + 1..]) + multiset([s[from]]);
      multiset(s);
    }
  }

  /** Every other item keeps its relative order. */
  lemma MoveKeepsOrder<T>(s: seq<T>, from: nat, to: nat)
    requires from < |s| && to < |s|
    ensures RemoveAt(Move(s, from, to), to) == RemoveAt(s, from)
  {
    var m := Move(s, from, to);
    assert m[..to] + m[to + 1..] == RemoveAt(s, from);
  }

  /** Dragging the item back where it came from restores the list. */
  lemma {:induction false} MoveUndo<T>(s: seq<T>, from: nat, to: nat)
    requires from < |s| && to < |s|
    ensures Move(Move(s, from, to), to, from) == s
  {
    var m := Move(s, from, to);
    var back := Move(m, to, from);
    forall k | 0 <= k < |s| ensures back[k] == s[k] {
      MoveAt(m, to, from, k);
      if k != from {
        if to <= k < from { MoveAt(s, from, to, k + 1); }
        else if from < k <= to { MoveAt(s, from, to, k - 1); }
        else { MoveAt(s, from, to, k); }
      }
    }
    assert |back| == |s|;
  }

  /**
   * The move carried out on an array in place: the items between the two
   * positions shift by one towards the vacated slot and the dragged item is
   * written at the target.
   */
  method MoveInPlace<T>(a: array<T>, from: nat, to: nat)
    requires from < a.Length && to < a.Length
    modifies a
    ensures a[..] == Move(old(a[..]), from, to)
  {
    ghost var s := a[..];
    var item := a[from];
    if from < to {
      var k := from;
      while k < to
        invariant from <= k <= to && |s| == a.Length
        invariant forall j :: from <= j < k ==> a[j] == s[j + 1]
        invariant forall j :: 0 <= j < a.Length && !(from <= j < k) ==> a[j] == s[j]
      {
        a[k] := a[k + 1];
        k := k + 1;
      }
    } else {
      var k := from;
      while k > to
        invariant to <= k <= from && |s| == a.Length
        invariant forall j :: k < j <= from ==> a[j] == s[j - 1]
        invariant forall j :: 0 <= j < a.Length && !(k < j <= from) ==> a[j] == s[j]
      {
        a[k] := a[k - 1];
        k := k - 1;
      }
    }
    a[to] := item;
    forall k | 0 <= k < a.Length ensures a[..][k] == Move(s, from, to)[k] {
      MoveAt(s, from, to, k);
    }
    MoveAt(s, from, to, 0);
  }
}
