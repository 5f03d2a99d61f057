/** The array stack that the tracers write out by hand: one index, and `realloc` by a fixed step. */
module Growable {

  class GrowableStack<T(0)> {
    const step: nat
    var items: array<T>
    var index: int

    ghost predicate Valid()
      reads this, items
    {
      0 < step && -1 <= index < items.Length
    }

    ghost function Contents(): seq<T>
      reads this, items
      requires Valid()
    {
      items[..index + 1]
    }

    constructor (step: nat)
      requires 0 < step
      ensures Valid() && Contents() == [] && fresh(items) && items.Length == this.step == step
    {
      this.step := step;
      items := new T[step];
      index := -1;
    }

    /** Pushes; the index never leaves the array, which grows exactly when it is full. */
    method Push(x: T)
      requires Valid()
      modifies this, items
      ensures Valid() && Contents() == old(Contents()) + [x]
      ensures items == old(items) || fresh(items)
      ensures items.Length == old(items.Length) + if |old(Contents())| == old(items.Length) then step else 0
    {
      index := index + 1;
      if index >= items.Length {
        var bigger := new T[items.Length + step];
        forall i | 0 <= i < items.Length {
          bigger[i] := items[i];
        }
        items := bigger;
      }
      items[index] := x;
    }

    method Pop() returns (x: T)
      requires Valid() && Contents() != []
      modifies this`index
      ensures Valid() && old(Contents()) == Contents() + [x]
    {
      x := items[index];
      index := index - 1;
    }
  }
}
