/**
 * The forward-only cursor the lazy controls pull from (an `IEnumerator`
 * over a finite sequence), and the loading loop they share: ask the cursor
 * for the next item up to `count` times, appending each item it yields.
 */
module Cursor {

  /**
   * Where a cursor at `position` over `length` items stands after up to
   * `count` successful `MoveNext` calls: never backwards, never past the end,
   * at most `count` further, and short of `count` only at the end.
   */
  function Advance(position: nat, count: int, length: nat): (r: nat)
    requires position <= length
    ensures position <= r <= length
    ensures count <= 0 ==> r == position
    ensures count > 0 ==> r - position <= count && (r - position == count || r == length)
  {
    if count <= 0 then position
    else if position + count <= length then position + count
    else length
  }

  /** An enumerator over a fixed sequence: `position` items have been yielded. */
  class Enumerator<T> {
    const elements: seq<T>
    var position: nat

    ghost predicate Valid()
      reads this
    {
      position <= |elements|
    }

    /** `GetEnumerator()`: a fresh cursor before the first item. */
    constructor (elements: seq<T>)
      ensures Valid() && this.elements == elements && position == 0
    {
      this.elements := elements;
      position := 0;
    }

    /** `MoveNext()`: steps to the next item, or reports that there is none and stays put. */
    method MoveNext() returns (moved: bool)
      requires Valid()
      modifies this
      ensures Valid()
      ensures moved <==> old(position) < |elements|
      ensures position == if moved then old(position) + 1 else old(position)
    {
      moved := position < |elements|;
      if moved {
        position := position + 1;
      }
    }

    /** `Current`: the item the last successful `MoveNext` stepped onto. */
    function Current(): (x: T)
      reads this
      requires 0 < position <= |elements|
      ensures elements[..position] == elements[..position - 1] + [x]
    {
      elements[position - 1]
    }
  }

  /**
   * The loop of `LoadNextItem` / `LoadNextItems`: `count` times, if the cursor
   * moves, append its current item to the window.
   */
  method LoadNext<T>(window: seq<T>, e: Enumerator<T>, count: int) returns (r: seq<T>)
    requires e.Valid()
    modifies e
    ensures e.Valid()
    ensures e.position == Advance(old(e.position), count, |e.elements|)
    ensures r == window + e.elements[old(e.position)..e.position]
  {
    r := window;
    var i := 0;
    while i < count
      invariant 0 <= i && (count > 0 ==> i <= count) && (count <= 0 ==> i == 0)
      invariant e.Valid()
      invariant e.position == Advance(old(e.position), i, |e.elements|)
      invariant r == window + e.elements[old(e.position)..e.position]
    {
      var moved := e.MoveNext();
      if moved {
        r := r + [e.Current()];
      }
      i := i + 1;
    }
  }

  /** The total number of items a series of load requests asks for (non-positive requests ask for none). */
  function Requested(counts: seq<int>): nat {
    if counts == [] then 0
    else (if counts[0] > 0 then counts[0] else 0) + Requested(counts[1..])
  }

  /** The cursor position after a series of loads, one `Advance` per request. */
  function AdvanceAll(position: nat, counts: seq<int>, length: nat): (r: nat)
    requires position <= length
    ensures position <= r <= length
    decreases counts
  {
    if counts == [] then position
    else AdvanceAll(Advance(position, counts[0], length), counts[1..], length)
  }

  /**
   * A series of loads after a reset yields exactly the requested number of
   * items, capped at the length of the sequence.
   */
  lemma {:induction false} AdvanceAllCapped(position: nat, counts: seq<int>, length: nat)
    requires position <= length
    ensures AdvanceAll(position, counts, length)
         == if position + Requested(counts) <= length then position + Requested(counts) else length
    decreases counts
  {
    if counts != [] {
      AdvanceAllCapped(Advance(position, counts[0], length), counts[1..], length);
    }
  }

  /**
   * Once a load has come back short, the cursor is at the end, and no later
   * series of loads moves it (a corollary of the contracts of `Advance` and
   * `AdvanceAll`).
   */
  lemma ExhaustedStaysPut(position: nat, count: int, later: seq<int>, length: nat)
    requires position <= length
    requires Advance(position, count, length) - position < count
    ensures Advance(position, count, length) == length
    ensures AdvanceAll(Advance(position, count, length), later, length) == length
  {
  }
}
