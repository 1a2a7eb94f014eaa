/**
 * One `MoveNext` of the enumerator that `ApplySearchFilter` builds in the
 * combo box and the data grid: LINQ's `Where` walks the data from a raw
 * index and tests each item with the search predicate.
 *
 * As written, the predicate reads the control's `SearchText` property each
 * time it is evaluated, not the text in force when the cursor was built.
 * Every non-null change of `SearchText` rebuilds the cursor, so the two only
 * differ after `SearchText` is set to null, which does not reset: the next
 * test calls `Contains(null)`, which throws `ArgumentNullException`.
 * `LiveMoveNext` models the code as written; `CapturedMoveNext` is the
 * step with the text captured at reset, which the loader model uses.
 */
module LinqWhere {
  import opened Wrappers
  import opened SearchFilter
  import Text

  /** The outcome of one `MoveNext` of the filtering enumerator. */
  datatype Step<T> = Moved(item: T, next: nat) | Finished | ThrewArgumentNull

  /**
   * `MoveNext` with the search text fixed when the cursor was built: skip
   * items that do not match, stop on the first one that does.
   */
  function CapturedMoveNext<T>(display: T -> string, data: seq<T>, raw: nat, text: string): (r: Step<T>)
    requires raw <= |data|
    ensures !r.ThrewArgumentNull?
    ensures r.Moved? ==> raw < r.next <= |data| && r.item == data[r.next - 1]
    decreases |data| - raw
  {
    if raw == |data| then Finished
    else if Text.Contains(display(data[raw]), text) then Moved(data[raw], raw + 1)
    else CapturedMoveNext(display, data, raw + 1, text)
  }

  /**
   * Each captured step yields the next item of the filtered sequence, and
   * finishes exactly when no filtered item is left: stepping the enumerator
   * walks `Where(data, Matches(display, text))` item by item.
   */
  lemma {:induction false} CapturedMoveNextFollowsWhere<T>(display: T -> string, data: seq<T>, raw: nat, text: string)
    requires raw <= |data|
    ensures var r := CapturedMoveNext(display, data, raw, text);
      (r.Finished? <==> Where(data[raw..], Matches(display, text)) == []) &&
      (r.Moved? ==> Where(data[raw..], Matches(display, text))
                    == [r.item] + Where(data[r.next..], Matches(display, text)))
    decreases |data| - raw
  {
    if raw < |data| {
      assert data[raw..][1..] == data[raw + 1..];
      if !Text.Contains(display(data[raw]), text) {
        CapturedMoveNextFollowsWhere(display, data, raw + 1, text);
      }
    }
  }

  /**
   * `MoveNext` as written: walking on from `raw`, each item is tested with
   * `liveText`, the value `SearchText` has when the step runs. Testing with
   * a null text throws.
   */
  function LiveMoveNext<T>(display: T -> string, data: seq<T>, raw: nat, liveText: Option<string>): (r: Step<T>)
    requires raw <= |data|
    ensures r.Moved? ==> raw < r.next <= |data| && r.item == data[r.next - 1]
    decreases |data| - raw
  {
    if raw == |data| then Finished
    else if liveText.None? then ThrewArgumentNull
    else if Text.Contains(display(data[raw]), liveText.value) then Moved(data[raw], raw + 1)
    else LiveMoveNext(display, data, raw + 1, liveText)
  }

  /**
   * As written, a step throws exactly when the search text is null and an
   * item is left to test; with a non-null text it is the captured step.
   */
  lemma {:induction false} LiveMoveNextAgainstCaptured<T>(display: T -> string, data: seq<T>, raw: nat, liveText: Option<string>)
    requires raw <= |data|
    ensures liveText.None? ==> (LiveMoveNext(display, data, raw, liveText).ThrewArgumentNull? <==> raw < |data|)
    ensures liveText.Some? ==> LiveMoveNext(display, data, raw, liveText) == CapturedMoveNext(display, data, raw, liveText.value)
    decreases |data| - raw
  {
    if raw < |data| && liveText.Some? && !Text.Contains(display(data[raw]), liveText.value) {
      LiveMoveNextAgainstCaptured(display, data, raw + 1, liveText);
    }
  }

  /**
   * The discrepancy on a concrete run: data ["ab", "ac"] shown as itself,
   * `FirstLoadCount` 1 and `SearchText` "a" load "ab" and leave the raw index
   * at 1. After `SearchText` is set to null (no reset), the next scroll load
   * throws as written, while the captured filter yields "ac".
   */
  lemma NullSearchTextBreaksNextLoad()
    ensures CapturedMoveNext(s => s, ["ab", "ac"], 0, "a") == Moved("ab", 1)
    ensures LiveMoveNext(s => s, ["ab", "ac"], 1, None) == ThrewArgumentNull
    ensures CapturedMoveNext(s => s, ["ab", "ac"], 1, "a") == Moved("ac", 2)
  {
    assert "a" <= "ab";
    assert "a" <= "ac";
  }
}
