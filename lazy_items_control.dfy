/**
 * `LazyCheckComboBox` and `LazyDataGrid`: two controls with the same lazy
 * loading logic, modelled by one class. The full data set and the search
 * text are dependency properties whose change callbacks become the setter
 * methods below; the control keeps a display window (`_itemSource`) and a
 * cursor (`_lazyDataEnumerator`, possibly null) over the filtered data.
 */
module LazyLoading {
  import opened Wrappers
  import opened SearchFilter
  import opened Cursor

  class LazyItemsControl<T> {
    /** How an item is turned into the string the search text is matched against (`$"{item}"`). */
    const display: T -> string
    /** `LazyDataSource`: the full data set, or null. */
    var lazyDataSource: Option<seq<T>>
    /** `SearchText`, or null. */
    var searchText: Option<string>
    /** `FirstLoadCount`: how many items a reset (and `Loaded`) asks for. */
    var firstLoadCount: int
    /** `_itemSource`: the window shown by the control. */
    var items: seq<T>
    /** `_lazyDataEnumerator`: the cursor over the sequence of the last reset, or null. */
    var enumerator: Enumerator?<T>

    /** The window is exactly what the cursor has yielded so far; with no cursor it is empty. */
    ghost predicate Valid()
      reads this, enumerator
    {
      if enumerator == null then items == []
      else enumerator.Valid() && items == enumerator.elements[..enumerator.position]
    }

    /**
     * The state right after a reset over the effective sequence `eff`: no
     * cursor and an empty window for a null sequence, otherwise a cursor over
     * `eff` that has yielded the first `FirstLoadCount` items (fewer if `eff`
     * is shorter), and those items are the window.
     */
    ghost predicate FreshlyLoaded(eff: Option<seq<T>>)
      reads this, enumerator
    {
      match eff
      case None => enumerator == null && items == []
      case Some(s) =>
        enumerator != null && enumerator.elements == s &&
        enumerator.position == Advance(0, firstLoadCount, |s|) &&
        items == s[..enumerator.position]
    }

    /** A new control: empty window, no cursor, no data, empty search text, `FirstLoadCount` 30. */
    constructor (display: T -> string)
      ensures Valid() && this.display == display
      ensures lazyDataSource == None && searchText == Some("") && firstLoadCount == 30
      ensures items == [] && enumerator == null
    {
      this.display := display;
      lazyDataSource := None;
      searchText := Some("");
      firstLoadCount := 30;
      items := [];
      enumerator := null;
    }

    /**
     * `LoadNextItem(count)`: without a cursor nothing happens; otherwise up
     * to `count` next items of the cursor's sequence are appended in order,
     * fewer only when the sequence runs out.
     */
    method LoadNextItem(count: int)
      requires Valid()
      modifies this`items, enumerator
      ensures Valid() && enumerator == old(enumerator)
      ensures enumerator == null ==> items == old(items)
      ensures enumerator != null ==>
        enumerator.position == Advance(old(enumerator.position), count, |enumerator.elements|) &&
        items == old(items) + enumerator.elements[old(enumerator.position)..enumerator.position]
    {
      if enumerator == null {
        return;
      }
      items := LoadNext(items, enumerator, count);
    }

    /**
     * `ResetLazyLoading`: clears the window, builds a new cursor over the
     * filtered data (none when the data is null) and loads `FirstLoadCount`
     * items from it. Nothing loaded before the reset survives.
     */
    method ResetLazyLoading()
      requires Valid()
      modifies this`items, this`enumerator
      ensures Valid()
      ensures enumerator != null ==> fresh(enumerator)
      ensures FreshlyLoaded(ApplySearchFilter(display, lazyDataSource, searchText))
    {
      items := [];
      var eff := ApplySearchFilter(display, lazyDataSource, searchText);
      if eff.Some? {
        enumerator := new Enumerator(eff.value);
      } else {
        enumerator := null;
      }
      LoadNextItem(firstLoadCount);
    }

    /**
     * Setting `LazyDataSource`: a non-null data set resets the loading; a
     * null one is stored but leaves window and cursor as they are.
     */
    method SetLazyDataSource(value: Option<seq<T>>)
      requires Valid()
      modifies this`lazyDataSource, this`items, this`enumerator
      ensures Valid() && lazyDataSource == value
      ensures value.None? ==> items == old(items) && enumerator == old(enumerator)
      ensures value.Some? ==>
        (enumerator != null ==> fresh(enumerator)) &&
        FreshlyLoaded(ApplySearchFilter(display, value, searchText))
    {
      lazyDataSource := value;
      if value.Some? {
        ResetLazyLoading();
      }
    }

    /**
     * Setting `SearchText`: a non-null text resets the loading with the new
     * filter; a null text is stored but leaves window and cursor as they are.
     * The cursor here keeps the filter of the last reset. As written, the
     * control instead throws on the next load when the last reset filtered by
     * a non-empty text and an item of the data is still untested; after a
     * reset with an empty text its cursor walks the data itself and loads go
     * on normally (see `LinqWhere`).
     */
    method SetSearchText(value: Option<string>)
      requires Valid()
      modifies this`searchText, this`items, this`enumerator
      ensures Valid() && searchText == value
      ensures value.None? ==> items == old(items) && enumerator == old(enumerator)
      ensures value.Some? ==>
        (enumerator != null ==> fresh(enumerator)) &&
        FreshlyLoaded(ApplySearchFilter(display, lazyDataSource, value))
    {
      searchText := value;
      if value.Some? {
        ResetLazyLoading();
      }
    }

    /** Setting `FirstLoadCount`: no callback; it takes effect at the next reset or `Loaded`. */
    method SetFirstLoadCount(value: int)
      modifies this`firstLoadCount
      ensures firstLoadCount == value
    {
      firstLoadCount := value;
    }

    /** The `Loaded` event: up to `FirstLoadCount` further items from where the cursor stands. */
    method OnLoaded()
      requires Valid()
      modifies this`items, enumerator
      ensures Valid() && enumerator == old(enumerator)
      ensures enumerator == null ==> items == old(items)
      ensures enumerator != null ==>
        enumerator.position == Advance(old(enumerator.position), firstLoadCount, |enumerator.elements|) &&
        items == old(items) + enumerator.elements[old(enumerator.position)..enumerator.position]
    {
      LoadNextItem(firstLoadCount);
    }

    /**
     * A scroll event, reduced to whether the list is scrolled to the bottom:
     * at the bottom, at most one more item is appended; elsewhere nothing changes.
     */
    method OnScrollChanged(atBottom: bool)
      requires Valid()
      modifies this`items, enumerator
      ensures Valid() && enumerator == old(enumerator)
      ensures |old(items)| <= |items| <= |old(items)| + 1
      ensures !atBottom || enumerator == null ==> items == old(items)
      ensures !atBottom && enumerator != null ==> enumerator.position == old(enumerator.position)
      ensures atBottom && enumerator != null ==>
        enumerator.position == Advance(old(enumerator.position), 1, |enumerator.elements|) &&
        items == old(items) + enumerator.elements[old(enumerator.position)..enumerator.position]
    {
      if atBottom {
        LoadNextItem(1);
      }
    }
  }
}
