/**
 * The `Lazy` attached properties, as they act on one items control. Setting
 * the data source installs a new window and an unfiltered cursor over the
 * new source; setting the search text replaces the stored source by its
 * filtered view, which in turn reloads, so successive searches narrow the
 * source cumulatively.
 */
module Lazy {
  import opened Wrappers
  import opened SearchFilter
  import opened Cursor

  class AttachedState<T> {
    /** How an item is turned into the string the search text is matched against (`$"{item}"`). */
    const display: T -> string
    /** The `LazyDataSource` attached value, or null. */
    var lazyDataSource: Option<seq<T>>
    /** The `SearchText` attached value, or null. */
    var searchText: Option<string>
    /** The `FirstLoadCount` attached value. */
    var firstLoadCount: int
    /** The control's `ItemsSource` collection that the loader fills. */
    var itemsSource: seq<T>
    /** The `LazyDataEnumerator` attached value: the cursor, or null before any source. */
    var enumerator: Enumerator?<T>

    /** The window is exactly what the cursor has yielded so far; with no cursor it is empty. */
    ghost predicate Valid()
      reads this, enumerator
    {
      if enumerator == null then itemsSource == []
      else enumerator.Valid() && itemsSource == enumerator.elements[..enumerator.position]
    }

    /**
     * The state right after a source change to `s`: a cursor over `s` itself
     * that has yielded the first `FirstLoadCount` items (fewer if `s` is
     * shorter), and those items are the whole window.
     */
    ghost predicate FreshlyLoaded(s: seq<T>)
      reads this, enumerator
    {
      enumerator != null && enumerator.elements == s &&
      enumerator.position == Advance(0, firstLoadCount, |s|) &&
      itemsSource == s[..enumerator.position]
    }

    /** A control with none of the properties set: no data, empty search text, `FirstLoadCount` 20. */
    constructor (display: T -> string)
      ensures Valid() && this.display == display
      ensures lazyDataSource == None && searchText == Some("") && firstLoadCount == 20
      ensures itemsSource == [] && enumerator == null
    {
      this.display := display;
      lazyDataSource := None;
      searchText := Some("");
      firstLoadCount := 20;
      itemsSource := [];
      enumerator := null;
    }

    /**
     * `LoadNextItems(control, count)`: without a stored cursor nothing
     * happens; otherwise up to `count` next items are appended in order,
     * fewer only when the source runs out.
     */
    method LoadNextItems(count: int)
      requires Valid()
      modifies this`itemsSource, enumerator
      ensures Valid() && enumerator == old(enumerator)
      ensures enumerator == null ==> itemsSource == old(itemsSource)
      ensures enumerator != null ==>
        enumerator.position == Advance(old(enumerator.position), count, |enumerator.elements|) &&
        itemsSource == old(itemsSource) + enumerator.elements[old(enumerator.position)..enumerator.position]
    {
      if enumerator == null {
        return;
      }
      itemsSource := LoadNext(itemsSource, enumerator, count);
    }

    /**
     * Setting `LazyDataSource` (`OnLazyDataSourceChanged`): a non-null source
     * gets a new, empty collection and a new cursor over the source as given
     * (no filter is applied here), then the first `FirstLoadCount` items. A
     * null source is stored and changes nothing else.
     */
    method SetLazyDataSource(value: Option<seq<T>>)
      requires Valid()
      modifies this`lazyDataSource, this`itemsSource, this`enumerator
      ensures Valid() && lazyDataSource == value
      ensures value.None? ==> itemsSource == old(itemsSource) && enumerator == old(enumerator)
      ensures value.Some? ==> fresh(enumerator) && FreshlyLoaded(value.value)
    {
      lazyDataSource := value;
      if value.Some? {
        itemsSource := [];
        enumerator := new Enumerator(value.value);
        LoadNextItems(firstLoadCount);
      }
    }

    /**
     * Setting `SearchText` (`OnSearchTextChanged`): with no source attached
     * only the text is stored. Otherwise the stored source is replaced by its
     * search view for the new text (the source itself for a null or empty
     * text), and that replacement reloads as a source change does.
     */
    method SetSearchText(value: Option<string>)
      requires Valid()
      modifies this`searchText, this`lazyDataSource, this`itemsSource, this`enumerator
      ensures Valid() && searchText == value
      ensures old(lazyDataSource).None? ==>
        lazyDataSource == None && itemsSource == old(itemsSource) && enumerator == old(enumerator)
      ensures old(lazyDataSource).Some? ==>
        lazyDataSource == Some(SearchView(display, old(lazyDataSource).value, value)) &&
        fresh(enumerator) && FreshlyLoaded(lazyDataSource.value)
    {
      searchText := value;
      if lazyDataSource.Some? {
        var filtered := SearchView(display, lazyDataSource.value, value);
        SetLazyDataSource(Some(filtered));
      }
    }

    /** Setting `FirstLoadCount`: no callback; it takes effect at the next source change. */
    method SetFirstLoadCount(value: int)
      modifies this`firstLoadCount
      ensures firstLoadCount == value
    {
      firstLoadCount := value;
    }

    /**
     * `OnScrollChanged`, reduced to whether the list is scrolled to the
     * bottom: at the bottom, at most one more item; elsewhere nothing.
     */
    method OnScrollChanged(atBottom: bool)
      requires Valid()
      modifies this`itemsSource, enumerator
      ensures Valid() && enumerator == old(enumerator)
      ensures |old(itemsSource)| <= |itemsSource| <= |old(itemsSource)| + 1
      ensures !atBottom || enumerator == null ==> itemsSource == old(itemsSource)
      ensures !atBottom && enumerator != null ==> enumerator.position == old(enumerator.position)
      ensures atBottom && enumerator != null ==>
        enumerator.position == Advance(old(enumerator.position), 1, |enumerator.elements|) &&
        itemsSource == old(itemsSource) + enumerator.elements[old(enumerator.position)..enumerator.position]
    {
      if atBottom {
        LoadNextItems(1);
      }
    }
  }

  /**
   * Two searches in a row on an attached source leave the items of the
   * original source whose display string contains both texts, in order;
   * the second search never brings back an item the first one removed.
   */
  method SearchTwice<T>(state: AttachedState<T>, first: string, second: string)
    requires state.Valid() && state.lazyDataSource.Some?
    modifies state, state.enumerator
    ensures state.Valid()
    ensures state.lazyDataSource == Some(Where(old(state.lazyDataSource).value,
      Both(Matches(state.display, first), Matches(state.display, second))))
    ensures multiset(state.lazyDataSource.value)
         <= multiset(SearchView(state.display, old(state.lazyDataSource).value, Some(first)))
  {
    ghost var original := state.lazyDataSource.value;
    state.SetSearchText(Some(first));
    state.SetSearchText(Some(second));
    SearchesCompose(state.display, original, first, second);
  }
}
