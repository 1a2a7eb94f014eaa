# LazyControls: incremental windowed loading with a text filter

LazyControls provides WPF list controls that show a very large data set a
few items at a time. A control keeps a display window (an
`ObservableCollection`) and a forward-only enumerator over the data. When a
data source is attached, the control loads `FirstLoadCount` items. Each time
the list is scrolled to the bottom it loads one more. A search text restricts
the data to the items whose display string (`$"{item}"`) contains the text,
compared ordinally (case-sensitive).

The logic appears three times:

* `LazyCheckComboBox` and `LazyDataGrid` hold the same code. It is modelled
  once, by the class `LazyLoading.LazyItemsControl`. On a reset the control
  clears the window, builds a cursor over the filtered source and loads the
  first batch.
* `Lazy` is the attached-property variant, modelled by `Lazy.AttachedState`.
  A source change installs a new window and an unfiltered cursor. A
  search-text change replaces the stored source by its filtered view, which
  reloads. So successive searches narrow the source cumulatively.

Modules:

* `Wrappers`: `Option`, which stands for a nullable reference (`None` is null).
* `Text`: ordinal `String.Contains` and `String.IsNullOrEmpty`.
* `SearchFilter`: LINQ `Where` over a finite sequence, the search view, and
  `ApplySearchFilter`, each with lemmas on order, multiplicity, identity and
  composition.
* `Cursor`: the enumerator (`GetEnumerator` / `MoveNext` / `Current`), the
  loading loop the three controls share, and the position arithmetic of a
  series of loads.
* `LazyLoading`: the combo box / data grid class.
* `Lazy`: the attached-property class.
* `LinqWhere`: one step of the lazily filtering enumerator, as written and
  corrected (see Findings).

The data source is a finite `seq<T>`. The display string is a `display: T ->
string` constant of each class. The host framework's property-change
callbacks are explicit setter methods (`SetLazyDataSource`, `SetSearchText`).
The `Loaded` event is `OnLoaded`. A scroll event is `OnScrollChanged(atBottom)`,
where `atBottom` is the scroll viewer's "offset equals scrollable height" test,
supplied as an input.

The window is always a prefix of the sequence the cursor walks. The class
invariant `Valid()` states this in both classes. A cursor exists only after a
reset over non-null data; without one the window is empty. Each load moves the
cursor to `Cursor.Advance(position, count, length)`: never backwards, never
past the end, at most `count` further, and short of `count` only at the end.

The code filters lazily: the LINQ enumerator tests items as it is advanced.
The model builds each cursor over the already filtered sequence instead.
`LinqWhere.CapturedMoveNextFollowsWhere` justifies this: stepping the lazy
enumerator with the text fixed yields exactly that sequence, item by item.

Notes on the code's behaviour:

* A null search text does not reset. Only a non-null text triggers a reset.
  `LazyLoading.LazyItemsControl` then keeps the filter of the last reset.
  The code as written instead throws `ArgumentNullException` on the next
  load, but only when the last reset filtered by a non-empty text and an
  item of the data is still untested. After a reset with an empty text the
  cursor walks the data itself, and loads go on normally (see Findings).
* `Lazy` applies no filter when the source changes. Its filter is applied by
  replacing the source itself.
* There is no page-size setting. Scroll loads ask for one item.
* There is no proximity threshold. The trigger is "scrolled to the bottom".
* `LoadNextItem` returns nothing.

## Model

| member | source | states |
|---|---|---|
| `Text.Contains` | LazyControls/Controls/LazyCheckComboBox.cs:184 | the display string contains the search text exactly when the text occurs at some index of it, character by character (ordinal, case-sensitive) |
| `Text.IsNullOrEmpty` | LazyControls/Controls/LazyCheckComboBox.cs:181 | `String.IsNullOrEmpty`: a text it accepts, when not null, is contained in every string; a text it rejects is non-null and non-empty |
| `SearchFilter.Matches` | LazyControls/Controls/Lazy.cs:96 | the search predicate `item => $"{item}".Contains(text)`: the item's display string contains the text (no contract; used by the lemmas below) |
| `SearchFilter.Where` | LazyControls/Controls/LazyDataGrid.cs:170 | the filtered sequence is no longer than the source, and holds only items of the source that pass the predicate |
| `SearchFilter.WhereAppend` | LazyControls/Controls/LazyCheckComboBox.cs:184 | filtering a concatenation is the concatenation of the filtered parts, so kept items stay in source order |
| `SearchFilter.WhereCount` | LazyControls/Controls/LazyDataGrid.cs:170 | each passing item is kept exactly as often as it occurs in the source (duplicates preserved); a failing item never appears |
| `SearchFilter.WhereSub` | LazyControls/Controls/LazyDataGrid.cs:170 | the filtered sequence never holds an item more often than the source |
| `SearchFilter.WhereIdentity` | LazyControls/Controls/LazyCheckComboBox.cs:184 | the filter returns the source unchanged if and only if every item passes |
| `SearchFilter.WhereCompose` | LazyControls/Controls/Lazy.cs:92-98 | filtering a filtered sequence equals one filter by the conjunction of both predicates |
| `SearchFilter.SearchView` | LazyControls/Controls/Lazy.cs:94-96 | a null or empty search text gives the data itself; a non-empty one keeps every item whose display string contains the text exactly as often as the data holds it and drops every other; never more of any item than the data |
| `SearchFilter.SearchViewIsWhere` | LazyControls/Controls/Lazy.cs:94-96 | for every non-null text, empty included, the search view equals filtering by containment |
| `SearchFilter.SearchesCompose` | LazyControls/Controls/Lazy.cs:89-100 | searching for one non-null text and then another (either may be empty) leaves, of the original source, the items whose display string contains both, in order |
| `SearchFilter.ApplySearchFilter` | LazyControls/Controls/LazyCheckComboBox.cs:176-185 | null data gives null and only null data does; a null or empty search text gives the data unchanged; a non-empty text gives the LINQ `Where` of the data by containment of the text in the display string (so every matching item is kept, in order, with its multiplicity, by `WhereAppend` and `WhereCount`); the result never holds more of any item than the data |
| `Cursor.Advance` | LazyControls/Controls/LazyCheckComboBox.cs:154-158 | a load moves the cursor forward by at most `count`, never past the end, by exactly `count` unless the sequence runs out, and not at all for `count <= 0` |
| `Cursor.Enumerator.constructor` | LazyControls/Controls/LazyCheckComboBox.cs:167 | `GetEnumerator` gives a cursor over the sequence before its first item |
| `Cursor.Enumerator.Current` | LazyControls/Controls/LazyCheckComboBox.cs:157 | the current item is the last item the cursor stepped onto: the items passed over are those before it followed by it |
| `Cursor.Enumerator.MoveNext` | LazyControls/Controls/LazyCheckComboBox.cs:156 | succeeds exactly when an item is left and then steps onto it; after the end it fails and stays put |
| `Cursor.LoadNext` | LazyControls/Controls/Lazy.cs:107-111 | the loop appends to the window exactly the items the cursor passes over, in order, and the cursor ends at `Advance(start, count, length)` |
| `Cursor.AdvanceAll` | LazyControls/Controls/LazyDataGrid.cs:143-147 | a series of loads never moves the cursor backwards or past the end |
| `Cursor.AdvanceAllCapped` | LazyControls/Controls/LazyDataGrid.cs:143-147 | after a series of loads the cursor has moved by the total requested (non-positive requests counting zero), capped at the end of the sequence |
| `Cursor.ExhaustedStaysPut` | LazyControls/Controls/LazyCheckComboBox.cs:154-157 | once a load returns fewer items than requested, the cursor is at the end and no later series of loads moves it |
| `LazyLoading.LazyItemsControl.constructor` | LazyControls/Controls/LazyCheckComboBox.cs:92-99 | a new control has an empty window, no cursor, no data, empty search text and `FirstLoadCount` 30 |
| `LazyLoading.LazyItemsControl.LoadNextItem` | LazyControls/Controls/LazyCheckComboBox.cs:149-159 | without a cursor the window is unchanged; otherwise the next items of the cursor's sequence, up to `count`, are appended in order and the window stays a prefix of that sequence |
| `LazyLoading.LazyItemsControl.ResetLazyLoading` | LazyControls/Controls/LazyCheckComboBox.cs:164-169 | afterwards the window is the first `min(FirstLoadCount, length)` items of the filtered source under a fresh cursor over it, with no earlier item carried over; null data leaves no cursor and an empty window |
| `LazyLoading.LazyItemsControl.SetLazyDataSource` | LazyControls/Controls/LazyDataGrid.cs:98-104 | a non-null source resets the loading over the filtered new source; a null source is stored and leaves window and cursor unchanged |
| `LazyLoading.LazyItemsControl.SetSearchText` | LazyControls/Controls/LazyCheckComboBox.cs:119-125 | a non-null text resets the loading over the source filtered by the new text; a null text is stored and leaves window and cursor unchanged |
| `LazyLoading.LazyItemsControl.SetFirstLoadCount` | LazyControls/Controls/LazyDataGrid.cs:69-73 | stores the count and triggers nothing |
| `LazyLoading.LazyItemsControl.OnLoaded` | LazyControls/Controls/LazyDataGrid.cs:88 | `Loaded` appends up to `FirstLoadCount` further items from where the cursor stands |
| `LazyLoading.LazyItemsControl.OnScrollChanged` | LazyControls/Controls/LazyDataGrid.cs:120-133 | at the bottom, at most one next item is appended; elsewhere window and cursor are unchanged |
| `Lazy.AttachedState.constructor` | LazyControls/Controls/Lazy.cs:19-35 | before any property is set: no data, empty search text, `FirstLoadCount` 20, no cursor, empty window |
| `Lazy.AttachedState.LoadNextItems` | LazyControls/Controls/Lazy.cs:102-113 | without a stored cursor nothing changes; otherwise up to `count` next items are appended in order, none once the source is exhausted |
| `Lazy.AttachedState.SetLazyDataSource` | LazyControls/Controls/Lazy.cs:75-87 | a non-null source gets a fresh window and a fresh unfiltered cursor over that source, then its first `min(FirstLoadCount, length)` items; a null source changes nothing else |
| `Lazy.AttachedState.SetSearchText` | LazyControls/Controls/Lazy.cs:89-100 | with no source only the text is stored; otherwise the stored source becomes the search view of the current source for the new text, and the window is reloaded from it |
| `Lazy.AttachedState.SetFirstLoadCount` | LazyControls/Controls/Lazy.cs:69 | stores the count and triggers nothing |
| `Lazy.AttachedState.OnScrollChanged` | LazyControls/Controls/Lazy.cs:115-124 | at the bottom, at most one next item is appended; elsewhere window and cursor are unchanged |
| `Lazy.SearchTwice` | LazyControls/Controls/Lazy.cs:92-98 | two non-null searches in a row (either may be empty) leave the original items containing both texts, and never widen the source left by the first search |
| `LinqWhere.CapturedMoveNext` | LazyControls/Controls/LazyDataGrid.cs:170 | a step of the filtering enumerator with the text fixed at reset never throws, and yields an item of the data beyond the current index |
| `LinqWhere.CapturedMoveNextFollowsWhere` | LazyControls/Controls/LazyCheckComboBox.cs:184 | such steps walk the filtered sequence item by item, finishing exactly when no filtered item is left |
| `LinqWhere.LiveMoveNext` | LazyControls/Controls/LazyCheckComboBox.cs:184 | as written, a step tests each item with the search text current at that moment and yields an item of the data beyond the current index |
| `LinqWhere.LiveMoveNextAgainstCaptured` | LazyControls/Controls/LazyCheckComboBox.cs:184 | as written, a step throws exactly when the search text is null and an item is left to test; with a non-null text it agrees with the captured step |
| `LinqWhere.NullSearchTextBreaksNextLoad` | LazyControls/Controls/LazyCheckComboBox.cs:119-125 | on data ["ab", "ac"] with search "a", a later null search text makes the next load throw as written, where the captured filter yields "ac" |

## Left out

- `Program.cs` (`InferMainType` and its benchmark driver) is not part of this model: it is unrelated to the controls and relies on .NET's number, date and boolean parsers, floating point, randomness and timing.
- `MainWindow.xaml.cs` only fills a demo list and is not part of this model.
- Dependency-property registration, `GetValue`/`SetValue` and the HandyControl and WPF base classes are replaced by explicit setter methods and fields.
- The framework suppresses a change callback when the new value equals the old one; the model does not, so every set raises its callback (in `Lazy`, an empty search text therefore reloads the unchanged source).
- Change notifications of `ObservableCollection` to the display are not modelled; the window is a sequence that is reassigned.
- Scroll geometry is not modelled: the `double` comparison of the vertical offset with the scrollable height is the boolean `atBottom`, and the one-pixel `ScrollToVerticalOffset` nudge after a load is left out.
- `Lazy.AttachedState.OnScrollChanged`: `Lazy.OnScrollChanged` is private and `Lazy` never subscribes it to any event (LazyControls/Controls/Lazy.cs:115), so nothing calls it; it is modelled as a method a host could call.
- Sources are finite sequences that nobody mutates; unbounded enumerables and enumerator invalidation after a mutation of the source are not modelled.
- The filter is evaluated eagerly when a cursor is built rather than item by item; `LinqWhere` shows that the two agree as long as the search text stays non-null (see Findings).
- An exception thrown while loading (see Findings) would leave the items appended before it in the window; the model's loaders never throw.
- `Lazy.AttachedState`: the control's `ItemsSource` before any source is attached is modelled as empty, and a host replacing `ItemsSource` with something other than the loader's collection (which would make the cast in `LoadNextItems` yield null) is not modelled.
- `$"{item}"` (including the empty string for a null item) is the abstract `display` function.
- `Text.Contains`: Dafny strings are sequences of Unicode scalar values, while .NET's ordinal `Contains` compares UTF-16 code units; the two agree on well-formed text, but strings holding unpaired surrogates (which a .NET `ToString()` can return) cannot be represented.

## Findings

| source | as written | input that shows it | evidently intended | confidence | as-written member | corrected member |
|---|---|---|---|---|---|---|
| LazyControls/Controls/LazyCheckComboBox.cs:119-125 | the filter lambda built by `ApplySearchFilter` (line 184) reads `SearchText` each time the cursor advances, and a null `SearchText` is stored without a reset; the same holds in LazyControls/Controls/LazyDataGrid.cs:109-115 and 170 | data ["ab", "ac"] displayed as themselves, `FirstLoadCount` 1, `SearchText` "a", then `SearchText` set to null, then a scroll to the bottom: the next `MoveNext` calls `Contains(null)` and throws `ArgumentNullException` | the cursor keeps the filter it was built with, so later loads go on appending filtered items | not executed; high | `LinqWhere.LiveMoveNext` with `LinqWhere.LiveMoveNextAgainstCaptured` and `LinqWhere.NullSearchTextBreaksNextLoad` | `LinqWhere.CapturedMoveNext` with `LinqWhere.CapturedMoveNextFollowsWhere` (the cursor model of `LazyLoading.LazyItemsControl`) |
