/**
 * The search filter shared by the lazy controls: LINQ's `Where` over a
 * finite source, instantiated with "the item's display string contains the
 * search text".
 */
module SearchFilter {
  import opened Wrappers
  import Text

  /** LINQ `Where`: the items of `s` satisfying `p`, in order, duplicates kept. */
  function Where<T>(s: seq<T>, p: T -> bool): (r: seq<T>)
    ensures |r| <= |s|
    ensures forall x :: x in r ==> x in s && p(x)
  {
    if s == [] then []
    else (if p(s[0]) then [s[0]] else []) + Where(s[1..], p)
  }

  /** Filtering a concatenation filters each part: the kept items stay in source order. */
  lemma {:induction false} WhereAppend<T>(a: seq<T>, b: seq<T>, p: T -> bool)
    ensures Where(a + b, p) == Where(a, p) + Where(b, p)
  {
    if a == [] {
      assert a + b == b;
    } else {
      assert (a + b)[1..] == a[1..] + b;
      WhereAppend(a[1..], b, p);
    }
  }

  /** Every item is kept exactly as often as it occurs in the source, or dropped entirely. */
  lemma {:induction false} WhereCount<T>(s: seq<T>, p: T -> bool, x: T)
    ensures multiset(Where(s, p))[x] == if p(x) then multiset(s)[x] else 0
  {
    if s != [] {
      assert s == [s[0]] + s[1..];
      WhereCount(s[1..], p, x);
    }
  }

  /** `WhereCount` for all items at once. */
  lemma WhereCounts<T>(s: seq<T>, p: T -> bool)
    ensures forall x :: multiset(Where(s, p))[x] == if p(x) then multiset(s)[x] else 0
  {
    forall x ensures multiset(Where(s, p))[x] == if p(x) then multiset(s)[x] else 0 {
      WhereCount(s, p, x);
    }
  }

  /** The filtered sequence holds no item more often than the source does. */
  lemma {:induction false} WhereSub<T>(s: seq<T>, p: T -> bool)
    ensures multiset(Where(s, p)) <= multiset(s)
  {
    if s != [] {
      assert s == [s[0]] + s[1..];
      WhereSub(s[1..], p);
    }
  }

  /** Filtering returns the source itself exactly when every item passes. */
  lemma {:induction false} WhereIdentity<T>(s: seq<T>, p: T -> bool)
    ensures Where(s, p) == s <==> forall i :: 0 <= i < |s| ==> p(s[i])
  {
    if s != [] {
      WhereIdentity(s[1..], p);
      if !p(s[0]) {
        assert |Where(s, p)| < |s|;
      } else if Where(s[1..], p) != s[1..] {
        assert Where(s, p)[1..] == Where(s[1..], p);
      }
    }
  }

  /** The conjunction of two item predicates. */
  function Both<T>(p: T -> bool, q: T -> bool): T -> bool {
    x => p(x) && q(x)
  }

  /** Filtering a filtered sequence keeps the items that pass both filters. */
  lemma {:induction false} WhereCompose<T>(s: seq<T>, p: T -> bool, q: T -> bool)
    ensures Where(Where(s, p), q) == Where(s, Both(p, q))
  {
    if s != [] {
      WhereCompose(s[1..], p, q);
      WhereAppend(if p(s[0]) then [s[0]] else [], Where(s[1..], p), q);
    }
  }

  /** The search predicate: the item's display string contains `text`. */
  function Matches<T>(display: T -> string, text: string): T -> bool {
    x => Text.Contains(display(x), text)
  }

  /**
   * The filtered view of `data` for a search text: the data itself when the
   * text is null or empty, otherwise the items whose display string contains
   * the text.
   */
  function SearchView<T>(display: T -> string, data: seq<T>, searchText: Option<string>): (r: seq<T>)
    ensures Text.IsNullOrEmpty(searchText) ==> r == data
    ensures multiset(r) <= multiset(data)
    ensures !Text.IsNullOrEmpty(searchText) ==>
      forall x | x in data :: multiset(r)[x] == if Text.Contains(display(x), searchText.value) then multiset(data)[x] else 0
  {
    if Text.IsNullOrEmpty(searchText) then data
    else
      WhereCounts(data, Matches(display, searchText.value));
      WhereSub(data, Matches(display, searchText.value));
      Where(data, Matches(display, searchText.value))
  }

  /**
   * For any non-null text, empty or not, the search view is the filter by
   * containment (the empty text is contained in every display string).
   */
  lemma SearchViewIsWhere<T>(display: T -> string, data: seq<T>, text: string)
    ensures SearchView(display, data, Some(text)) == Where(data, Matches(display, text))
  {
    if text == "" {
      forall i | 0 <= i < |data| ensures Matches(display, text)(data[i]) {
        Text.EmptyIsContained(display(data[i]));
      }
      WhereIdentity(data, Matches(display, text));
    }
  }

  /** Searching a searched view keeps the items whose display string contains both texts. */
  lemma SearchesCompose<T>(display: T -> string, data: seq<T>, first: string, second: string)
    ensures SearchView(display, SearchView(display, data, Some(first)), Some(second))
         == Where(data, Both(Matches(display, first), Matches(display, second)))
  {
    SearchViewIsWhere(display, data, first);
    SearchViewIsWhere(display, SearchView(display, data, Some(first)), second);
    WhereCompose(data, Matches(display, first), Matches(display, second));
  }

  /**
   * `ApplySearchFilter` of the combo box and data grid: a null source gives
   * a null sequence; otherwise the search view of the source.
   */
  function ApplySearchFilter<T>(display: T -> string, data: Option<seq<T>>, searchText: Option<string>): (r: Option<seq<T>>)
    ensures r.None? <==> data.None?
    ensures data.Some? && Text.IsNullOrEmpty(searchText) ==> r == data
    ensures data.Some? && !Text.IsNullOrEmpty(searchText) ==>
      r.value == Where(data.value, Matches(display, searchText.value))
    ensures data.Some? ==> multiset(r.value) <= multiset(data.value)
  {
    match data
    case None => None
    case Some(d) => Some(SearchView(display, d, searchText))
  }
}
