/**
 * The string operations the search filter relies on: ordinal (case-sensitive,
 * culture-blind) substring containment, as .NET's `String.Contains(string)`
 * on well-formed text (Dafny strings are sequences of Unicode scalar values,
 * .NET strings of UTF-16 code units), and the `String.IsNullOrEmpty` test.
 */
module Text {
  import opened Wrappers

  /** `sub` occurs in `s` at index `i`, character by character. */
  predicate OccursAt(s: string, sub: string, i: nat) {
    i + |sub| <= |s| && s[i..i + |sub|] == sub
  }

  /** An occurrence in the tail of `s` is an occurrence in `s` one index further on. */
  lemma OccursInTail(s: string, sub: string)
    requires |s| > 0
    ensures forall i: nat :: OccursAt(s[1..], sub, i) <==> OccursAt(s, sub, i + 1)
  {
    forall i: nat
      ensures OccursAt(s[1..], sub, i) <==> OccursAt(s, sub, i + 1)
    {
      if i + |sub| <= |s| - 1 {
        assert s[1..][i..i + |sub|] == s[i + 1..i + 1 + |sub|];
      }
    }
  }

  /** Ordinal substring containment: true exactly when `sub` occurs somewhere in `s`. */
  function Contains(s: string, sub: string): (r: bool)
    ensures r <==> exists i: nat :: OccursAt(s, sub, i)
    decreases |s|
  {
    if |s| < |sub| then false
    else if sub <= s then
      assert OccursAt(s, sub, 0);
      true
    else
      OccursInTail(s, sub);
      var r := Contains(s[1..], sub);
      assert r ==> exists i: nat :: OccursAt(s, sub, i) by {
        if r {
          var j: nat :| OccursAt(s[1..], sub, j);
          assert OccursAt(s, sub, j + 1);
        }
      }
      assert (exists i: nat :: OccursAt(s, sub, i)) ==> r by {
        if i: nat :| OccursAt(s, sub, i) {
          assert i != 0;
          assert OccursAt(s[1..], sub, i - 1);
        }
      }
      r
  }

  /** The empty string occurs in every string, at index 0. */
  lemma EmptyIsContained(s: string)
    ensures Contains(s, "")
  {
    assert OccursAt(s, "", 0);
  }

  /**
   * `String.IsNullOrEmpty`. A text it accepts, when not null, is contained
   * in every string, so filtering by it would keep everything.
   */
  function IsNullOrEmpty(s: Option<string>): (r: bool)
    ensures r && s.Some? ==> forall t: string :: Contains(t, s.value)
    ensures !r ==> s.Some? && |s.value| > 0
  {
    if s.None? then true
    else if s.value == "" then
      assert forall t: string :: Contains(t, s.value) by {
        forall t: string ensures Contains(t, s.value) {
          EmptyIsContained(t);
        }
      }
      true
    else false
  }
}
