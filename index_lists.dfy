/**
 * The lists of observation indices a DataCloud keeps
 * (figures/firmware_v5/telelogger/k_fix.h): what addPoints leaves behind
 * after sorting and removing duplicates.
 */
module IndexLists {

  /** Sorted without repeats. */
  predicate StrictlySorted(s: seq<int>)
  {
    forall i, j :: 0 <= i < j < |s| ==> s[i] < s[j]
  }

  /** Insert one index into a strictly sorted list, dropping it if present. */
  function InsertSorted(s: seq<int>, x: int): (r: seq<int>)
    requires StrictlySorted(s)
    ensures StrictlySorted(r)
    ensures forall y :: y in r <==> y in s || y == x
    decreases |s|
  {
    if s == [] then [x]
    else if x < s[0] then [x] + s
    else if x == s[0] then s
    else
      var rest := InsertSorted(s[1..], x);
      assert forall j :: 0 <= j < |rest| ==> rest[j] in rest;
      assert forall j :: 1 <= j < |s| ==> s[0] < s[j];
      assert forall j :: 0 <= j < |rest| ==> s[0] < rest[j];
      [s[0]] + rest
  }

  /**
   * std::sort followed by std::unique and erase: the strictly sorted list
   * of the distinct indices of `s`.
   */
  function SortedUnique(s: seq<int>): (r: seq<int>)
    ensures StrictlySorted(r)
    ensures forall y :: y in r <==> y in s
    decreases |s|
  {
    if s == [] then []
    else InsertSorted(SortedUnique(s[..|s| - 1]), s[|s| - 1])
  }

  /** Two strictly sorted lists with the same members are the same list. */
  lemma {:induction false} StrictlySortedUnique(a: seq<int>, b: seq<int>)
    requires StrictlySorted(a) && StrictlySorted(b)
    requires forall y :: y in a <==> y in b
    ensures a == b
    decreases |a|
  {
    assert a != [] ==> a[0] in a;
    assert b != [] ==> b[0] in b;
    if a != [] && b != [] {
      assert a[0] == b[0];
      forall y ensures y in a[1..] <==> y in b[1..] {
        if y in a[1..] {
          assert y > a[0];
          assert y in b;
        }
        if y in b[1..] {
          assert y > b[0];
          assert y in a;
        }
      }
      StrictlySortedUnique(a[1..], b[1..]);
    }
  }

  /** Sorting and de-duplicating an already strictly sorted list changes nothing. */
  lemma SortedUniqueIdentity(s: seq<int>)
    requires StrictlySorted(s)
    ensures SortedUnique(s) == s
  {
    StrictlySortedUnique(SortedUnique(s), s);
  }

  /** Sorting and de-duplicating is idempotent. */
  lemma SortedUniqueIdempotent(s: seq<int>)
    ensures SortedUnique(SortedUnique(s)) == SortedUnique(s)
  {
    SortedUniqueIdentity(SortedUnique(s));
  }
}
