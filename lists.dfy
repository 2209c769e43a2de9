/** The contract keeps several per-user lists that only ever grow by appending an element that
    is not yet present (traded pair keys, ledger heights, active users); this module holds that
    append-if-absent discipline and the linear scan that implements its membership test. */
module Lists {

  /** No element occurs twice. */
  predicate NoDuplicates<T(==)>(xs: seq<T>)
  {
    forall i, j :: 0 <= i < j < |xs| ==> xs[i] != xs[j]
  }

  /** The scan the contract runs before a `push_back`: walk the list and stop at the first
      element equal to `x`. */
  method Contains<T(==)>(xs: seq<T>, x: T) returns (found: bool)
    ensures found <==> x in xs
  {
    found := false;
    var i := 0;
    while i < |xs|
      invariant 0 <= i <= |xs|
      invariant x !in xs[..i]
    {
      if xs[i] == x {
        return true;
      }
      i := i + 1;
    }
    assert xs[..i] == xs;
  }

  /** The list after appending `x` unless it is already there. */
  function AppendIfAbsent<T(==)>(xs: seq<T>, x: T): seq<T>
  {
    if x in xs then xs else xs + [x]
  }

  /** Appending if absent puts `x` on the list and adds nothing else: the old entries stay in
      front, the list grows exactly when `x` was missing, and a list without repeats stays
      without repeats. */
  lemma AppendIfAbsentKeepsDistinct<T>(xs: seq<T>, x: T)
    ensures var r := AppendIfAbsent(xs, x);
            && x in r
            && (forall i :: 0 <= i < |r| ==> r[i] == x || r[i] in xs)
            && (|r| == |xs| <==> x in xs)
            && |xs| <= |r| <= |xs| + 1
            && r[..|xs|] == xs
            && (NoDuplicates(xs) ==> NoDuplicates(r))
  {
    var r := AppendIfAbsent(xs, x);
    if x !in xs {
      assert r[..|xs|] == xs;
      assert forall i :: 0 <= i < |xs| ==> r[i] == xs[i];
    }
  }
}
