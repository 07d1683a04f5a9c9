/** Generic list operations the Python code relies on: `list.index` and stacking copies of a list. */
module Lists {
  import opened Outcomes
  import opened Arith

  /** Python's `s.index(x)`: the position of the first element equal to `x`, or `None` where
      Python raises `ValueError`. */
  function FirstIndex<T(==)>(s: seq<T>, x: T): (r: Option<nat>)
    ensures r.None? <==> x !in s
    ensures r.Some? ==> r.value < |s| && s[r.value] == x
    ensures r.Some? ==> forall j :: 0 <= j < r.value ==> s[j] != x
  {
    if s == [] then None
    else if s[0] == x then Some(0)
    else match FirstIndex(s[1..], x)
      case None => None
      case Some(i) => Some(i + 1)
  }

  /** No value occurs twice in `s`. */
  predicate Distinct<T(==)>(s: seq<T>) {
    forall i, j :: 0 <= i < j < |s| ==> s[i] != s[j]
  }

  /** In a list without repetitions, every element is found at its own position. */
  lemma FirstIndexOfDistinct<T>(s: seq<T>, i: nat)
    requires Distinct(s) && i < |s|
    ensures FirstIndex(s, s[i]) == Some(i)
  {
  }

  /** `n` copies of `s`, one after the other. */
  function Cycle<T>(s: seq<T>, n: nat): (r: seq<T>)
    ensures |r| == n * |s|
  {
    if n == 0 then [] else Cycle(s, n - 1) + s
  }

  /** Element `k` of `n` stacked copies of `s` is element `k mod |s|` of `s`. */
  lemma {:induction false} CycleAt<T>(s: seq<T>, n: nat, k: nat)
    requires k < n * |s|
    ensures Cycle(s, n)[k] == s[k % |s|]
  {
    var m := (n - 1) * |s|;
    assert n * |s| == m + |s|;
    if k < m {
      CycleAt(s, n - 1, k);
    } else {
      DivModUnique(n - 1, |s|, k - m);
    }
  }
}
