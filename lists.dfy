// `List<T>.Remove` and `IndexOf` over references: the first occurrence of an element.
module Lists {

  /** The index of the first occurrence of x, or -1. */
  function FirstIndex<T(==)>(s: seq<T>, x: T): (k: int)
    ensures -1 <= k < |s|
    ensures k >= 0 ==> s[k] == x && x !in s[..k]
    ensures k == -1 <==> x !in s
  {
    if s == [] then -1
    else if s[0] == x then 0
    else
      var k := FirstIndex(s[1..], x);
      if k < 0 then -1 else (assert s[..k + 1] == [s[0]] + s[1..][..k]; k + 1)
  }

  /** `List.Remove`: the first occurrence goes; without one, nothing changes. */
  function RemoveFirst<T(==)>(s: seq<T>, x: T): seq<T>
  {
    var k := FirstIndex(s, x);
    if k < 0 then s else s[..k] + s[k + 1..]
  }

  predicate Distinct<T(==)>(s: seq<T>)
  {
    forall i, j :: 0 <= i < j < |s| ==> s[i] != s[j]
  }

  lemma DistinctSnoc<T>(s: seq<T>, x: T)
    requires Distinct(s) && x !in s
    ensures Distinct(s + [x])
  {
  }

  /** Dropping the element at i keeps a list without repetitions. */
  lemma DistinctRemoveAt<T>(s: seq<T>, i: nat)
    requires Distinct(s) && i < |s|
    ensures Distinct(s[..i] + s[i + 1..])
  {
    var r := s[..i] + s[i + 1..];
    assert forall k :: 0 <= k < |r| ==> r[k] == if k < i then s[k] else s[k + 1];
  }

  /** In a list without repetitions, removing x leaves exactly the other elements, in
    * their order, and no repetitions. */
  lemma RemoveFirstOfDistinct<T>(s: seq<T>, x: T)
    requires Distinct(s)
    ensures var r := RemoveFirst(s, x);
      Distinct(r) && x !in r && (forall y :: y in r <==> y in s && y != x)
      && |r| == if x in s then |s| - 1 else |s|
  {
    var k := FirstIndex(s, x);
    if k >= 0 {
      var r := s[..k] + s[k + 1..];
      assert forall i :: 0 <= i < |r| ==> r[i] == if i < k then s[i] else s[i + 1];
      forall y | y in s && y != x ensures y in r {
        var i :| 0 <= i < |s| && s[i] == y;
        assert i != k;
        if i < k { assert r[i] == y; } else { assert r[i - 1] == y; }
      }
    }
  }
}
