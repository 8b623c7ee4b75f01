/**
  `Array.prototype.findIndex` and `Array.prototype.filter` specialised to the
  one use the playground makes of them: looking records up, or dropping them,
  by a string key such as `id`.
 */
module Lists {

  /** `i` is the first index of `s` whose element has key `k`. */
  predicate IsFirstIndex<T>(s: seq<T>, key: T -> string, k: string, i: int) {
    0 <= i < |s| && key(s[i]) == k && forall j :: 0 <= j < i ==> key(s[j]) != k
  }

  /** There is at most one first index. */
  lemma FirstIndexUnique<T>(s: seq<T>, key: T -> string, k: string, i: int, j: int)
    requires IsFirstIndex(s, key, k, i) && IsFirstIndex(s, key, k, j)
    ensures i == j
  {
  }

  /** `s.findIndex(x => key(x) === k)`: -1 when no element has the key, otherwise the first such index. */
  function FindIndex<T>(s: seq<T>, key: T -> string, k: string): (r: int)
    ensures -1 <= r < |s|
    ensures r == -1 <==> forall i :: 0 <= i < |s| ==> key(s[i]) != k
    ensures r >= 0 ==> IsFirstIndex(s, key, k, r)
  {
    if |s| == 0 then -1
    else if key(s[0]) == k then 0
    else
      var r := FindIndex(s[1..], key, k);
      if r == -1 then -1 else r + 1
  }

  /** `s.filter(x => key(x) !== k)`. */
  function WithoutKey<T(==)>(s: seq<T>, key: T -> string, k: string): (r: seq<T>)
    ensures |r| <= |s|
    ensures forall i :: 0 <= i < |r| ==> key(r[i]) != k
    ensures forall i :: 0 <= i < |r| ==> r[i] in s
    ensures forall i :: 0 <= i < |s| && key(s[i]) != k ==> s[i] in r
    ensures (forall i :: 0 <= i < |s| ==> key(s[i]) != k) ==> r == s
  {
    if |s| == 0 then []
    else
      var rest := WithoutKey(s[1..], key, k);
      if key(s[0]) == k then rest else [s[0]] + rest
  }

  /** Filtering distributes over concatenation, so the survivors keep their relative order. */
  lemma {:induction false} WithoutKeyAppend<T>(a: seq<T>, b: seq<T>, key: T -> string, k: string)
    ensures WithoutKey(a + b, key, k) == WithoutKey(a, key, k) + WithoutKey(b, key, k)
  {
    if |a| > 0 {
      assert (a + b)[1..] == a[1..] + b;
      WithoutKeyAppend(a[1..], b, key, k);
    } else {
      assert a + b == b;
    }
  }

  /** Removing a key twice removes nothing more. */
  lemma WithoutKeyIdempotent<T>(s: seq<T>, key: T -> string, k: string)
    ensures WithoutKey(WithoutKey(s, key, k), key, k) == WithoutKey(s, key, k)
  {
  }

  /** The survivors are exactly the elements whose key differs, counted as many times as they occur. */
  lemma {:induction false} WithoutKeyMultiset<T>(s: seq<T>, key: T -> string, k: string)
    ensures forall x :: key(x) != k ==> multiset(WithoutKey(s, key, k))[x] == multiset(s)[x]
    ensures forall x :: key(x) == k ==> multiset(WithoutKey(s, key, k))[x] == 0
  {
    if |s| > 0 {
      WithoutKeyMultiset(s[1..], key, k);
      assert s == [s[0]] + s[1..];
    }
  }
}
