/** Generic list operations that several of the web components use on arrays
    of records keyed by one of their fields: `Array.prototype.filter` with a
    "key differs" test, `findIndex` with a "key equals" test, and the
    copy-then-assign-one-index update built on it. */
module Lists {
  import opened Wrappers

  /** `arr.filter(x => key(x) !== k)`: drops every element with key `k`. */
  function RemoveKey<T(==), K(==)>(s: seq<T>, key: T -> K, k: K): (r: seq<T>)
    ensures |r| <= |s|
    ensures forall i :: 0 <= i < |r| ==> key(r[i]) != k && r[i] in s
    ensures forall i :: 0 <= i < |s| && key(s[i]) != k ==> s[i] in r
  {
    if s == [] then []
    else if key(s[0]) != k then [s[0]] + RemoveKey(s[1..], key, k)
    else RemoveKey(s[1..], key, k)
  }

  /** `arr.findIndex(x => key(x) === k)`: the first index with key `k`, or -1. */
  function FindIndex<T, K(==)>(s: seq<T>, key: T -> K, k: K): (i: int)
    ensures -1 <= i < |s|
    ensures 0 <= i ==> key(s[i]) == k
    ensures forall j :: 0 <= j < |s| && (i == -1 || j < i) ==> key(s[j]) != k
  {
    if s == [] then -1
    else if key(s[0]) == k then 0
    else
      var j := FindIndex(s[1..], key, k);
      if j == -1 then -1 else j + 1
  }

  /** `arr.find(x => key(x) === k)`: the first element with key `k`, if any. */
  function Find<T, K(==)>(s: seq<T>, key: T -> K, k: K): (r: Option<T>)
    ensures r.None? <==> forall i :: 0 <= i < |s| ==> key(s[i]) != k
    ensures r.Some? ==>
      exists i :: 0 <= i < |s| && s[i] == r.value && key(s[i]) == k && (forall j :: 0 <= j < i ==> key(s[j]) != k)
    ensures forall i :: IsFirstWithKey(s, key, k, i) ==> r == Some(s[i])
  {
    var i := FindIndex(s, key, k);
    if i == -1 then None else Some(s[i])
  }

  /** `s[i]` is the first element with key `k`. */
  predicate IsFirstWithKey<T, K(==)>(s: seq<T>, key: T -> K, k: K, i: int) {
    0 <= i < |s| && key(s[i]) == k && forall j :: 0 <= j < i ==> key(s[j]) != k
  }

  /** No two elements share a key. */
  ghost predicate UniqueKeys<T, K>(s: seq<T>, key: T -> K) {
    forall i, j :: 0 <= i < j < |s| ==> key(s[i]) != key(s[j])
  }

  /** `const res = [...arr]; res[arr.findIndex(x => key(x) === key(v))] = v;`
      When no element has that key the index is -1, and assigning `res[-1]`
      only adds a property named "-1": the elements are those of `arr`. */
  function ReplaceFirst<T, K(==)>(s: seq<T>, key: T -> K, v: T): (r: seq<T>)
    ensures |r| == |s|
  {
    var i := FindIndex(s, key, key(v));
    if i == -1 then s else s[i := v]
  }

  /** Removing a key distributes over concatenation: the survivors keep their order. */
  lemma {:induction false} RemoveKeyAppend<T, K>(a: seq<T>, b: seq<T>, key: T -> K, k: K)
    ensures RemoveKey(a + b, key, k) == RemoveKey(a, key, k) + RemoveKey(b, key, k)
  {
    if a == [] {
      assert a + b == b;
    } else {
      assert (a + b)[1..] == a[1..] + b;
      RemoveKeyAppend(a[1..], b, key, k);
    }
  }

  /** Removing a key that no element carries changes nothing. */
  lemma {:induction false} RemoveAbsentKey<T, K>(s: seq<T>, key: T -> K, k: K)
    requires forall i :: 0 <= i < |s| ==> key(s[i]) != k
    ensures RemoveKey(s, key, k) == s
  {
    if s != [] {
      RemoveAbsentKey(s[1..], key, k);
    }
  }

  /** Replacing by key: when some element has the key of `v`, the first such
      element becomes `v` and every other position keeps its element; when
      none has it, the list is unchanged. */
  lemma ReplaceFirstSpec<T, K>(s: seq<T>, key: T -> K, v: T)
    ensures |ReplaceFirst(s, key, v)| == |s|
    ensures (exists i :: 0 <= i < |s| && key(s[i]) == key(v)) ==>
      exists i :: 0 <= i < |s| && key(s[i]) == key(v) && ReplaceFirst(s, key, v)[i] == v
        && (forall j :: 0 <= j < i ==> key(s[j]) != key(v))
        && (forall j :: 0 <= j < |s| && j != i ==> ReplaceFirst(s, key, v)[j] == s[j])
    ensures (forall i :: 0 <= i < |s| ==> key(s[i]) != key(v)) ==> ReplaceFirst(s, key, v) == s
  {
    var i := FindIndex(s, key, key(v));
    if i != -1 {
      assert key(s[i]) == key(v) && ReplaceFirst(s, key, v)[i] == v;
    }
  }

  /** Removing a key keeps the keys of a list with unique keys unique. */
  lemma {:induction false} RemoveKeyKeepsUniqueKeys<T, K>(s: seq<T>, key: T -> K, k: K)
    requires UniqueKeys(s, key)
    ensures UniqueKeys(RemoveKey(s, key, k), key)
  {
    if s != [] {
      var rest := RemoveKey(s[1..], key, k);
      RemoveKeyKeepsUniqueKeys(s[1..], key, k);
      if key(s[0]) != k {
        forall i | 0 <= i < |rest| ensures key(s[0]) != key(rest[i]) {
          var j :| 0 <= j < |s[1..]| && s[1..][j] == rest[i];
          assert s[j + 1] == rest[i];
        }
      }
    }
  }
}
