/** Small building blocks shared by every part of the model: an optional value
    (the TypeScript `T | undefined` / `T | null`) and the two list primitives the
    application leans on everywhere, `Array.prototype.filter` with an equality
    test and `Array.prototype.find`. */
module Base {

  datatype Option<T> = None | Some(value: T)

  /** `s.filter(x => (key(x) === k) === matching)`: the elements whose key equals
      `k` (or, when `matching` is false, differs from `k`), in their original order. */
  function Keep<T(==,!new), K(==)>(s: seq<T>, key: T -> K, k: K, matching: bool): (r: seq<T>)
    ensures |r| <= |s|
  {
    if |s| == 0 then []
    else
      (if (key(s[0]) == k) == matching then [s[0]] else []) + Keep(s[1..], key, k, matching)
  }

  /** The elements kept are exactly the elements of `s` that pass the test. */
  lemma {:induction false} KeepMembers<T(!new), K>(s: seq<T>, key: T -> K, k: K, matching: bool)
    ensures forall x :: x in Keep(s, key, k, matching) <==> x in s && (key(x) == k) == matching
  {
    if |s| > 0 {
      KeepMembers(s[1..], key, k, matching);
      assert s == [s[0]] + s[1..];
    }
  }

  /** Filtering distributes over concatenation: order is kept across the seam. */
  lemma {:induction false} KeepAppend<T(!new), K>(a: seq<T>, b: seq<T>, key: T -> K, k: K, matching: bool)
    ensures Keep(a + b, key, k, matching) == Keep(a, key, k, matching) + Keep(b, key, k, matching)
  {
    if |a| == 0 {
      assert a + b == b;
    } else {
      assert (a + b)[1..] == a[1..] + b;
      KeepAppend(a[1..], b, key, k, matching);
    }
  }

  /** A filter leaves the list unchanged exactly when every element passes it. */
  lemma {:induction false} KeepIdentity<T(!new), K>(s: seq<T>, key: T -> K, k: K, matching: bool)
    ensures Keep(s, key, k, matching) == s <==> forall x :: x in s ==> (key(x) == k) == matching
  {
    KeepMembers(s, key, k, matching);
    if |s| > 0 && forall x :: x in s ==> (key(x) == k) == matching {
      assert s[0] in s;
      assert forall x :: x in s[1..] ==> x in s;
      KeepIdentity(s[1..], key, k, matching);
      assert s == [s[0]] + s[1..];
    }
  }

  /** A filter yields the empty list exactly when no element passes it. */
  lemma KeepEmpty<T(!new), K>(s: seq<T>, key: T -> K, k: K, matching: bool)
    ensures Keep(s, key, k, matching) == [] <==> forall x :: x in s ==> (key(x) == k) != matching
  {
    var r := Keep(s, key, k, matching);
    KeepMembers(s, key, k, matching);
    if r != [] {
      assert r[0] in r;
    }
  }

  /** Filtering out one key and then keeping another, different key is the same
      as keeping the second key directly. */
  lemma {:induction false} KeepOtherKey<T(!new), K>(s: seq<T>, key: T -> K, u: K, v: K)
    requires u != v
    ensures Keep(Keep(s, key, u, false), key, v, true) == Keep(s, key, v, true)
  {
    if |s| > 0 {
      var head := if key(s[0]) != u then [s[0]] else [];
      KeepOtherKey(s[1..], key, u, v);
      KeepAppend(head, Keep(s[1..], key, u, false), key, v, true);
    }
  }

  /** `s.find(x => key(x) === k)`, given as the index of the first element whose
      key is `k`. */
  function FirstIndex<T, K(==)>(s: seq<T>, key: T -> K, k: K): (r: Option<nat>)
    ensures r.Some? ==> r.value < |s| && key(s[r.value]) == k
    ensures r.Some? ==> forall j :: 0 <= j < r.value ==> key(s[j]) != k
    ensures r.None? <==> forall j :: 0 <= j < |s| ==> key(s[j]) != k
  {
    if |s| == 0 then None
    else if key(s[0]) == k then Some(0)
    else
      match FirstIndex(s[1..], key, k)
      case None => None
      case Some(i) => Some(i + 1)
  }

  /** Searching a list extended at the end finds the old match when there was
      one, otherwise the new element when it matches. */
  lemma {:induction false} FirstIndexAppend<T, K>(s: seq<T>, x: T, key: T -> K, k: K)
    ensures FirstIndex(s + [x], key, k) ==
      if FirstIndex(s, key, k).Some? then FirstIndex(s, key, k)
      else if key(x) == k then Some(|s|) else None
    decreases |s|
  {
    var t := s + [x];
    if |s| == 0 {
      assert t == [x] && t[1..] == [];
    } else if key(s[0]) != k {
      assert t[0] == s[0] && t[1..] == s[1..] + [x];
      FirstIndexAppend(s[1..], x, key, k);
    } else {
      assert t[0] == s[0];
    }
  }

  /** `s.slice().reverse()`. */
  function Reverse<T>(s: seq<T>): (r: seq<T>)
    ensures |r| == |s|
    ensures forall i :: 0 <= i < |s| ==> r[i] == s[|s| - 1 - i]
  {
    if |s| == 0 then [] else Reverse(s[1..]) + [s[0]]
  }

  /** `s.slice(-n)` for a positive `n`: the last `n` elements, or all of them
      when there are fewer. */
  function TakeLast<T>(s: seq<T>, n: nat): (r: seq<T>)
    requires n > 0
    ensures |r| == if |s| < n then |s| else n
    ensures forall i :: 0 <= i < |r| ==> r[i] == s[|s| - |r| + i]
  {
    if |s| <= n then s else s[|s| - n..]
  }
}
