/** Sequence vocabulary shared by the components: bounded tails, suffixes, flattening, stable sorting. */
module Sequences {

  type byte = i: int | 0 <= i < 256

  /** The characters Python's `str.strip` removes. */
  predicate IsSpace(c: char) {
    var n := c as int;
    || 0x09 <= n <= 0x0D || 0x1C <= n <= 0x20 || n == 0x85 || n == 0xA0 || n == 0x1680
    || 0x2000 <= n <= 0x200A || n in {0x2028, 0x2029, 0x202F, 0x205F, 0x3000}
  }

  predicate AllSpace(s: string) {
    forall i :: 0 <= i < |s| ==> IsSpace(s[i])
  }

  /** The last `n` elements of `s`, or all of them: JavaScript's `s.slice(-n)` for a positive `n`. */
  function LastN<T>(n: nat, s: seq<T>): seq<T> {
    if |s| <= n then s else s[|s| - n..]
  }

  predicate IsSuffix<T(==)>(t: seq<T>, s: seq<T>) {
    |t| <= |s| && forall i :: 0 <= i < |t| ==> t[i] == s[|s| - |t| + i]
  }

  /** Trimming early and trimming late agree: the law that lets a bounded buffer be trimmed on every append. */
  lemma LastNAppend<T>(n: nat, s: seq<T>, t: seq<T>)
    ensures LastN(n, LastN(n, s) + t) == LastN(n, s + t)
  {
  }

  lemma SuffixAppend<T>(t: seq<T>, s: seq<T>, u: seq<T>)
    requires IsSuffix(t, s)
    ensures IsSuffix(t + u, s + u)
  {
    assert (s + u)[|s| - |t|..] == s[|s| - |t|..] + u;
  }

  lemma SuffixTransitive<T>(t: seq<T>, s: seq<T>, u: seq<T>)
    requires IsSuffix(t, s) && IsSuffix(s, u)
    ensures IsSuffix(t, u)
  {
  }

  /** The tails of a sequence and of its suffix agree exactly when nothing was cut or the suffix is long enough. */
  lemma TailOfSuffix<T>(n: nat, t: seq<T>, s: seq<T>)
    requires IsSuffix(t, s)
    ensures IsSuffix(LastN(n, t), s)
    ensures LastN(n, t) == LastN(n, s) <==> |t| == |s| || |t| >= n
  {
  }

  lemma Associative<T>(a: seq<T>, b: seq<T>, c: seq<T>)
    ensures a + (b + c) == (a + b) + c
  {
  }

  function Flatten<T>(parts: seq<seq<T>>): seq<T> {
    if parts == [] then [] else parts[0] + Flatten(parts[1..])
  }

  lemma {:induction false} FlattenAppend<T>(a: seq<seq<T>>, b: seq<seq<T>>)
    ensures Flatten(a + b) == Flatten(a) + Flatten(b)
  {
    if a == [] {
      assert a + b == b;
    } else {
      FlattenAppend(a[1..], b);
      assert (a + b)[0] == a[0] && (a + b)[1..] == a[1..] + b;
      Associative(a[0], Flatten(a[1..]), Flatten(b));
    }
  }

  // Stable sorting, as JavaScript's Array.prototype.sort does it for a numeric comparator.

  predicate SortedBy<T>(key: T -> int, s: seq<T>) {
    forall i, j :: 0 <= i < j < |s| ==> key(s[i]) <= key(s[j])
  }

  function Insert<T>(key: T -> int, x: T, s: seq<T>): seq<T> {
    if s == [] || key(x) <= key(s[0]) then [x] + s else [s[0]] + Insert(key, x, s[1..])
  }

  function StableSort<T>(key: T -> int, s: seq<T>): seq<T> {
    if s == [] then [] else Insert(key, s[0], StableSort(key, s[1..]))
  }

  /** The elements of `s` whose key is `v`, in order. */
  function WithKey<T>(key: T -> int, v: int, s: seq<T>): seq<T> {
    if s == [] then [] else (if key(s[0]) == v then [s[0]] else []) + WithKey(key, v, s[1..])
  }

  lemma {:induction false} InsertPermutes<T>(key: T -> int, x: T, s: seq<T>)
    ensures multiset(Insert(key, x, s)) == multiset([x] + s)
  {
    if s != [] && key(x) > key(s[0]) {
      InsertPermutes(key, x, s[1..]);
      assert s == [s[0]] + s[1..];
    }
  }

  lemma {:induction false} InsertSorts<T>(key: T -> int, x: T, s: seq<T>)
    requires SortedBy(key, s)
    ensures SortedBy(key, Insert(key, x, s))
  {
    if s != [] && key(x) > key(s[0]) {
      InsertSorts(key, x, s[1..]);
      InsertStaysAbove(key, x, s[1..], key(s[0]));
    }
  }

  lemma {:induction false} InsertStaysAbove<T>(key: T -> int, x: T, s: seq<T>, least: int)
    requires least <= key(x) && forall j :: 0 <= j < |s| ==> least <= key(s[j])
    ensures forall j :: 0 <= j < |Insert(key, x, s)| ==> least <= key(Insert(key, x, s)[j])
  {
    if s != [] && key(x) > key(s[0]) {
      InsertStaysAbove(key, x, s[1..], least);
    }
  }

  lemma {:induction false} InsertIsStable<T>(key: T -> int, x: T, s: seq<T>, v: int)
    ensures WithKey(key, v, Insert(key, x, s)) == WithKey(key, v, [x] + s)
  {
    assert ([x] + s)[1..] == s;
    if s != [] && key(x) > key(s[0]) {
      var rest := Insert(key, x, s[1..]);
      InsertIsStable(key, x, s[1..], v);
      assert ([s[0]] + rest)[1..] == rest && ([x] + s[1..])[1..] == s[1..];
    }
  }

  /** What a stable sort means: ordered, the same elements, and equal keys keep their order. */
  lemma {:induction false} StableSortIsStableSort<T>(key: T -> int, s: seq<T>, v: int)
    ensures SortedBy(key, StableSort(key, s))
    ensures multiset(StableSort(key, s)) == multiset(s)
    ensures WithKey(key, v, StableSort(key, s)) == WithKey(key, v, s)
  {
    if s != [] {
      var t := StableSort(key, s[1..]);
      StableSortIsStableSort(key, s[1..], v);
      InsertPermutes(key, s[0], t);
      InsertSorts(key, s[0], t);
      InsertIsStable(key, s[0], t, v);
      assert s == [s[0]] + s[1..];
      assert ([s[0]] + t)[1..] == t;
    }
  }

  lemma {:induction false} SortingSortedIsIdentity<T>(key: T -> int, s: seq<T>)
    requires SortedBy(key, s)
    ensures StableSort(key, s) == s
  {
    if s != [] {
      SortingSortedIsIdentity(key, s[1..]);
      assert s == [s[0]] + s[1..];
    }
  }
}
