/** Small sequence helpers shared by the model: the Python list operations the
    engine relies on (`list.index`, `list.remove`, `list.count`, `sum`) and an
    Option type for the source's `None`. */
module Util {

  datatype Option<+T> = None | Some(value: T)

  /** No element occurs twice. */
  predicate NoDup<T(==)>(s: seq<T>)
  {
    forall i, j :: 0 <= i < j < |s| ==> s[i] != s[j]
  }

  /** Python's `list.index(x)`: the position of the first occurrence. */
  function IndexOf<T(==)>(s: seq<T>, x: T): (i: nat)
    requires x in s
    ensures i < |s| && s[i] == x
    ensures forall j :: 0 <= j < i ==> s[j] != x
  {
    if s[0] == x then 0 else 1 + IndexOf(s[1..], x)
  }

  /** Python's `list.remove(x)`: drops the first occurrence and keeps the
      order of everything else. */
  function RemoveFirst<T(==)>(s: seq<T>, x: T): (r: seq<T>)
    requires x in s
    ensures |r| == |s| - 1
    ensures r == s[..IndexOf(s, x)] + s[IndexOf(s, x) + 1..]
  {
    if s[0] == x then s[1..] else [s[0]] + RemoveFirst(s[1..], x)
  }

  /** Python's `list.count(x)`. */
  function Count<T(==)>(s: seq<T>, x: T): nat
  {
    if s == [] then 0 else (if s[0] == x then 1 else 0) + Count(s[1..], x)
  }

  /** Python's `sum` over a list of integers. */
  function Sum(s: seq<int>): int
  {
    if s == [] then 0 else s[0] + Sum(s[1..])
  }

  lemma {:induction false} CountAppend<T>(a: seq<T>, b: seq<T>, x: T)
    ensures Count(a + b, x) == Count(a, x) + Count(b, x)
  {
    if a != [] {
      assert (a + b)[1..] == a[1..] + b;
      CountAppend(a[1..], b, x);
    } else {
      assert a + b == b;
    }
  }

  /** The prefix of full length is the list. */
  lemma TakeAll<T>(s: seq<T>)
    ensures s[..|s|] == s
  {
  }

  /** A non-empty list is its prefix and its last element. */
  lemma TakeLast<T>(s: seq<T>)
    requires |s| > 0
    ensures s[..|s| - 1] + [s[|s| - 1]] == s
  {
  }

  /** A prefix one longer is the prefix and one element more. */
  lemma TakeStep<T>(s: seq<T>, i: nat)
    requires i < |s|
    ensures s[..i + 1] == s[..i] + [s[i]]
  {
  }

  /** A prefix holds no more copies of `x` than the whole list. */
  lemma CountPrefix<T>(s: seq<T>, i: nat, x: T)
    requires i <= |s|
    ensures Count(s[..i], x) <= Count(s, x)
  {
    assert s == s[..i] + s[i..];
    CountAppend(s[..i], s[i..], x);
  }

  /** One more element counts once more exactly when it is `x`. */
  lemma CountStep<T>(s: seq<T>, i: nat, x: T)
    requires i < |s|
    ensures Count(s[..i + 1], x) == Count(s[..i], x) + (if s[i] == x then 1 else 0)
  {
    assert s[..i + 1] == s[..i] + [s[i]];
    CountAppend(s[..i], [s[i]], x);
  }

  lemma {:induction false} CountMultiset<T>(s: seq<T>, x: T)
    ensures Count(s, x) == multiset(s)[x]
  {
    if s != [] {
      assert s == [s[0]] + s[1..];
      CountMultiset(s[1..], x);
    }
  }

  lemma {:induction false} SumAppend(a: seq<int>, b: seq<int>)
    ensures Sum(a + b) == Sum(a) + Sum(b)
  {
    if a != [] {
      assert (a + b)[1..] == a[1..] + b;
      SumAppend(a[1..], b);
    } else {
      assert a + b == b;
    }
  }

  /** Replacing one element changes the sum by exactly the difference. */
  lemma {:induction false} SumUpdate(s: seq<int>, i: nat, v: int)
    requires i < |s|
    ensures Sum(s[i := v]) == Sum(s) - s[i] + v
  {
    if i > 0 {
      assert s[i := v][1..] == s[1..][i - 1 := v];
      SumUpdate(s[1..], i - 1, v);
    }
  }

  /** Two updates at distinct positions change the sum by both differences. */
  lemma SumUpdateTwice(s: seq<int>, i: nat, j: nat, v: int, w: int)
    requires i < |s| && j < |s| && i != j
    ensures Sum(s[i := v][j := w]) == Sum(s) - s[i] - s[j] + v + w
  {
    SumUpdate(s, i, v);
    SumUpdate(s[i := v], j, w);
  }

  /** Taking `a` from position `i` and `b` from position `j` takes both
      from the sum. */
  lemma SumTakeTwice(s: seq<int>, i: nat, j: nat, a: int, b: int)
    requires i < |s| && j < |s| && i != j
    ensures Sum(s[i := s[i] - a][j := s[j] - b]) == Sum(s) - a - b
  {
    SumUpdateTwice(s, i, j, s[i] - a, s[j] - b);
  }

  /** Moving `m` from position `i` to position `j`, whose old value is
      dropped, loses only that old value from the sum. */
  lemma SumMoveOver(s: seq<int>, i: nat, j: nat, m: int)
    requires i < |s| && j < |s| && i != j
    ensures Sum(s[i := s[i] - m][j := m]) == Sum(s) - s[j]
  {
    SumUpdateTwice(s, i, j, s[i] - m, m);
  }

  /** Python's `list.remove` undoes a preceding `append` of an absent element. */
  lemma {:induction false} RemoveAfterAppend<T>(s: seq<T>, x: T)
    requires x !in s
    ensures RemoveFirst(s + [x], x) == s
  {
    if s != [] {
      assert (s + [x])[1..] == s[1..] + [x];
      RemoveAfterAppend(s[1..], x);
    }
  }

  /** Removing the first occurrence of an element that occurs once removes
      it altogether and keeps every other element. */
  lemma RemoveFirstMembers<T>(s: seq<T>, x: T)
    requires x in s && NoDup(s)
    ensures NoDup(RemoveFirst(s, x))
    ensures x !in RemoveFirst(s, x)
    ensures forall y :: y in RemoveFirst(s, x) <==> y in s && y != x
  {
    var i := IndexOf(s, x);
    var r := RemoveFirst(s, x);
    forall k | 0 <= k < |r| ensures r[k] == s[if k < i then k else k + 1] {
      if k < i { assert r[k] == s[..i][k]; } else { assert r[k] == s[i + 1..][k - i]; }
    }
    forall a, b | 0 <= a < b < |r| ensures r[a] != r[b] {
      assert r[a] == s[if a < i then a else a + 1];
      assert r[b] == s[if b < i then b else b + 1];
    }
    forall k | 0 <= k < |r| ensures r[k] != x && r[k] in s {
      assert r[k] == s[if k < i then k else k + 1];
    }
    forall y | y in s && y != x ensures y in r {
      var j :| 0 <= j < |s| && s[j] == y;
      if j < i { assert r[j] == y; } else { assert r[j - 1] == y; }
    }
  }

  /** The sum of `f` over the elements of `s`. */
  function SumOf<T>(s: seq<T>, f: T -> int): int
  {
    if s == [] then 0 else SumOf(s[..|s| - 1], f) + f(s[|s| - 1])
  }

  lemma {:induction false} SumOfAppend<T>(a: seq<T>, b: seq<T>, f: T -> int)
    ensures SumOf(a + b, f) == SumOf(a, f) + SumOf(b, f)
    decreases |b|
  {
    if b == [] {
      assert a + b == a;
    } else {
      var b' := b[..|b| - 1];
      assert (a + b)[..|a + b| - 1] == a + b';
      SumOfAppend(a, b', f);
    }
  }

  /** Taking out the element at `i` takes one copy of it out of the bag. */
  lemma SplitAt<T>(b: seq<T>, i: nat)
    requires i < |b|
    ensures multiset(b) == multiset(b[..i] + b[i + 1..]) + multiset{b[i]}
  {
    assert b == b[..i] + [b[i]] + b[i + 1..];
  }

  /** A list around its element at `i`. */
  lemma AroundAt<T>(b: seq<T>, i: nat)
    requires i < |b|
    ensures b == b[..i] + [b[i]] + b[i + 1..]
  {
  }

  /** Taking out the element at `i` takes its term out of the sum. */
  lemma SumOfRemove<T>(b: seq<T>, i: nat, f: T -> int)
    requires i < |b|
    ensures SumOf(b, f) == SumOf(b[..i] + b[i + 1..], f) + f(b[i])
  {
    var l, x, r := b[..i], b[i], b[i + 1..];
    AroundAt(b, i);
    SumOfAppend(l + [x], r, f);
    SumOfAppend(l, [x], f);
    SumOfAppend(l, r, f);
    assert [x][..0] == [];
  }

  /** The same copy taken out of two equal bags leaves equal bags. */
  lemma CancelOne<T>(m: multiset<T>, n: multiset<T>, x: T)
    requires m + multiset{x} == n + multiset{x}
    ensures m == n
  {
    assert m == (m + multiset{x}) - multiset{x};
    assert n == (n + multiset{x}) - multiset{x};
  }

  /** A sum does not depend on the order of its terms. */
  lemma {:induction false} SumOfPermutation<T>(a: seq<T>, b: seq<T>, f: T -> int)
    requires multiset(a) == multiset(b)
    ensures SumOf(a, f) == SumOf(b, f)
    decreases |a|
  {
    if a == [] {
      assert |b| == |multiset(b)| == 0;
    } else {
      var x := a[|a| - 1];
      var a' := a[..|a| - 1];
      TakeLast(a);
      assert multiset(a) == multiset(a') + multiset{x};
      assert x in multiset(b);
      var i :| 0 <= i < |b| && b[i] == x;
      var rest := b[..i] + b[i + 1..];
      SplitAt(b, i);
      CancelOne(multiset(a'), multiset(rest), x);
      SumOfPermutation(a', rest, f);
      SumOfRemove(b, i, f);
    }
  }

  lemma NoDupMultiset<T>(s: seq<T>)
    requires NoDup(s)
    ensures forall x | x in s :: multiset(s)[x] == 1
  {
    forall x | x in s ensures multiset(s)[x] == 1 {
      var i := IndexOf(s, x);
      assert s == s[..i] + [x] + s[i + 1..];
      assert x !in s[..i];
      assert x !in s[i + 1..] by {
        forall j | i + 1 <= j < |s| ensures s[j] != x {}
      }
    }
  }

  /** Two lists without repeats and with the same members are
      rearrangements of each other. */
  lemma NoDupSameMembers<T>(a: seq<T>, b: seq<T>)
    requires NoDup(a) && NoDup(b)
    requires forall x :: x in a <==> x in b
    ensures multiset(a) == multiset(b)
  {
    NoDupMultiset(a);
    NoDupMultiset(b);
    forall x ensures multiset(a)[x] == multiset(b)[x] {
      if x !in a {
        assert x !in multiset(a) && x !in multiset(b);
      }
    }
  }

  /** A rearrangement of a list without repeats has no repeats either. */
  lemma PermutationKeepsNoDup<T>(a: seq<T>, b: seq<T>)
    requires NoDup(a) && multiset(b) == multiset(a)
    ensures |b| == |a| && NoDup(b)
    ensures forall x :: x in b <==> x in a
  {
    assert |b| == |multiset(b)| == |multiset(a)| == |a|;
    NoDupMultiset(a);
    forall x ensures x in b <==> x in a {
      assert x in b <==> x in multiset(b);
      assert x in a <==> x in multiset(a);
    }
    forall i, j | 0 <= i < j < |b| ensures b[i] != b[j] {
      assert b == b[..j] + b[j..];
      assert b[i] in b[..j] && b[j] == b[j..][0];
      assert multiset(b) == multiset(b[..j]) + multiset(b[j..]);
      assert multiset(b)[b[i]] >= multiset(b[..j])[b[i]] + multiset(b[j..])[b[i]];
    }
  }

  /** Adding the same bag `u` to both sides of an equation of bags. */
  lemma UnionBeside<T>(x: multiset<T>, y: multiset<T>, z: multiset<T>, w: multiset<T>, u: multiset<T>)
    requires x + y == z + w
    ensures x + u + y == z + u + w
  {
    assert x + u + y == (x + y) + u;
    assert z + u + w == (z + w) + u;
  }

  /** No two keys share a value. */
  predicate Injective<K(!new), V(==)>(m: map<K, V>)
  {
    forall a, b | a in m && b in m && a != b :: m[a] != m[b]
  }

  /** `{v: k for k, v in m.items()}`. */
  function Invert<K(!new), V(!new)>(m: map<K, V>): (r: map<V, K>)
    requires Injective(m)
    ensures forall v :: v in r <==> v in m.Values
    ensures forall k | k in m :: m[k] in r && r[m[k]] == k
  {
    map k | k in m :: m[k] := k
  }
}
