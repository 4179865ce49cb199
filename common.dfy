/** Small value types and sequence helpers shared by both scripts. */
module Common {

  datatype Option<T> = None | Some(value: T)

  /** The outcome of a call that may raise: `Err` carries the text of the exception. */
  datatype Result<T> = Ok(value: T) | Err(message: string)

  function Min(a: int, b: int): int { if a <= b then a else b }

  function Max(a: int, b: int): int { if a >= b then a else b }

  /** The set of the elements of a list, as Python's `in` on a list sees them. */
  function SetOf<T(!new)>(s: seq<T>): set<T> { set x | x in s }

  /** The elements of `s` whose membership in `keys` is `present`, in their original order
      (a list comprehension with an `in` or `not in` test). */
  function Filter<T(!new)>(s: seq<T>, keys: set<T>, present: bool): (r: seq<T>)
    ensures |r| <= |s|
  {
    if s == [] then []
    else (if (s[0] in keys) == present then [s[0]] else []) + Filter(s[1..], keys, present)
  }

  /** The filter keeps exactly the elements whose membership in `keys` is `present`. */
  lemma {:induction false} FilterMembers<T(!new)>(s: seq<T>, keys: set<T>, present: bool)
    ensures forall x :: x in Filter(s, keys, present) <==> x in s && (x in keys) == present
  {
    if s != [] {
      FilterMembers(s[1..], keys, present);
      assert s == [s[0]] + s[1..];
    }
  }

  /** Filtering distributes over concatenation, so the filter keeps the original order. */
  lemma {:induction false} FilterConcat<T(!new)>(a: seq<T>, b: seq<T>, keys: set<T>, present: bool)
    ensures Filter(a + b, keys, present) == Filter(a, keys, present) + Filter(b, keys, present)
  {
    if a == [] {
      assert a + b == b;
    } else {
      var head := if (a[0] in keys) == present then [a[0]] else [];
      assert (a + b)[0] == a[0] && (a + b)[1..] == a[1..] + b;
      assert Filter(a + b, keys, present) == head + Filter(a[1..] + b, keys, present);
      FilterConcat(a[1..], b, keys, present);
      assert Filter(a, keys, present) == head + Filter(a[1..], keys, present);
    }
  }

  /** A filter that rejects nothing is the identity. */
  lemma {:induction false} FilterKeepsAll<T(!new)>(s: seq<T>, keys: set<T>, present: bool)
    requires forall x :: x in s ==> (x in keys) == present
    ensures Filter(s, keys, present) == s
  {
    if s != [] {
      FilterKeepsAll(s[1..], keys, present);
    }
  }

  /** The filter of a prefix one element longer, and the filter of the whole list split after
      that prefix. */
  lemma FilterStep<T(!new)>(s: seq<T>, i: nat, keys: set<T>, present: bool)
    requires i < |s|
    ensures Filter(s[..i + 1], keys, present)
            == Filter(s[..i], keys, present) + (if (s[i] in keys) == present then [s[i]] else [])
    ensures Filter(s, keys, present) == Filter(s[..i + 1], keys, present) + Filter(s[i + 1..], keys, present)
  {
    assert s[..i + 1] == s[..i] + [s[i]];
    assert s == s[..i + 1] + s[i + 1..];
    FilterConcat(s[..i], [s[i]], keys, present);
    assert [s[i]][1..] == [];
    FilterConcat(s[..i + 1], s[i + 1..], keys, present);
  }

  /** An element the filter keeps, at position i, comes right after what it keeps before i. */
  lemma FilterSplit<T(!new)>(s: seq<T>, i: nat, keys: set<T>, present: bool)
    requires i < |s| && (s[i] in keys) == present
    ensures var r, f := Filter(s, keys, present), Filter(s[..i], keys, present);
            && |f| < |r| && r[|f|] == s[i] && r[..|f|] == f && r[..|f| + 1] == f + [s[i]]
  {
    FilterStep(s, i, keys, present);
  }

  /** No element occurs twice. */
  predicate Distinct<T(==)>(s: seq<T>) {
    forall i, j :: 0 <= i < j < |s| ==> s[i] != s[j]
  }

  lemma {:induction false} FilterDistinct<T(!new)>(s: seq<T>, keys: set<T>, present: bool)
    requires Distinct(s)
    ensures Distinct(Filter(s, keys, present))
  {
    if s != [] {
      assert Distinct(s[1..]) by {
        forall i, j | 0 <= i < j < |s[1..]| ensures s[1..][i] != s[1..][j] {
          assert s[1..][i] == s[i + 1] && s[1..][j] == s[j + 1];
        }
      }
      FilterDistinct(s[1..], keys, present);
      FilterMembers(s[1..], keys, present);
      var tail := Filter(s[1..], keys, present);
      assert s[0] !in s[1..] by {
        forall k | 0 <= k < |s[1..]| ensures s[1..][k] != s[0] {
          assert s[1..][k] == s[k + 1];
        }
      }
      assert s[0] !in tail;
    }
  }

  /** In a list without repeats, an element that is in `keys` or among those the filter kept
      before it is filtered out. */
  lemma FilterSkip<T(!new)>(s: seq<T>, i: nat, keys: set<T>, kept: seq<T>)
    requires Distinct(s) && i < |s| && kept == Filter(s[..i], keys, false)
    requires s[i] in keys || s[i] in kept
    ensures kept == Filter(s[..i + 1], keys, false)
  {
    FilterStep(s, i, keys, false);
    FilterMembers(s[..i], keys, false);
    assert s[i] !in s[..i] by {
      forall j | 0 <= j < i ensures s[..i][j] != s[i] {
      }
    }
  }

  /** A second update of a key replaces the first. A hint for the solver: the callers name the
      two maps, which keeps their own proofs cheap. */
  lemma UpdateTwice<K, V>(m: map<K, V>, k: K, a: V, b: V)
    ensures m[k := a][k := b] == m[k := b]
  {
  }

  /** Updating the right operand of a union updates the union. A hint for the solver, as above. */
  lemma UnionUpdate<K, V>(m: map<K, V>, n: map<K, V>, k: K, v: V)
    ensures m + n[k := v] == (m + n)[k := v]
  {
  }

  /** The concatenation of a list of lists. */
  function Flatten<T>(ss: seq<seq<T>>): seq<T> {
    if ss == [] then [] else Flatten(ss[..|ss| - 1]) + ss[|ss| - 1]
  }

  lemma {:induction false} FlattenCons<T>(s: seq<T>, ss: seq<seq<T>>)
    ensures Flatten([s] + ss) == s + Flatten(ss)
    decreases |ss|
  {
    if ss == [] {
      assert [s] + ss == [s];
      assert Flatten([s]) == Flatten([]) + s;
      assert [] + s == s && s + [] == s;
    } else {
      var init := ss[..|ss| - 1];
      FlattenCons(s, init);
      assert ([s] + ss)[..|ss|] == [s] + init;
    }
  }

  lemma FlattenSnoc<T>(ss: seq<seq<T>>, s: seq<T>)
    ensures Flatten(ss + [s]) == Flatten(ss) + s
  {
    assert (ss + [s])[..|ss|] == ss;
  }

  /** Regrouping a concatenation. A hint for the solver in `Worker.DrainStep` and
      `Worker.BatchesTake`, where it would otherwise have to find it among larger terms. */
  lemma ConsAssoc<T>(a: seq<T>, x: T, r: seq<T>)
    ensures a + ([x] + r) == (a + [x]) + r
  {
  }

  /** A prefix of a list without repeats has no repeats, and its elements are in the list. */
  lemma PrefixDistinct<T>(s: seq<T>, n: nat)
    requires Distinct(s) && n <= |s|
    ensures Distinct(s[..n]) && forall x :: x in s[..n] ==> x in s
  {
    forall i, j | 0 <= i < j < n ensures s[..n][i] != s[..n][j] {
      assert s[..n][i] == s[i] && s[..n][j] == s[j];
    }
  }
}
