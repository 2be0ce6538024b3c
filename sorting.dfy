/** The in-place sorts of the planner: `markdownFiles.sort(...)` on the file list and
    `Object.keys(groups).sort(...)` on the group keys, both with the comparator
    `(a, b) => key(b).localeCompare(key(a))`, that is newest key first. JavaScript's
    `Array.prototype.sort` is stable, so elements with equal keys keep their order. */
module Sorting {
  import opened Text

  /** Descending by key: no element's key comes before a later element's key. */
  ghost predicate SortedDesc<T>(s: seq<T>, key: T -> string) {
    forall i, j :: 0 <= i < j < |s| ==> !LexLess(key(s[i]), key(s[j]))
  }

  /** No element occurs twice. */
  ghost predicate Distinct<T>(s: seq<T>) {
    forall i, j :: 0 <= i < j < |s| ==> s[i] != s[j]
  }

  /** Inserting x behind every element of s whose key is not before x's key: the place an
      element arriving after all of s takes in a stable descending order. */
  function Insert<T>(s: seq<T>, x: T, key: T -> string): (r: seq<T>)
    ensures |r| == |s| + 1
  {
    if s == [] || !LexLess(key(s[|s| - 1]), key(x)) then s + [x]
    else Insert(s[..|s| - 1], x, key) + [s[|s| - 1]]
  }

  /** Inserting adds x and keeps everything else. */
  lemma {:induction false} InsertPermutation<T>(s: seq<T>, x: T, key: T -> string)
    ensures multiset(Insert(s, x, key)) == multiset(s) + multiset{x}
  {
    if s != [] && LexLess(key(s[|s| - 1]), key(x)) {
      InsertPermutation(s[..|s| - 1], x, key);
      assert s == s[..|s| - 1] + [s[|s| - 1]];
    }
  }

  /** The stable descending sort of s, as insertion sort builds it: each element in turn is
      inserted into the sorted prefix before it. */
  function SortDesc<T>(s: seq<T>, key: T -> string): (r: seq<T>)
    ensures |r| == |s|
  {
    if s == [] then [] else Insert(SortDesc(s[..|s| - 1], key), s[|s| - 1], key)
  }

  /** The elements of s whose key is k, in their order in s. */
  function WithKey<T>(s: seq<T>, key: T -> string, k: string): (r: seq<T>)
    ensures |r| <= |s|
  {
    if s == [] then [] else WithKey(s[..|s| - 1], key, k) + (if key(s[|s| - 1]) == k then [s[|s| - 1]] else [])
  }

  lemma {:induction false} InsertSorted<T>(s: seq<T>, x: T, key: T -> string)
    requires SortedDesc(s, key)
    ensures SortedDesc(Insert(s, x, key), key)
  {
    if s == [] || !LexLess(key(s[|s| - 1]), key(x)) {
      var r := s + [x];
      forall i, j | 0 <= i < j < |r| ensures !LexLess(key(r[i]), key(r[j])) {
        if j == |s| && i < |s| - 1 {
          NotLessTransitive(key(s[i]), key(s[|s| - 1]), key(x));
        }
      }
    } else {
      var init, last := s[..|s| - 1], s[|s| - 1];
      assert SortedDesc(init, key);
      InsertSorted(init, x, key);
      var left := Insert(init, x, key);
      InsertPermutation(init, x, key);
      var r := left + [last];
      forall i | 0 <= i < |left| ensures !LexLess(key(left[i]), key(last)) {
        assert left[i] in multiset(left);
        if left[i] == x {
          LexLessAsymmetric(key(last), key(x));
        } else {
          assert left[i] in multiset(init);
          var k :| 0 <= k < |init| && init[k] == left[i];
        }
      }
      forall i, j | 0 <= i < j < |r| ensures !LexLess(key(r[i]), key(r[j])) {
        if j < |left| {
        } else {
          assert r[i] == left[i];
        }
      }
    }
  }

  /** The sort puts the keys in descending order. */
  lemma {:induction false} SortDescSorted<T>(s: seq<T>, key: T -> string)
    ensures SortedDesc(SortDesc(s, key), key)
  {
    if s != [] {
      SortDescSorted(s[..|s| - 1], key);
      InsertSorted(SortDesc(s[..|s| - 1], key), s[|s| - 1], key);
    }
  }

  /** The sort only reorders: it keeps every element as often as it occurs. */
  lemma {:induction false} SortDescPermutation<T>(s: seq<T>, key: T -> string)
    ensures multiset(SortDesc(s, key)) == multiset(s)
  {
    if s != [] {
      SortDescPermutation(s[..|s| - 1], key);
      InsertPermutation(SortDesc(s[..|s| - 1], key), s[|s| - 1], key);
      assert s == s[..|s| - 1] + [s[|s| - 1]];
    }
  }

  lemma {:induction false} InsertDistinct<T>(s: seq<T>, x: T, key: T -> string)
    requires Distinct(s) && x !in s
    ensures Distinct(Insert(s, x, key))
  {
    if s != [] && LexLess(key(s[|s| - 1]), key(x)) {
      var init, last := s[..|s| - 1], s[|s| - 1];
      assert Distinct(init);
      assert x !in init;
      InsertDistinct(init, x, key);
      var left := Insert(init, x, key);
      assert last !in left by {
        assert last !in init by {
          forall k | 0 <= k < |init| ensures init[k] != last {
            assert init[k] == s[k];
          }
        }
        assert last != x by {
          LexLessIrreflexive(key(x));
        }
        InsertPermutation(init, x, key);
        assert last !in multiset(left);
      }
      var r := left + [last];
      forall i, j | 0 <= i < j < |r| ensures r[i] != r[j] {
        if j < |left| {
        } else {
          assert r[i] in left;
        }
      }
    }
  }

  /** Sorting keeps elements that are all different all different. */
  lemma {:induction false} SortDescDistinct<T>(s: seq<T>, key: T -> string)
    requires Distinct(s)
    ensures Distinct(SortDesc(s, key))
  {
    if s != [] {
      var init, last := s[..|s| - 1], s[|s| - 1];
      assert Distinct(init);
      SortDescDistinct(init, key);
      assert last !in SortDesc(init, key) by {
        SortDescPermutation(init, key);
        assert last !in multiset(init);
      }
      InsertDistinct(SortDesc(init, key), last, key);
    }
  }

  lemma {:induction false} WithKeyConcat<T>(s: seq<T>, t: seq<T>, key: T -> string, k: string)
    ensures WithKey(s + t, key, k) == WithKey(s, key, k) + WithKey(t, key, k)
  {
    if t == [] {
      assert s + t == s;
    } else {
      WithKeyConcat(s, t[..|t| - 1], key, k);
      assert (s + t)[..|s + t| - 1] == s + t[..|t| - 1];
    }
  }

  lemma {:induction false} InsertStable<T>(s: seq<T>, x: T, key: T -> string, k: string)
    ensures WithKey(Insert(s, x, key), key, k) == WithKey(s, key, k) + WithKey([x], key, k)
  {
    if s == [] || !LexLess(key(s[|s| - 1]), key(x)) {
      WithKeyConcat(s, [x], key, k);
    } else {
      var init, last := s[..|s| - 1], s[|s| - 1];
      var left := Insert(init, x, key);
      var wx, wl := WithKey([x], key, k), WithKey([last], key, k);
      assert wx == [] || wl == [] by {
        LexLessIrreflexive(key(x));
      }
      calc {
        WithKey(Insert(s, x, key), key, k);
        { WithKeyConcat(left, [last], key, k); }
        WithKey(left, key, k) + wl;
        { InsertStable(init, x, key, k); }
        WithKey(init, key, k) + wx + wl;
        WithKey(init, key, k) + wl + wx;
        { WithKeyConcat(init, [last], key, k); assert s == init + [last]; }
        WithKey(s, key, k) + wx;
      }
    }
  }

  /** Stability: the elements sharing any one key come out in their input order. */
  lemma {:induction false} SortDescStable<T>(s: seq<T>, key: T -> string, k: string)
    ensures WithKey(SortDesc(s, key), key, k) == WithKey(s, key, k)
  {
    if s != [] {
      var init, last := s[..|s| - 1], s[|s| - 1];
      calc {
        WithKey(SortDesc(s, key), key, k);
        { InsertStable(SortDesc(init, key), last, key, k); }
        WithKey(SortDesc(init, key), key, k) + WithKey([last], key, k);
        { SortDescStable(init, key, k); }
        WithKey(init, key, k) + WithKey([last], key, k);
        { WithKeyConcat(init, [last], key, k); assert s == init + [last]; }
        WithKey(s, key, k);
      }
    }
  }

  /** Moving x back past one element whose key comes before x's. */
  lemma InsertPast<T>(s: seq<T>, j: nat, x: T, key: T -> string)
    requires 0 < j <= |s| && LexLess(key(s[j - 1]), key(x))
    ensures Insert(s[..j], x, key) + s[j..] == Insert(s[..j - 1], x, key) + s[j - 1..]
  {
    assert s[..j][..j - 1] == s[..j - 1];
    assert s[j - 1..] == [s[j - 1]] + s[j..];
  }

  /** x stops behind an element whose key is not before its own, or at the front. */
  lemma InsertStop<T>(s: seq<T>, j: nat, x: T, key: T -> string)
    requires j <= |s| && (j == 0 || !LexLess(key(s[j - 1]), key(x)))
    ensures Insert(s[..j], x, key) == s[..j] + [x]
  {
  }

  /** The place of x among the sorted elements a[..i]: behind the last element whose key is
      not before x's, found by scanning back from i. */
  method FindSlot<T>(a: array<T>, i: nat, x: T, key: T -> string) returns (j: nat)
    requires i <= a.Length
    ensures j <= i
    ensures Insert(a[..i], x, key) == a[..j] + [x] + a[j..i]
  {
    ghost var sorted := a[..i];
    j := i;
    assert sorted[..i] == sorted && sorted[i..] == [];
    while j > 0 && LexLess(key(a[j - 1]), key(x))
      invariant 0 <= j <= i
      invariant Insert(sorted, x, key) == Insert(sorted[..j], x, key) + sorted[j..]
    {
      InsertPast(sorted, j, x, key);
      j := j - 1;
    }
    InsertStop(sorted, j, x, key);
    assert sorted[..j] == a[..j] && sorted[j..] == a[j..i];
  }

  /** Moves a[j..i] one place to the right, over a[i]. */
  method ShiftRight<T>(a: array<T>, j: nat, i: nat)
    requires j <= i < a.Length
    modifies a
    ensures a[..j] == old(a[..j])
    ensures a[j + 1..i + 1] == old(a[j..i])
    ensures a[i + 1..] == old(a[i + 1..])
  {
    var k := i;
    while k > j
      invariant j <= k <= i
      invariant forall m {:trigger a[m]} :: 0 <= m <= k ==> a[m] == old(a[m])
      invariant forall m {:trigger a[m]} :: k < m <= i ==> a[m] == old(a[m - 1])
      invariant forall m {:trigger a[m]} :: i < m < a.Length ==> a[m] == old(a[m])
    {
      a[k] := a[k - 1];
      k := k - 1;
    }
    assert a[j + 1..i + 1] == old(a[j..i]) by {
      forall m | j + 1 <= m <= i ensures a[m] == old(a[m - 1]) {
      }
    }
  }

  /** One step of insertion sort: a[i] moves back past the elements of a[..i] whose key
      comes before its own, and a[i + 1..] is left alone. */
  method InsertLast<T>(a: array<T>, i: nat, key: T -> string)
    requires i < a.Length
    modifies a
    ensures a[..i + 1] == Insert(old(a[..i]), old(a[i]), key)
    ensures a[i + 1..] == old(a[i + 1..])
  {
    var x := a[i];
    var j := FindSlot(a, i, x, key);
    ShiftRight(a, j, i);
    a[j] := x;
    assert a[..i + 1] == a[..j] + [x] + a[j + 1..i + 1];
  }

  /** Insertion sort in place: it leaves the array holding the stable descending sort. */
  method SortByKeyDescending<T>(a: array<T>, key: T -> string)
    modifies a
    ensures a[..] == SortDesc(old(a[..]), key)
  {
    ghost var input := a[..];
    for i := 0 to a.Length
      invariant a[..i] == SortDesc(input[..i], key)
      invariant a[i..] == input[i..]
    {
      assert input[..i + 1][..i] == input[..i];
      InsertLast(a, i, key);
    }
    assert input[..a.Length] == input;
  }
}
