/**
 * The ordering of `run_resume_pipeline_batch` in main.py: files are sorted by the
 * number their stripped name starts with, names without leading digits last, with a
 * stable sort. The sort takes the key function as a parameter (as `list.sort` does);
 * it is specified by a functional insertion sort, implemented in place on an array,
 * and characterised by sortedness, permutation and stability. The uniqueness lemma
 * shows that any stable sort by the same key gives the same list.
 */
module BatchOrder {
  import opened Wrappers
  import opened Text
  import opened Drive

  /** `extract_index`: the value of the leading digits of the stripped name, or `None`
      (standing for `float("inf")`) when the stripped name does not start with a digit. */
  function SortKey(name: string): (k: Option<nat>)
  {
    var s := Strip(name);
    var n := DigitRun(s);
    if n == 0 then None else Some(DecimalValue(s[..n]))
  }

  /** A name has a key exactly when its stripped form starts with a digit; when it does,
      the key is the value of the whole run of leading digits, whatever follows them
      (a period is not required). */
  lemma SortKeyCases(name: string)
    ensures var s := Strip(name);
      && (SortKey(name).None? <==> s == [] || !IsDigit(s[0]))
      && (SortKey(name).Some? ==> exists n ::
            0 < n <= |s| && AllDigits(s[..n]) && (n == |s| || !IsDigit(s[n]))
            && SortKey(name).value == DecimalValue(s[..n]))
  {
    var s := Strip(name);
    if s != [] && IsDigit(s[0]) {
      assert DigitRun(s) > 0;
    }
  }

  /** Leading zeros do not matter to the key: adding a zero in front keeps the value. */
  lemma {:induction false} LeadingZeroKeepsValue(s: string)
    requires AllDigits(s)
    ensures AllDigits("0" + s) && DecimalValue("0" + s) == DecimalValue(s)
    decreases |s|
  {
    if s != [] {
      var init := s[..|s| - 1];
      assert ("0" + s)[..|"0" + s| - 1] == "0" + init;
      LeadingZeroKeepsValue(init);
    }
  }

  /** The order on keys: smaller numbers first, `None` after every number. */
  predicate KeyLe(a: Option<nat>, b: Option<nat>)
  {
    b.None? || (a.Some? && a.value <= b.value)
  }

  /** The key of a listed file: `extract_index(file)`. */
  function FileKey(f: DriveFile): Option<nat>
  {
    SortKey(f.name)
  }

  /** A key function, as passed to `list.sort`. */
  type KeyFn = DriveFile -> Option<nat>

  predicate Sorted(s: seq<DriveFile>, key: KeyFn)
  {
    forall i, j :: 0 <= i < j < |s| ==> KeyLe(key(s[i]), key(s[j]))
  }

  /** The files with key `k`, in their order in `s`. */
  function WithKey(s: seq<DriveFile>, key: KeyFn, k: Option<nat>): seq<DriveFile>
  {
    if s == [] then []
    else WithKey(s[..|s| - 1], key, k) + (if key(s[|s| - 1]) == k then [s[|s| - 1]] else [])
  }

  /** `b` keeps the relative order of the files of each key in `a`. */
  ghost predicate SameOrderPerKey(a: seq<DriveFile>, b: seq<DriveFile>, key: KeyFn)
  {
    forall k :: WithKey(a, key, k) == WithKey(b, key, k)
  }

  /** Insert `x` after every file of `t` whose key is not greater than its own. */
  function InsertAfter(t: seq<DriveFile>, x: DriveFile, key: KeyFn): seq<DriveFile>
  {
    if t == [] || KeyLe(key(t[|t| - 1]), key(x)) then t + [x]
    else InsertAfter(t[..|t| - 1], x, key) + [t[|t| - 1]]
  }

  /** The stable sort by `key`: each file in turn inserted into the sorted files before it. */
  function SortBy(s: seq<DriveFile>, key: KeyFn): seq<DriveFile>
  {
    if s == [] then [] else InsertAfter(SortBy(s[..|s| - 1], key), s[|s| - 1], key)
  }

  lemma {:induction false} InsertAfterMultiset(t: seq<DriveFile>, x: DriveFile, key: KeyFn)
    ensures multiset(InsertAfter(t, x, key)) == multiset(t) + multiset{x}
    decreases |t|
  {
    if !(t == [] || KeyLe(key(t[|t| - 1]), key(x))) {
      InsertAfterMultiset(t[..|t| - 1], x, key);
      assert t == t[..|t| - 1] + [t[|t| - 1]];
    }
  }

  /** Every file of `InsertAfter(t, x, key)` is `x` or a file of `t`. */
  lemma {:induction false} InsertAfterElements(t: seq<DriveFile>, x: DriveFile, key: KeyFn)
    ensures |InsertAfter(t, x, key)| == |t| + 1
    ensures forall y :: y in InsertAfter(t, x, key) ==> y == x || y in t
    decreases |t|
  {
    if !(t == [] || KeyLe(key(t[|t| - 1]), key(x))) {
      InsertAfterElements(t[..|t| - 1], x, key);
      assert forall y :: y in t[..|t| - 1] ==> y in t;
    }
  }

  lemma {:induction false} InsertAfterSorted(t: seq<DriveFile>, x: DriveFile, key: KeyFn)
    requires Sorted(t, key)
    ensures Sorted(InsertAfter(t, x, key), key)
    decreases |t|
  {
    if !(t == [] || KeyLe(key(t[|t| - 1]), key(x))) {
      var init := t[..|t| - 1];
      var last := t[|t| - 1];
      InsertAfterSorted(init, x, key);
      InsertAfterElements(init, x, key);
      var r := InsertAfter(init, x, key);
      forall y | y in r
        ensures KeyLe(key(y), key(last))
      {
        if y != x {
          var i :| 0 <= i < |init| && init[i] == y;
        }
      }
      assert forall i :: 0 <= i < |r| ==> r[i] in r;
    }
  }

  /** Inserting `x` adds it at the end of the files of its own key and changes no other key's. */
  lemma {:induction false} InsertAfterWithKey(t: seq<DriveFile>, x: DriveFile, key: KeyFn, k: Option<nat>)
    ensures WithKey(InsertAfter(t, x, key), key, k) == WithKey(t, key, k) + (if key(x) == k then [x] else [])
    decreases |t|
  {
    var r := InsertAfter(t, x, key);
    if t == [] || KeyLe(key(t[|t| - 1]), key(x)) {
      assert r[..|r| - 1] == t;
    } else {
      var init := t[..|t| - 1];
      var last := t[|t| - 1];
      InsertAfterWithKey(init, x, key, k);
      assert r[..|r| - 1] == InsertAfter(init, x, key);
      if key(x) == k {
        assert key(last) != k;
      }
    }
  }

  /** The sorted list is in key order. */
  lemma {:induction false} SortBySorted(s: seq<DriveFile>, key: KeyFn)
    ensures Sorted(SortBy(s, key), key)
    decreases |s|
  {
    if s != [] {
      SortBySorted(s[..|s| - 1], key);
      InsertAfterSorted(SortBy(s[..|s| - 1], key), s[|s| - 1], key);
    }
  }

  /** The sorted list is a permutation of the listing. */
  lemma {:induction false} SortByPermutation(s: seq<DriveFile>, key: KeyFn)
    ensures multiset(SortBy(s, key)) == multiset(s)
    decreases |s|
  {
    if s != [] {
      SortByPermutation(s[..|s| - 1], key);
      InsertAfterMultiset(SortBy(s[..|s| - 1], key), s[|s| - 1], key);
      assert s == s[..|s| - 1] + [s[|s| - 1]];
    }
  }

  /** Stability: files with equal keys keep their listing order. */
  lemma {:induction false} SortByStable(s: seq<DriveFile>, key: KeyFn)
    ensures SameOrderPerKey(SortBy(s, key), s, key)
    decreases |s|
  {
    if s != [] {
      SortByStable(s[..|s| - 1], key);
      forall k
        ensures WithKey(SortBy(s, key), key, k) == WithKey(s, key, k)
      {
        InsertAfterWithKey(SortBy(s[..|s| - 1], key), s[|s| - 1], key, k);
      }
    }
  }

  /** Files without a key come after every file with one. */
  lemma UnkeyedLast(s: seq<DriveFile>, key: KeyFn, i: nat, j: nat)
    requires i < j < |SortBy(s, key)|
    requires key(SortBy(s, key)[i]).None?
    ensures key(SortBy(s, key)[j]).None?
  {
    SortBySorted(s, key);
  }

  /** A file is in `WithKey(s, key, k)` exactly when it is in `s` with key `k`. */
  lemma {:induction false} WithKeyMembers(s: seq<DriveFile>, key: KeyFn, k: Option<nat>, y: DriveFile)
    ensures y in WithKey(s, key, k) <==> y in s && key(y) == k
    decreases |s|
  {
    if s != [] {
      WithKeyMembers(s[..|s| - 1], key, k, y);
      assert s == s[..|s| - 1] + [s[|s| - 1]];
    }
  }

  /** Of two sorted lists with the same files of each key in the same order, the last
      files are equal. */
  lemma SortedLastAgree(a: seq<DriveFile>, b: seq<DriveFile>, key: KeyFn)
    requires a != [] && Sorted(a, key) && Sorted(b, key) && SameOrderPerKey(a, b, key)
    ensures b != [] && a[|a| - 1] == b[|b| - 1]
  {
    var x := a[|a| - 1];
    var kx := key(x);
    assert WithKey(a, key, kx) == WithKey(a[..|a| - 1], key, kx) + [x];
    assert WithKey(b, key, kx) == WithKey(a, key, kx);
    WithKeyMembers(b, key, kx, x);
    var y := b[|b| - 1];
    var ky := key(y);
    assert WithKey(b, key, ky) == WithKey(b[..|b| - 1], key, ky) + [y];
    WithKeyMembers(a, key, ky, y);
    // x is in b, so its key is at most y's; y is in a, so its key is at most x's.
    var i :| 0 <= i < |b| && b[i] == x;
    var j :| 0 <= j < |a| && a[j] == y;
    assert KeyLe(kx, ky) && KeyLe(ky, kx);
    var w := WithKey(a, key, kx);
    assert w[|w| - 1] == x;
    assert WithKey(b, key, kx)[|w| - 1] == y;
  }

  /** Uniqueness: two lists sorted by the same key that keep the same order within each
      key are equal. */
  lemma {:induction false} StableSortUnique(a: seq<DriveFile>, b: seq<DriveFile>, key: KeyFn)
    requires Sorted(a, key) && Sorted(b, key) && SameOrderPerKey(a, b, key)
    ensures a == b
    decreases |a| + |b|
  {
    if a == [] && b != [] {
      SortedLastAgree(b, a, key);
    } else if a != [] {
      SortedLastAgree(a, b, key);
      var a' := a[..|a| - 1];
      var b' := b[..|b| - 1];
      var last := a[|a| - 1];
      forall k
        ensures WithKey(a', key, k) == WithKey(b', key, k)
      {
        var wa := WithKey(a, key, k);
        assert wa == WithKey(b, key, k);
        assert wa == WithKey(a', key, k) + (if key(last) == k then [last] else []);
        assert wa == WithKey(b', key, k) + (if key(last) == k then [last] else []);
        if key(last) == k {
          assert WithKey(a', key, k) == wa[..|wa| - 1];
          assert WithKey(b', key, k) == wa[..|wa| - 1];
        } else {
          assert WithKey(a', key, k) == wa && WithKey(b', key, k) == wa;
        }
      }
      StableSortUnique(a', b', key);
      assert a == a' + [a[|a| - 1]] && b == b' + [b[|b| - 1]];
    }
  }

  /** Any list that is sorted by `key` and keeps the listing order within each key is
      `SortBy(s, key)`: whatever algorithm a stable sort uses, it gives this list. */
  lemma StableSortIsSortBy(s: seq<DriveFile>, r: seq<DriveFile>, key: KeyFn)
    requires Sorted(r, key) && SameOrderPerKey(r, s, key)
    ensures r == SortBy(s, key)
  {
    SortBySorted(s, key);
    SortByStable(s, key);
    StableSortUnique(r, SortBy(s, key), key);
  }

  /** One step of the insertion: moving past a file with a greater key. */
  lemma InsertAfterStep(t: seq<DriveFile>, j: nat, x: DriveFile, key: KeyFn)
    requires 0 < j <= |t|
    requires !KeyLe(key(t[j - 1]), key(x))
    ensures InsertAfter(t[..j], x, key) + t[j..] == InsertAfter(t[..j - 1], x, key) + t[j - 1..]
  {
    assert t[..j][..j - 1] == t[..j - 1];
    assert InsertAfter(t[..j], x, key) == InsertAfter(t[..j - 1], x, key) + [t[j - 1]];
    assert t[j - 1..] == [t[j - 1]] + t[j..];
  }

  /** The array during insertion, as a sequence `m`: the sorted prefix `t` with a gap at
      position `j` (everything from `j` on moved one place right), then the untouched
      files `rest`. */
  ghost predicate Shifted(m: seq<DriveFile>, t: seq<DriveFile>, rest: seq<DriveFile>, j: nat)
  {
    j <= |t| && |m| == |t| + 1 + |rest|
    && m[..j] == t[..j] && m[j + 1..|t| + 1] == t[j..] && m[|t| + 1..] == rest
  }

  /** Copying the file before the gap into it moves the gap one place left. */
  lemma ShiftLeft(m: seq<DriveFile>, t: seq<DriveFile>, rest: seq<DriveFile>, j: nat)
    requires 0 < j && Shifted(m, t, rest, j)
    ensures m[j - 1] == t[j - 1]
    ensures Shifted(m[j := m[j - 1]], t, rest, j - 1)
  {
    assert m[..j][j - 1] == m[j - 1];
    var m' := m[j := m[j - 1]];
    assert m'[..j - 1] == m[..j][..j - 1] == t[..j - 1];
    assert m'[j..|t| + 1] == [t[j - 1]] + m[j + 1..|t| + 1];
    assert t[j - 1..] == [t[j - 1]] + t[j..];
    assert m'[|t| + 1..] == m[|t| + 1..];
  }

  /** Filling the gap with `x` gives the prefix with `x` inserted at `j`, then `rest`. */
  lemma FillGap(m: seq<DriveFile>, t: seq<DriveFile>, rest: seq<DriveFile>, j: nat, x: DriveFile)
    requires Shifted(m, t, rest, j)
    ensures m[j := x][..|t| + 1] == t[..j] + [x] + t[j..]
    ensures m[j := x][|t| + 1..] == rest
  {
    var m' := m[j := x];
    assert m'[..|t| + 1] == m[..j] + [x] + m[j + 1..|t| + 1];
    assert m'[|t| + 1..] == m[|t| + 1..];
  }

  /** The insertion stops at `j` once the file before it has a key no greater than `x`'s. */
  lemma InsertAfterStops(t: seq<DriveFile>, j: nat, x: DriveFile, key: KeyFn)
    requires j <= |t|
    requires j == 0 || KeyLe(key(t[j - 1]), key(x))
    ensures InsertAfter(t[..j], x, key) == t[..j] + [x]
  {
    if j > 0 {
      assert t[..j][j - 1] == t[j - 1];
    }
  }

  /** Moves `a[i]` left past the files of `a[..i]` with a greater key. */
  method InsertInPlace(a: array<DriveFile>, i: nat, key: KeyFn)
    requires i < a.Length
    modifies a
    ensures a[..i + 1] == InsertAfter(old(a[..i]), old(a[i]), key)
    ensures a[i + 1..] == old(a[i + 1..])
  {
    ghost var t := a[..i];
    ghost var rest := a[i + 1..];
    var x := a[i];
    var j := i;
    assert t[..j] == t && t[j..] == [];
    assert Shifted(a[..], t, rest, j);
    while j > 0 && !KeyLe(key(a[j - 1]), key(x))
      invariant 0 <= j <= i
      invariant Shifted(a[..], t, rest, j)
      invariant InsertAfter(t, x, key) == InsertAfter(t[..j], x, key) + t[j..]
    {
      ShiftLeft(a[..], t, rest, j);
      InsertAfterStep(t, j, x, key);
      a[j] := a[j - 1];
      j := j - 1;
    }
    if j > 0 {
      ShiftLeft(a[..], t, rest, j);
    }
    InsertAfterStops(t, j, x, key);
    FillGap(a[..], t, rest, j, x);
    a[j] := x;
  }

  /** `files.sort(key=...)`: an insertion sort in place. */
  method SortInPlace(a: array<DriveFile>, key: KeyFn)
    modifies a
    ensures a[..] == SortBy(old(a[..]), key)
  {
    ghost var s := a[..];
    for i := 0 to a.Length
      invariant a[..i] == SortBy(s[..i], key)
      invariant a[i..] == s[i..]
    {
      assert a[i] == s[i];
      InsertInPlace(a, i, key);
      assert s[..i + 1][..i] == s[..i];
      assert SortBy(s[..i + 1], key) == InsertAfter(SortBy(s[..i], key), s[i], key);
    }
    assert s[..a.Length] == s;
  }
}
