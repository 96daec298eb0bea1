/** List helpers: filtering in order, Python's `list.index`, `list.remove`, `list.sort` and
    `list(dict.fromkeys(...))`, and the sortedness and uniqueness invariants they keep. */
module Lists {
  import opened Strings

  /** Ascending in Python's string order. */
  predicate Sorted(s: seq<string>) {
    forall i, j :: 0 <= i < j < |s| ==> StrLe(s[i], s[j])
  }

  /** No value occurs twice. */
  predicate NoDups<T(==)>(s: seq<T>) {
    forall i, j :: 0 <= i < j < |s| ==> s[i] != s[j]
  }

  lemma NoDupsCons<T>(x: T, s: seq<T>)
    ensures NoDups([x] + s) <==> x !in s && NoDups(s)
  {
    if x !in s && NoDups(s) {
      forall i, j | 0 <= i < j < |[x] + s| ensures ([x] + s)[i] != ([x] + s)[j] {
        if i > 0 { assert ([x] + s)[i] == s[i - 1]; }
      }
    }
    if NoDups([x] + s) {
      forall i, j | 0 <= i < j < |s| ensures s[i] != s[j] {
        assert s[i] == ([x] + s)[i + 1] && s[j] == ([x] + s)[j + 1];
      }
      forall k | 0 <= k < |s| ensures s[k] != x {
        assert ([x] + s)[0] != ([x] + s)[k + 1];
      }
    }
  }

  lemma SortedCons(x: string, s: seq<string>)
    ensures Sorted([x] + s) <==> (forall y :: y in s ==> StrLe(x, y)) && Sorted(s)
  {
    if (forall y :: y in s ==> StrLe(x, y)) && Sorted(s) {
      forall i, j | 0 <= i < j < |[x] + s| ensures StrLe(([x] + s)[i], ([x] + s)[j]) {
        assert ([x] + s)[j] == s[j - 1];
        if i > 0 { assert ([x] + s)[i] == s[i - 1]; }
      }
    }
    if Sorted([x] + s) {
      forall i, j | 0 <= i < j < |s| ensures StrLe(s[i], s[j]) {
        assert s[i] == ([x] + s)[i + 1] && s[j] == ([x] + s)[j + 1];
      }
      forall y | y in s ensures StrLe(x, y) {
        var k :| 0 <= k < |s| && s[k] == y;
        assert ([x] + s)[0] == x && ([x] + s)[k + 1] == y;
      }
    }
  }

  /** The elements of `s` for which `keep` holds, in their order in `s`
      (a Python `for` loop that appends what passes a test). */
  function Filter(s: seq<string>, keep: string -> bool): (r: seq<string>)
    ensures |r| <= |s|
    ensures forall x :: x in r <==> x in s && keep(x)
  {
    if s == [] then [] else (if keep(s[0]) then [s[0]] else []) + Filter(s[1..], keep)
  }

  /** Filtering a concatenation filters each part; a loop that appends one element at a time
      builds the filter of the prefix it has scanned. */
  lemma {:induction false} FilterAppend(a: seq<string>, b: seq<string>, keep: string -> bool)
    ensures Filter(a + b, keep) == Filter(a, keep) + Filter(b, keep)
  {
    if a != [] {
      assert (a + b)[1..] == a[1..] + b;
      FilterAppend(a[1..], b, keep);
    } else {
      assert a + b == b;
    }
  }

  /** The step a scanning loop takes: the filter of one more element of `s`. */
  lemma FilterPrefix(s: seq<string>, i: nat, keep: string -> bool)
    requires i < |s|
    ensures Filter(s[..i + 1], keep) == Filter(s[..i], keep) + (if keep(s[i]) then [s[i]] else [])
  {
    assert s[..i + 1] == s[..i] + [s[i]];
    FilterAppend(s[..i], [s[i]], keep);
  }

  /** Filtering keeps a list free of duplicates. */
  lemma {:induction false} FilterNoDups(s: seq<string>, keep: string -> bool)
    requires NoDups(s)
    ensures NoDups(Filter(s, keep))
  {
    if s != [] {
      NoDupsCons(s[0], s[1..]);
      assert s == [s[0]] + s[1..];
      FilterNoDups(s[1..], keep);
      if keep(s[0]) { NoDupsCons(s[0], Filter(s[1..], keep)); }
    }
  }

  /** Filtering keeps a list sorted. */
  lemma {:induction false} FilterSorted(s: seq<string>, keep: string -> bool)
    requires Sorted(s)
    ensures Sorted(Filter(s, keep))
  {
    if s != [] {
      SortedCons(s[0], s[1..]);
      assert s == [s[0]] + s[1..];
      FilterSorted(s[1..], keep);
      if keep(s[0]) { SortedCons(s[0], Filter(s[1..], keep)); }
    }
  }

  /** Python's `get_list_index`, i.e. `s.index(x)` with `-1` for the `ValueError`:
      the first position of `x`, or `-1` when `x` is absent. */
  function IndexOf<T(==)>(s: seq<T>, x: T): (r: int)
    ensures r == -1 <==> x !in s
    ensures r != -1 ==> 0 <= r < |s| && s[r] == x && x !in s[..r]
  {
    if s == [] then -1
    else if s[0] == x then 0
    else
      var k := IndexOf(s[1..], x);
      assert k != -1 ==> s[..k + 1] == [s[0]] + s[1..][..k];
      if k == -1 then -1 else k + 1
  }

  /** In a list without duplicates, the position of `s[i]` is `i`. */
  lemma IndexOfNoDups<T>(s: seq<T>, i: nat)
    requires NoDups(s) && i < |s|
    ensures IndexOf(s, s[i]) == i
  {
  }

  /** In a list without duplicates every element occurs exactly once. */
  lemma {:induction false} NoDupsCount<T>(s: seq<T>, x: T)
    requires NoDups(s) && x in s
    ensures multiset(s)[x] == 1
  {
    assert s == [s[0]] + s[1..];
    NoDupsCons(s[0], s[1..]);
    if s[0] != x {
      NoDupsCount(s[1..], x);
    } else {
      assert x !in multiset(s[1..]);
    }
  }

  /** Python's `s.remove(x)`: drop the first occurrence of `x`. */
  function RemoveFirst<T(==)>(s: seq<T>, x: T): (r: seq<T>)
    ensures x in s ==> multiset(r) == multiset(s) - multiset{x}
    ensures x !in s ==> r == s
  {
    if s == [] then []
    else
      assert s == [s[0]] + s[1..];
      if s[0] == x then s[1..] else [s[0]] + RemoveFirst(s[1..], x)
  }

  /** Removing an element keeps a list sorted and free of duplicates. */
  lemma {:induction false} RemoveFirstSorted(s: seq<string>, x: string)
    requires Sorted(s) && NoDups(s)
    ensures Sorted(RemoveFirst(s, x)) && NoDups(RemoveFirst(s, x))
  {
    if s != [] {
      assert s == [s[0]] + s[1..];
      SortedCons(s[0], s[1..]);
      NoDupsCons(s[0], s[1..]);
      if s[0] != x {
        var t := RemoveFirst(s[1..], x);
        RemoveFirstSorted(s[1..], x);
        RemoveFirstMembers(s[1..], x);
        SortedCons(s[0], t);
        NoDupsCons(s[0], t);
      }
    }
  }

  /** Removing an element adds none. */
  lemma RemoveFirstMembers<T>(s: seq<T>, x: T)
    ensures forall y :: y in RemoveFirst(s, x) ==> y in s
  {
    forall y | y in RemoveFirst(s, x) ensures y in s {
      assert y in multiset(RemoveFirst(s, x));
    }
  }

  /** One step of insertion sort: `x` placed before the first element it does not exceed. */
  function Insert(x: string, s: seq<string>): (r: seq<string>)
    ensures multiset(r) == multiset(s) + multiset{x}
  {
    if s == [] then [x]
    else if StrLe(x, s[0]) then [x] + s
    else
      assert s == [s[0]] + s[1..];
      [s[0]] + Insert(x, s[1..])
  }

  lemma {:induction false} InsertSorted(x: string, s: seq<string>)
    requires Sorted(s)
    ensures Sorted(Insert(x, s))
    ensures NoDups(s) && x !in s ==> NoDups(Insert(x, s))
  {
    if s != [] {
      assert s == [s[0]] + s[1..];
      SortedCons(s[0], s[1..]);
      NoDupsCons(s[0], s[1..]);
      if StrLe(x, s[0]) {
        forall y | y in s ensures StrLe(x, y) {
          if y != s[0] { StrLeTrans(x, s[0], y); }
        }
        SortedCons(x, s);
        NoDupsCons(x, s);
      } else {
        var t := Insert(x, s[1..]);
        InsertSorted(x, s[1..]);
        StrLeTotal(x, s[0]);
        assert forall y :: y in t ==> y in multiset(t);
        SortedCons(s[0], t);
        NoDupsCons(s[0], t);
      }
    }
  }

  /** Python's `list.sort()` on strings, as an insertion sort: an ascending permutation
      of the input, free of duplicates when the input is. */
  function SortStrings(s: seq<string>): (r: seq<string>)
    ensures multiset(r) == multiset(s) && |r| == |s|
    ensures Sorted(r)
    ensures NoDups(s) ==> NoDups(r)
  {
    if s == [] then []
    else
      var t := SortStrings(s[1..]);
      assert s == [s[0]] + s[1..];
      NoDupsCons(s[0], s[1..]);
      assert s[0] in t ==> s[0] in multiset(s[1..]);
      InsertSorted(s[0], t);
      assert |multiset(Insert(s[0], t))| == |s|;
      Insert(s[0], t)
  }

  /** A sorted list is determined by its elements: any two sorting functions agree, so the
      insertion sort above gives what Python's `list.sort()` gives. */
  lemma {:induction false} SortedUnique(a: seq<string>, b: seq<string>)
    requires Sorted(a) && Sorted(b) && multiset(a) == multiset(b)
    ensures a == b
  {
    if a != [] {
      assert |b| == |multiset(b)| == |a|;
      SortedHeads(a, b);
      SortedCons(a[0], a[1..]);
      SortedCons(b[0], b[1..]);
      assert a == [a[0]] + a[1..] && b == [b[0]] + b[1..];
      assert multiset(a[1..]) == multiset(a) - multiset{a[0]};
      assert multiset(b[1..]) == multiset(b) - multiset{b[0]};
      SortedUnique(a[1..], b[1..]);
    }
  }

  /** Two sorted lists with the same elements start with the same one. */
  lemma SortedHeads(a: seq<string>, b: seq<string>)
    requires Sorted(a) && Sorted(b) && multiset(a) == multiset(b) && a != []
    ensures b != [] && a[0] == b[0]
  {
    assert a[0] in multiset(b);
    assert b[0] in multiset(a);
    assert a == [a[0]] + a[1..] && b == [b[0]] + b[1..];
    SortedCons(a[0], a[1..]);
    SortedCons(b[0], b[1..]);
    assert StrLe(a[0], b[0]) by {
      if b[0] != a[0] { assert b[0] in a[1..]; }
      else { StrLeRefl(a[0]); }
    }
    assert StrLe(b[0], a[0]) by {
      if b[0] != a[0] { assert a[0] in b[1..]; }
      else { StrLeRefl(a[0]); }
    }
    StrLeAntisym(a[0], b[0]);
  }

  /** Sorting a sorted list leaves it as it is. */
  lemma SortSorted(s: seq<string>)
    requires Sorted(s)
    ensures SortStrings(s) == s
  {
    SortedUnique(SortStrings(s), s);
  }

  /** Python's `list(dict.fromkeys(s))`: the first occurrence of each value, in order. */
  function Dedup(s: seq<string>): (r: seq<string>)
    ensures NoDups(r)
    ensures forall x :: x in r <==> x in s
    ensures NoDups(s) ==> r == s
  {
    if s == [] then []
    else
      var t := Dedup(s[1..]);
      assert s == [s[0]] + s[1..];
      NoDupsCons(s[0], s[1..]);
      NoDupsCons(s[0], RemoveAll(t, s[0]));
      [s[0]] + RemoveAll(t, s[0])
  }

  /** `s` without any occurrence of `x`. */
  function RemoveAll(s: seq<string>, x: string): (r: seq<string>)
    ensures forall y :: y in r <==> y in s && y != x
    ensures NoDups(s) ==> NoDups(r)
    ensures x !in s ==> r == s
  {
    FilterPreserves(s, y => y != x);
    Filter(s, y => y != x)
  }

  /** What filtering preserves, and that keeping everything keeps the list as it is. */
  lemma FilterPreserves(s: seq<string>, keep: string -> bool)
    ensures NoDups(s) ==> NoDups(Filter(s, keep))
    ensures Sorted(s) ==> Sorted(Filter(s, keep))
    ensures (forall x :: x in s ==> keep(x)) ==> Filter(s, keep) == s
  {
    if NoDups(s) { FilterNoDups(s, keep); }
    if Sorted(s) { FilterSorted(s, keep); }
    if forall x :: x in s ==> keep(x) { FilterAll(s, keep); }
  }

  lemma {:induction false} FilterAll(s: seq<string>, keep: string -> bool)
    requires forall x :: x in s ==> keep(x)
    ensures Filter(s, keep) == s
  {
    if s != [] {
      FilterAll(s[1..], keep);
      assert s == [s[0]] + s[1..];
    }
  }
}
