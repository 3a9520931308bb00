/** Orders, and the two sorting calls of Go's `slices` package. */
module Ordering {

  /** Lexicographic comparison of strings: negative, zero or positive. */
  function CompareStrings(a: string, b: string): int {
    if a == [] then (if b == [] then 0 else -1)
    else if b == [] then 1
    else if a[0] < b[0] then -1
    else if a[0] > b[0] then 1
    else CompareStrings(a[1..], b[1..])
  }

  predicate Before(a: string, b: string) {
    CompareStrings(a, b) < 0
  }

  /** The strings agree up to `i`, and there `a` has the lesser character. */
  predicate LessAt(a: string, b: string, i: nat) {
    i < |a| && i < |b| && a[..i] == b[..i] && a[i] < b[i]
  }

  /** The order is that of Go's strings: a proper prefix comes first, else the first difference decides. */
  lemma {:induction false} BeforeMeaning(a: string, b: string)
    ensures Before(a, b) <==> (|a| < |b| && a == b[..|a|]) || exists i: nat :: LessAt(a, b, i)
  {
    if a != [] && b != [] && a[0] == b[0] {
      var x, y := a[1..], b[1..];
      BeforeMeaning(x, y);
      assert a == [a[0]] + x && b == [a[0]] + y;
      assert |a| <= |b| ==> b[..|a|] == [a[0]] + y[..|x|];
      if i: nat :| LessAt(x, y, i) {
        assert a[..i + 1] == [a[0]] + x[..i] && b[..i + 1] == [a[0]] + y[..i];
        assert LessAt(a, b, i + 1);
      }
      if i: nat :| LessAt(a, b, i) {
        assert x[..i - 1] == a[..i][1..] && y[..i - 1] == b[..i][1..];
        assert LessAt(x, y, i - 1);
      }
    } else if a != [] && b != [] && a[0] < b[0] {
      assert LessAt(a, b, 0);
    }
  }

  lemma {:induction false} CompareStringsZero(a: string, b: string)
    ensures CompareStrings(a, b) == 0 <==> a == b
  {
    if a != [] && b != [] && a[0] == b[0] {
      CompareStringsZero(a[1..], b[1..]);
      assert a == [a[0]] + a[1..] && b == [b[0]] + b[1..];
    }
  }

  lemma {:induction false} CompareStringsFlips(a: string, b: string)
    ensures CompareStrings(a, b) == -CompareStrings(b, a)
  {
    if a != [] && b != [] && a[0] == b[0] {
      CompareStringsFlips(a[1..], b[1..]);
    }
  }

  lemma {:induction false} CompareStringsTransitive(a: string, b: string, c: string)
    requires CompareStrings(a, b) <= 0 && CompareStrings(b, c) <= 0
    ensures CompareStrings(a, c) <= 0
    ensures CompareStrings(a, b) < 0 || CompareStrings(b, c) < 0 ==> CompareStrings(a, c) < 0
  {
    if a != [] && b != [] && c != [] && a[0] == b[0] && b[0] == c[0] {
      CompareStringsTransitive(a[1..], b[1..], c[1..]);
    }
  }

  ghost predicate TransitiveOn<T(!new)>(cmp: (T, T) -> int, s: seq<T>) {
    forall x, y, z :: x in s && y in s && z in s && cmp(x, y) <= 0 && cmp(y, z) <= 0 ==> cmp(x, z) <= 0
  }

  ghost predicate TotalOn<T(!new)>(cmp: (T, T) -> int, s: seq<T>) {
    forall x, y :: x in s && y in s ==> cmp(x, y) <= 0 || cmp(y, x) <= 0
  }

  ghost predicate PreorderOn<T(!new)>(cmp: (T, T) -> int, s: seq<T>) {
    TotalOn(cmp, s) && TransitiveOn(cmp, s)
  }

  /** Elements that compare equal are the same element. */
  ghost predicate AntisymmetricOn<T(!new)>(cmp: (T, T) -> int, s: seq<T>) {
    forall x, y :: x in s && y in s && cmp(x, y) <= 0 && cmp(y, x) <= 0 ==> x == y
  }

  ghost predicate Sorted<T>(cmp: (T, T) -> int, s: seq<T>) {
    forall i, j :: 0 <= i < j < |s| ==> cmp(s[i], s[j]) <= 0
  }

  lemma SameMembers<T>(s: seq<T>, t: seq<T>)
    requires multiset(s) == multiset(t)
    ensures |s| == |t|
    ensures forall x :: x in s <==> x in t
  {
    assert |multiset(s)| == |s| && |multiset(t)| == |t|;
    forall x ensures x in s <==> x in t {
      assert x in s <==> x in multiset(s);
      assert x in t <==> x in multiset(t);
    }
  }

  lemma HeadAndTail<T>(s: seq<T>)
    requires s != []
    ensures multiset(s[1..]) == multiset(s) - multiset{s[0]}
    ensures forall x :: x in s <==> x == s[0] || x in s[1..]
  {
    assert s == [s[0]] + s[1..];
  }

  /** The least element of a sorted list is the least element of every sorted rearrangement of it. */
  lemma SortedHead<T(!new)>(cmp: (T, T) -> int, s: seq<T>, t: seq<T>)
    requires s != [] && multiset(s) == multiset(t) && Sorted(cmp, s) && Sorted(cmp, t) && AntisymmetricOn(cmp, s)
    ensures |t| == |s| && s[0] == t[0]
  {
    SameMembers(s, t);
    assert s[0] in t && t[0] in s;
    var i :| 0 <= i < |s| && s[i] == t[0];
    var j :| 0 <= j < |t| && t[j] == s[0];
    if i > 0 && j > 0 {
      assert cmp(s[0], s[i]) <= 0 && cmp(t[0], t[j]) <= 0;
    }
  }

  /** Sorted arrangements of the same elements coincide when no two distinct ones compare equal. */
  lemma {:induction false} SortedUnique<T(!new)>(cmp: (T, T) -> int, s: seq<T>, t: seq<T>)
    requires multiset(s) == multiset(t) && Sorted(cmp, s) && Sorted(cmp, t) && AntisymmetricOn(cmp, s)
    ensures s == t
  {
    if s == [] {
      SameMembers(s, t);
    } else {
      SortedHead(cmp, s, t);
      HeadAndTail(s);
      HeadAndTail(t);
      SortedUnique(cmp, s[1..], t[1..]);
      assert s == [s[0]] + s[1..] && t == [t[0]] + t[1..];
    }
  }

  function Insert<T>(cmp: (T, T) -> int, x: T, s: seq<T>): (r: seq<T>)
    ensures multiset(r) == multiset{x} + multiset(s)
  {
    if s == [] || cmp(x, s[0]) <= 0 then [x] + s
    else
      assert s == [s[0]] + s[1..];
      [s[0]] + Insert(cmp, x, s[1..])
  }

  function InsertionSort<T>(cmp: (T, T) -> int, s: seq<T>): (r: seq<T>)
    ensures multiset(r) == multiset(s)
  {
    if s == [] then []
    else
      assert s == [s[0]] + s[1..];
      Insert(cmp, s[0], InsertionSort(cmp, s[1..]))
  }

  lemma InsertMembers<T>(cmp: (T, T) -> int, x: T, s: seq<T>)
    ensures forall y :: y in Insert(cmp, x, s) <==> y == x || y in s
  {
    forall y ensures y in Insert(cmp, x, s) <==> y == x || y in s {
      assert y in Insert(cmp, x, s) <==> y in multiset(Insert(cmp, x, s));
      assert y in s <==> y in multiset(s);
    }
  }

  lemma Narrower<T(!new)>(cmp: (T, T) -> int, s: seq<T>, t: seq<T>)
    requires PreorderOn(cmp, t) && forall x :: x in s ==> x in t
    ensures PreorderOn(cmp, s)
  {
  }

  lemma HeadBelowInsert<T(!new)>(cmp: (T, T) -> int, x: T, s: seq<T>)
    requires s != [] && Sorted(cmp, s) && cmp(s[0], x) <= 0
    ensures forall y :: y in Insert(cmp, x, s[1..]) ==> cmp(s[0], y) <= 0
  {
    InsertMembers(cmp, x, s[1..]);
  }

  lemma {:induction false} InsertSorted<T(!new)>(cmp: (T, T) -> int, x: T, s: seq<T>)
    requires Sorted(cmp, s) && PreorderOn(cmp, [x] + s)
    ensures Sorted(cmp, Insert(cmp, x, s))
  {
    if s != [] {
      if cmp(x, s[0]) > 0 {
        assert x in [x] + s && s[0] in [x] + s;
        Narrower(cmp, [x] + s[1..], [x] + s);
        InsertSorted(cmp, x, s[1..]);
        HeadBelowInsert(cmp, x, s);
      } else {
        forall j | 0 <= j < |s| ensures cmp(x, s[j]) <= 0 {
          assert x in [x] + s && s[0] in [x] + s && s[j] in [x] + s;
        }
      }
    }
  }

  lemma {:induction false} InsertionSortSorted<T(!new)>(cmp: (T, T) -> int, s: seq<T>)
    requires PreorderOn(cmp, s)
    ensures Sorted(cmp, InsertionSort(cmp, s))
  {
    if s != [] {
      HeadAndTail(s);
      Narrower(cmp, s[1..], s);
      InsertionSortSorted(cmp, s[1..]);
      SameMembers(InsertionSort(cmp, s[1..]), s[1..]);
      Narrower(cmp, [s[0]] + InsertionSort(cmp, s[1..]), s);
      InsertSorted(cmp, s[0], InsertionSort(cmp, s[1..]));
    }
  }

  lemma {:induction false} InsertionSortFixed<T(!new)>(cmp: (T, T) -> int, s: seq<T>)
    requires Sorted(cmp, s)
    ensures InsertionSort(cmp, s) == s
  {
    if s != [] {
      InsertionSortFixed(cmp, s[1..]);
      assert s == [s[0]] + s[1..];
    }
  }

  /** `slices.SortFunc`. Callers rely on its contract only: some arrangement of the same elements,
      sorted when the comparison is a total preorder on them; equal elements in any order. */
  method SortFunc<T(!new)>(a: array<T>, cmp: (T, T) -> int)
    modifies a
    ensures multiset(a[..]) == multiset(old(a[..]))
    ensures PreorderOn(cmp, old(a[..])) ==> Sorted(cmp, a[..])
  {
    ghost var before := a[..];
    var s := InsertionSort(cmp, a[..]);
    SameMembers(s, before);
    forall i | 0 <= i < a.Length {
      a[i] := s[i];
    }
    assert a[..] == s;
    if PreorderOn(cmp, before) {
      InsertionSortSorted(cmp, before);
    }
  }

  ghost predicate StrictlySorted(s: seq<string>) {
    forall i, j :: 0 <= i < j < |s| ==> Before(s[i], s[j])
  }

  lemma StringsPreorder(s: seq<string>)
    ensures PreorderOn(CompareStrings, s) && AntisymmetricOn(CompareStrings, s)
  {
    forall x, y ensures CompareStrings(x, y) <= 0 || CompareStrings(y, x) <= 0
      ensures CompareStrings(x, y) <= 0 && CompareStrings(y, x) <= 0 ==> x == y
    {
      CompareStringsFlips(x, y);
      CompareStringsZero(x, y);
    }
    forall x, y, z | CompareStrings(x, y) <= 0 && CompareStrings(y, z) <= 0 ensures CompareStrings(x, z) <= 0 {
      CompareStringsTransitive(x, y, z);
    }
  }

  lemma StrictlySortedIsSorted(s: seq<string>)
    requires StrictlySorted(s)
    ensures Sorted(CompareStrings, s)
    ensures forall i, j :: 0 <= i < |s| && 0 <= j < |s| && s[i] == s[j] ==> i == j
  {
    forall i, j | 0 <= i < j < |s| ensures CompareStrings(s[i], s[j]) <= 0 && s[i] != s[j] {
      assert Before(s[i], s[j]);
      CompareStringsZero(s[i], s[j]);
    }
  }

  /** Sorting distinct strings sorts them strictly. */
  lemma SortedDistinct(s: seq<string>, t: seq<string>)
    requires (forall i, j :: 0 <= i < j < |s| ==> s[i] != s[j]) && multiset(s) == multiset(t) && Sorted(CompareStrings, t)
    ensures StrictlySorted(t)
  {
    DistinctPermutes((x: string) => x, s, t);
    forall i, j | 0 <= i < j < |t| ensures Before(t[i], t[j]) {
      CompareStringsZero(t[i], t[j]);
    }
  }

  /** A strictly sorted list is determined by its members. */
  lemma {:induction false} StrictlySortedUnique(s: seq<string>, t: seq<string>)
    requires StrictlySorted(s) && StrictlySorted(t) && (forall x :: x in s <==> x in t)
    ensures s == t
  {
    if s == [] {
      NoMembers(t);
    } else if t == [] {
      NoMembers(s);
    } else {
      assert s[0] in s && t[0] in t;
      StrictlySortedHead(s, t);
      StrictlySortedTail(s);
      StrictlySortedTail(t);
      StrictlySortedUnique(s[1..], t[1..]);
      assert s == [s[0]] + s[1..] && t == [t[0]] + t[1..];
    }
  }

  lemma NoMembers<T>(s: seq<T>)
    ensures (forall x :: x !in s) ==> s == []
  {
    assert s != [] ==> s[0] in s;
  }

  lemma StrictlySortedHead(s: seq<string>, t: seq<string>)
    requires s != [] && t != [] && StrictlySorted(s) && StrictlySorted(t) && s[0] in t && t[0] in s
    ensures s[0] == t[0]
  {
    CompareStringsFlips(s[0], t[0]);
  }

  lemma StrictlySortedTail(s: seq<string>)
    requires s != [] && StrictlySorted(s)
    ensures forall x :: x in s[1..] <==> x in s && x != s[0]
  {
    StrictlySortedIsSorted(s);
    HeadAndTail(s);
  }

  function InsertName(x: string, s: seq<string>): (r: seq<string>)
    ensures forall y :: y in r <==> y == x || y in s
  {
    if s == [] || Before(x, s[0]) then [x] + s
    else if x == s[0] then s
    else
      assert s == [s[0]] + s[1..];
      [s[0]] + InsertName(x, s[1..])
  }

  /** The distinct elements of a list, in increasing order. */
  function SortedSet(s: seq<string>): (r: seq<string>)
    ensures forall y :: y in r <==> y in s
  {
    if s == [] then []
    else
      assert s == [s[0]] + s[1..];
      InsertName(s[0], SortedSet(s[1..]))
  }

  lemma {:induction false} InsertNameSorted(x: string, s: seq<string>)
    requires StrictlySorted(s)
    ensures StrictlySorted(InsertName(x, s))
  {
    if s != [] && Before(x, s[0]) {
      forall j | 0 <= j < |s| ensures Before(x, s[j]) {
        if j > 0 {
          assert Before(s[0], s[j]);
          CompareStringsTransitive(x, s[0], s[j]);
        }
      }
    } else if s != [] && x != s[0] {
      InsertNameSorted(x, s[1..]);
      var r := InsertName(x, s[1..]);
      forall j | 0 <= j < |r| ensures Before(s[0], r[j]) {
        assert r[j] in r;
        if r[j] == x {
          CompareStringsZero(x, s[0]);
          CompareStringsFlips(x, s[0]);
        }
      }
    }
  }

  lemma {:induction false} SortedSetSorted(s: seq<string>)
    ensures StrictlySorted(SortedSet(s))
  {
    if s != [] {
      SortedSetSorted(s[1..]);
      InsertNameSorted(s[0], SortedSet(s[1..]));
    }
  }

  /** `slices.Sort` on strings. */
  method SortStrings(s: seq<string>) returns (r: seq<string>)
    ensures multiset(r) == multiset(s) && Sorted(CompareStrings, r)
  {
    var a := new string[|s|](i requires 0 <= i < |s| => s[i]);
    assert a[..] == s;
    StringsPreorder(s);
    SortFunc(a, CompareStrings);
    r := a[..];
  }

  /** `r` is the compacted form of the sorted list `s`. */
  ghost predicate Compacted(s: seq<string>, r: seq<string>) {
    && StrictlySorted(r) && (forall y :: y in r <==> y in s)
    && (if s == [] then r == [] else r != [] && r[|r| - 1] == s[|s| - 1])
  }

  lemma CompactStep(s: seq<string>, r: seq<string>, x: string)
    requires Sorted(CompareStrings, s + [x]) && Compacted(s, r)
    ensures Compacted(s + [x], if s == [] || x != s[|s| - 1] then r + [x] else r)
  {
    if s != [] && x != s[|s| - 1] {
      var last := s[|s| - 1];
      assert CompareStrings((s + [x])[|s| - 1], (s + [x])[|s|]) <= 0;
      CompareStringsZero(last, x);
      forall k | 0 <= k < |r| ensures Before(r[k], x) {
        if k < |r| - 1 {
          CompareStringsTransitive(r[k], last, x);
        }
      }
    }
  }

  lemma CompactNext(s: seq<string>, i: nat, r: seq<string>)
    requires i < |s| && Sorted(CompareStrings, s) && Compacted(s[..i], r)
    ensures Compacted(s[..i + 1], if i == 0 || s[i] != s[i - 1] then r + [s[i]] else r)
  {
    assert s[..i + 1] == s[..i] + [s[i]];
    CompactStep(s[..i], r, s[i]);
  }

  lemma CompactedIsSet(s: seq<string>, r: seq<string>)
    requires Compacted(s, r)
    ensures r == SortedSet(s)
  {
    SortedSetSorted(s);
    StrictlySortedUnique(r, SortedSet(s));
  }

  /** `slices.Compact`: replaces each run of equal elements by one of them. */
  method Compact(s: seq<string>) returns (r: seq<string>)
    requires Sorted(CompareStrings, s)
    ensures r == SortedSet(s)
  {
    r := [];
    for i := 0 to |s|
      invariant Compacted(s[..i], r)
    {
      CompactNext(s, i, r);
      if i == 0 || s[i] != s[i - 1] {
        r := r + [s[i]];
      }
    }
    assert s[..|s|] == s;
    CompactedIsSet(s, r);
  }

  /** Sorting then compacting yields the sorted set of what was there before. */
  method SortCompact(s: seq<string>) returns (r: seq<string>)
    ensures r == SortedSet(s)
    ensures StrictlySorted(r) && forall x :: x in r <==> x in s
  {
    var sorted := SortStrings(s);
    r := Compact(sorted);
    SameMembers(s, sorted);
    SortedSetSorted(s);
    SortedSetSorted(sorted);
    StrictlySortedUnique(SortedSet(sorted), SortedSet(s));
  }

  /** The combined contribution of every element, as a multiset. */
  ghost function Image<T, U>(s: seq<T>, f: T -> multiset<U>): multiset<U> {
    if s == [] then multiset{} else f(s[0]) + Image(s[1..], f)
  }

  lemma {:induction false} ImageConcat<T, U>(s: seq<T>, t: seq<T>, f: T -> multiset<U>)
    ensures Image(s + t, f) == Image(s, f) + Image(t, f)
  {
    if s == [] {
      assert s + t == t;
    } else {
      assert (s + t)[1..] == s[1..] + t;
      ImageConcat(s[1..], t, f);
    }
  }

  /** The combined contribution does not depend on the order of the elements. */
  lemma {:induction false} ImagePermutes<T, U>(s: seq<T>, t: seq<T>, f: T -> multiset<U>)
    requires multiset(s) == multiset(t)
    ensures Image(s, f) == Image(t, f)
  {
    SameMembers(s, t);
    if s != [] {
      assert s[0] in t;
      var j :| 0 <= j < |t| && t[j] == s[0];
      var rest := t[..j] + t[j + 1..];
      assert t == t[..j] + ([t[j]] + t[j + 1..]);
      HeadAndTail(s);
      assert multiset(rest) == multiset(t) - multiset{s[0]};
      ImagePermutes(s[1..], rest, f);
      ImageConcat(t[..j], t[j + 1..], f);
      ImageConcat(t[..j], [t[j]] + t[j + 1..], f);
      assert ([t[j]] + t[j + 1..])[1..] == t[j + 1..];
    }
  }

  /** The concatenated contributions of every element, in order. */
  function Collect<T, U>(s: seq<T>, f: T -> seq<U>): seq<U> {
    if s == [] then [] else Collect(s[..|s| - 1], f) + f(s[|s| - 1])
  }

  lemma CollectStep<T, U>(s: seq<T>, i: nat, f: T -> seq<U>)
    requires i < |s|
    ensures Collect(s[..i + 1], f) == Collect(s[..i], f) + f(s[i])
  {
    assert s[..i + 1][..i] == s[..i];
  }

  lemma {:induction false} CollectMembers<T, U>(s: seq<T>, f: T -> seq<U>)
    ensures forall u :: u in Collect(s, f) <==> exists x :: x in s && u in f(x)
  {
    if s != [] {
      var last := s[|s| - 1];
      CollectMembers(s[..|s| - 1], f);
      assert s == s[..|s| - 1] + [last];
      forall u ensures u in Collect(s, f) <==> exists x :: x in s && u in f(x) {
        if u in f(last) {
          assert last in s;
        }
      }
    }
  }

  lemma {:induction false} CollectImage<T, U>(s: seq<T>, f: T -> seq<U>, g: T -> multiset<U>)
    requires forall x :: x in s ==> g(x) == multiset(f(x))
    ensures multiset(Collect(s, f)) == Image(s, g)
  {
    if s != [] {
      var front, last := s[..|s| - 1], s[|s| - 1];
      CollectImage(front, f, g);
      assert s == front + [last];
      ImageConcat(front, [last], g);
    }
  }

  lemma {:induction false} CollectConcat<T, U>(s: seq<T>, t: seq<T>, f: T -> seq<U>)
    ensures Collect(s + t, f) == Collect(s, f) + Collect(t, f)
  {
    if t == [] {
      assert s + t == s;
    } else {
      assert (s + t)[..|s + t| - 1] == s + t[..|t| - 1];
      CollectConcat(s, t[..|t| - 1], f);
    }
  }

  ghost predicate Chosen<T>(s: seq<T>, f: T -> bool, r: seq<T>) {
    r == Collect(s, x => if f(x) then [x] else [])
  }

  /** Choosing elements commutes with rearranging the list. */
  lemma ChosenPermutes<T>(s: seq<T>, t: seq<T>, f: T -> bool, cs: seq<T>, ct: seq<T>)
    requires multiset(s) == multiset(t) && Chosen(s, f, cs) && Chosen(t, f, ct)
    ensures multiset(cs) == multiset(ct)
  {
    var h := x => if f(x) then [x] else [];
    var g := x => multiset(h(x));
    CollectImage(s, h, g);
    CollectImage(t, h, g);
    ImagePermutes(s, t, g);
  }

  /** No two chosen positions share a key. */
  ghost predicate ApartBy<T>(key: T -> string, s: seq<T>, f: T -> bool) {
    forall i, j :: 0 <= i < j < |s| && f(s[i]) && f(s[j]) ==> key(s[i]) != key(s[j])
  }

  lemma ApartMore<T>(key: T -> string, s: seq<T>, x: T, f: T -> bool)
    ensures ApartBy(key, s + [x], f) <==> ApartBy(key, s, f) && (f(x) ==> forall y :: y in s && f(y) ==> key(y) != key(x))
  {
    var t := s + [x];
    assert forall i :: 0 <= i < |s| ==> t[i] == s[i];
    if ApartBy(key, t, f) {
      forall y | f(x) && y in s && f(y) ensures key(y) != key(x) {
        var i :| 0 <= i < |s| && s[i] == y;
        assert t[i] == y && t[|s|] == x;
      }
      forall i, j | 0 <= i < j < |s| && f(s[i]) && f(s[j]) ensures key(s[i]) != key(s[j]) {
        assert t[i] == s[i] && t[j] == s[j];
      }
    }
  }

  /** Keys are distinct among the chosen elements exactly when no two chosen positions share one. */
  lemma {:induction false} ChosenDistinct<T>(key: T -> string, s: seq<T>, f: T -> bool, cs: seq<T>)
    requires Chosen(s, f, cs)
    ensures DistinctBy(key, cs) <==> ApartBy(key, s, f)
    ensures forall x :: x in cs <==> x in s && f(x)
  {
    if s != [] {
      var front, last := s[..|s| - 1], s[|s| - 1];
      assert s == front + [last];
      var cf := Collect(front, x => if f(x) then [x] else []);
      ChosenDistinct(key, front, f, cf);
      ApartMore(key, front, last, f);
      if f(last) {
        assert cs == cf + [last];
        ChosenMore(key, cf, last);
      } else {
        assert cs == cf;
      }
    }
  }

  lemma ChosenMore<T>(key: T -> string, s: seq<T>, x: T)
    ensures DistinctBy(key, s + [x]) <==> DistinctBy(key, s) && forall y :: y in s ==> key(y) != key(x)
  {
    var t := s + [x];
    assert forall i :: 0 <= i < |s| ==> t[i] == s[i];
    if DistinctBy(key, t) {
      forall y | y in s ensures key(y) != key(x) {
        var i :| 0 <= i < |s| && s[i] == y;
        assert t[i] == y && t[|s|] == x;
      }
      assert forall i, j :: 0 <= i < |s| && 0 <= j < |s| && key(s[i]) == key(s[j]) ==> key(t[i]) == key(t[j]);
    }
  }

  /** Contributions that agree position by position. */
  lemma {:induction false} CollectPointwise<T, U>(s: seq<T>, t: seq<T>, f: T -> seq<U>, g: T -> seq<U>)
    requires |s| == |t| && forall i :: 0 <= i < |s| ==> f(s[i]) == g(t[i])
    ensures Collect(s, f) == Collect(t, g)
  {
    if s != [] {
      CollectPointwise(s[..|s| - 1], t[..|t| - 1], f, g);
    }
  }

  /** Mapping each element keeps rearrangements rearrangements. */
  lemma MappedPermutes<T>(s: seq<T>, t: seq<T>, f: T -> T, fs: seq<T>, ft: seq<T>)
    requires multiset(s) == multiset(t)
    requires |fs| == |s| && forall i :: 0 <= i < |s| ==> fs[i] == f(s[i])
    requires |ft| == |t| && forall i :: 0 <= i < |t| ==> ft[i] == f(t[i])
    ensures multiset(fs) == multiset(ft)
  {
    var g := x => multiset{f(x)};
    MappedImage(s, f, fs, g);
    MappedImage(t, f, ft, g);
    ImagePermutes(s, t, g);
  }

  lemma {:induction false} MappedImage<T>(s: seq<T>, f: T -> T, fs: seq<T>, g: T -> multiset<T>)
    requires |fs| == |s| && (forall i :: 0 <= i < |s| ==> fs[i] == f(s[i])) && forall x :: g(x) == multiset{f(x)}
    ensures multiset(fs) == Image(s, g)
  {
    if s != [] {
      MappedImage(s[1..], f, fs[1..], g);
      assert fs == [fs[0]] + fs[1..];
    }
  }

  lemma {:induction false} CollectAgree<T, U>(s: seq<T>, f: T -> seq<U>, g: T -> seq<U>)
    requires forall x :: x in s ==> f(x) == g(x)
    ensures Collect(s, f) == Collect(s, g)
  {
    if s != [] {
      assert s == s[..|s| - 1] + [s[|s| - 1]];
      CollectAgree(s[..|s| - 1], f, g);
    }
  }

  lemma CollectTwo<T, U>(a: T, b: T, f: T -> seq<U>)
    ensures Collect([a], f) == f(a)
    ensures Collect([a, b], f) == f(a) + f(b)
  {
    assert [a][..0] == [] && [a, b][..1] == [a];
  }

  lemma ConcatAssociates<T>(a: seq<T>, b: seq<T>, c: seq<T>)
    ensures (a + b) + c == a + (b + c)
  {
  }

  /** No two elements have the same key. */
  ghost predicate DistinctBy<T>(key: T -> string, s: seq<T>) {
    forall i, j :: 0 <= i < |s| && 0 <= j < |s| && key(s[i]) == key(s[j]) ==> i == j
  }

  ghost predicate SortedBy<T>(key: T -> string, s: seq<T>) {
    forall i, j :: 0 <= i < j < |s| ==> CompareStrings(key(s[i]), key(s[j])) <= 0
  }

  /** `slices.SortFunc` with a comparison of string keys. */
  method SortByKey<T(!new)>(a: array<T>, key: T -> string)
    modifies a
    ensures multiset(a[..]) == multiset(old(a[..])) && SortedBy(key, a[..])
  {
    var cmp := (x: T, y: T) => CompareStrings(key(x), key(y));
    assert PreorderOn(cmp, a[..]) by { KeyPreorder(key, cmp, a[..]); }
    SortFunc(a, cmp);
    assert forall i, j :: 0 <= i < j < a.Length ==> cmp(a[..][i], a[..][j]) <= 0;
  }

  lemma KeyPreorder<T(!new)>(key: T -> string, cmp: (T, T) -> int, s: seq<T>)
    requires forall x, y :: cmp(x, y) == CompareStrings(key(x), key(y))
    ensures PreorderOn(cmp, s)
  {
    forall x, y, z | cmp(x, y) <= 0 && cmp(y, z) <= 0 ensures cmp(x, z) <= 0 {
      CompareStringsTransitive(key(x), key(y), key(z));
    }
    forall x, y ensures cmp(x, y) <= 0 || cmp(y, x) <= 0 {
      CompareStringsFlips(key(x), key(y));
    }
  }

  lemma DistinctMembers<T>(key: T -> string, s: seq<T>, x: T, y: T)
    requires DistinctBy(key, s) && x in s && y in s && key(x) == key(y)
    ensures x == y
  {
    var i :| 0 <= i < |s| && s[i] == x;
    var j :| 0 <= j < |s| && s[j] == y;
    assert i == j;
  }

  /** Elements with distinct keys have one sorted arrangement. */
  lemma SortedByUnique<T(!new)>(key: T -> string, d: seq<T>, s: seq<T>, t: seq<T>)
    requires DistinctBy(key, d) && multiset(s) == multiset(d) && multiset(t) == multiset(d)
    requires SortedBy(key, s) && SortedBy(key, t)
    ensures s == t
  {
    var cmp := (x: T, y: T) => CompareStrings(key(x), key(y));
    SameMembers(s, d);
    forall x, y | x in s && y in s && cmp(x, y) <= 0 && cmp(y, x) <= 0 ensures x == y {
      CompareStringsFlips(key(x), key(y));
      CompareStringsZero(key(x), key(y));
      DistinctMembers(key, d, x, y);
    }
    SortedUnique(cmp, s, t);
  }

  lemma TwoOccurrences<T>(s: seq<T>, i: nat, j: nat)
    requires i < j < |s| && s[i] == s[j]
    ensures multiset(s)[s[i]] >= 2
  {
    assert s == s[..i] + [s[i]] + s[i + 1..j] + [s[j]] + s[j + 1..];
  }

  lemma OneOccurrence<T>(key: T -> string, s: seq<T>, x: T)
    requires DistinctBy(key, s) && x in s
    ensures multiset(s)[x] == 1
  {
    var i :| 0 <= i < |s| && s[i] == x;
    assert s == s[..i] + [x] + s[i + 1..];
    assert x !in s[..i] && x !in s[i + 1..];
    assert multiset(s[..i])[x] == 0 && multiset(s[i + 1..])[x] == 0;
  }

  /** Rearranging keeps keys distinct. */
  lemma DistinctPermutes<T>(key: T -> string, d: seq<T>, s: seq<T>)
    requires DistinctBy(key, d) && multiset(s) == multiset(d)
    ensures DistinctBy(key, s)
  {
    SameMembers(s, d);
    forall i, j | 0 <= i < j < |s| ensures key(s[i]) != key(s[j]) {
      assert s[i] in d && s[j] in d;
      OneOccurrence(key, d, s[i]);
      if key(s[i]) == key(s[j]) {
        DistinctMembers(key, d, s[i], s[j]);
        TwoOccurrences(s, i, j);
      }
    }
  }

  lemma BeforeLast<T>(key: T -> string, s: seq<T>, x: T)
    requires SortedBy(key, s) && s != [] && x in s[..|s| - 1] && key(x) != key(s[|s| - 1])
    ensures Before(key(x), key(s[|s| - 1]))
  {
    var k :| 0 <= k < |s| - 1 && s[k] == x;
    assert CompareStrings(key(s[k]), key(s[|s| - 1])) <= 0;
    CompareStringsZero(key(x), key(s[|s| - 1]));
  }

  lemma KeysOfChosen<T>(key: T -> string, s: seq<T>, f: T -> seq<string>, chosen: T -> bool)
    requires forall x :: f(x) == if chosen(x) then [key(x)] else []
    ensures forall n :: n in Collect(s, f) <==> exists x :: x in s && chosen(x) && key(x) == n
  {
    CollectMembers(s, f);
  }

  lemma OneMoreInOrder(s: seq<string>, n: string)
    requires StrictlySorted(s) && forall i :: 0 <= i < |s| ==> Before(s[i], n)
    ensures StrictlySorted(s + [n])
  {
  }

  /** The keys of some elements of a list sorted by them are strictly sorted, if those are distinct. */
  lemma {:induction false} KeysInOrder<T>(key: T -> string, s: seq<T>, f: T -> seq<string>, chosen: T -> bool)
    requires SortedBy(key, s) && ApartBy(key, s, chosen)
    requires forall x :: f(x) == if chosen(x) then [key(x)] else []
    ensures StrictlySorted(Collect(s, f))
    ensures forall n :: n in Collect(s, f) <==> exists x :: x in s && chosen(x) && key(x) == n
  {
    KeysOfChosen(key, s, f, chosen);
    if s != [] {
      var front, last := s[..|s| - 1], s[|s| - 1];
      var before := Collect(front, f);
      assert s == front + [last];
      ApartMore(key, front, last, chosen);
      KeysInOrder(key, front, f, chosen);
      assert Collect(s, f) == before + f(last);
      if chosen(last) {
        forall i | 0 <= i < |before| ensures Before(before[i], key(last)) {
          assert before[i] in before;
          var x :| x in front && chosen(x) && key(x) == before[i];
          BeforeLast(key, s, x);
        }
        OneMoreInOrder(before, key(last));
      }
    }
  }

  lemma DistinctIsApart<T>(key: T -> string, s: seq<T>, chosen: T -> bool)
    requires DistinctBy(key, s)
    ensures ApartBy(key, s, chosen)
  {
  }

  lemma {:induction false} SetOfSeq<T>(s: seq<T>)
    ensures |set x | x in s| <= |s|
    ensures |set x | x in s| == |s| <==> forall i, j :: 0 <= i < j < |s| ==> s[i] != s[j]
  {
    var all := set x | x in s;
    if s != [] {
      var front, last := s[..|s| - 1], s[|s| - 1];
      var before := set x | x in front;
      assert s == front + [last];
      SetOfSeq(front);
      assert all == before + {last};
      if last !in front {
        assert |all| == |before| + 1;
      } else {
        assert all == before;
        var i :| 0 <= i < |front| && front[i] == last;
        assert s[i] == s[|s| - 1];
      }
    }
  }

  /** A list with the members and the length of a duplicate-free one has no duplicates. */
  lemma SameSizeDistinct<T>(s: seq<T>, t: seq<T>)
    requires |s| == |t| && (forall x :: x in s <==> x in t) && forall i, j :: 0 <= i < j < |s| ==> s[i] != s[j]
    ensures forall i, j :: 0 <= i < j < |t| ==> t[i] != t[j]
  {
    SetOfSeq(s);
    SetOfSeq(t);
    assert (set x | x in s) == (set x | x in t);
  }
}
