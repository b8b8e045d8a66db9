/** Stable sorting by a comparison, as the library sorts the sources call do it. */
module Sorting {
  import opened Prelude

  ghost predicate TotalPreorder<T(!new)>(le: (T, T) -> bool) {
    && (forall a, b :: le(a, b) || le(b, a))
    && (forall a, b, c :: le(a, b) && le(b, c) ==> le(a, c))
  }

  ghost predicate SortedBy<T>(s: seq<T>, le: (T, T) -> bool) {
    forall i, j :: 0 <= i < j < |s| ==> le(s[i], s[j])
  }

  ghost predicate StrictlySortedBy<T>(s: seq<T>, le: (T, T) -> bool) {
    forall i, j :: 0 <= i < j < |s| ==> le(s[i], s[j]) && !le(s[j], s[i])
  }

  ghost predicate SameMembers<T>(a: seq<T>, b: seq<T>) {
    (forall i :: 0 <= i < |a| ==> a[i] in b) && (forall i :: 0 <= i < |b| ==> b[i] in a)
  }

  function Insert<T>(x: T, s: seq<T>, le: (T, T) -> bool): seq<T> {
    if s == [] || le(x, s[0]) then [x] + s else [s[0]] + Insert(x, s[1..], le)
  }

  function SortBy<T>(s: seq<T>, le: (T, T) -> bool): seq<T> {
    if s == [] then [] else Insert(s[0], SortBy(s[1..], le), le)
  }

  lemma {:induction false} InsertPermutes<T>(x: T, s: seq<T>, le: (T, T) -> bool)
    ensures multiset(Insert(x, s, le)) == multiset([x] + s) && |Insert(x, s, le)| == |s| + 1
  {
    if s != [] && !le(x, s[0]) {
      InsertPermutes(x, s[1..], le);
      assert s == [s[0]] + s[1..];
    }
  }

  lemma {:induction false} InsertSorts<T(!new)>(x: T, s: seq<T>, le: (T, T) -> bool)
    requires TotalPreorder(le) && SortedBy(s, le)
    ensures SortedBy(Insert(x, s, le), le)
  {
    if s == [] || le(x, s[0]) {
      forall j | 0 <= j < |s| ensures le(x, s[j]) {
        if j > 0 { assert le(s[0], s[j]); }
      }
    } else {
      InsertSorts(x, s[1..], le);
      var r := Insert(x, s[1..], le);
      InsertPermutes(x, s[1..], le);
      forall j | 0 <= j < |r| ensures le(s[0], r[j]) {
        assert r[j] in multiset(r);
        assert r[j] in [x] + s[1..];
      }
    }
  }

  /** Sorting rearranges, and the outcome is in order. */
  lemma {:induction false} SortIs<T(!new)>(s: seq<T>, le: (T, T) -> bool)
    requires TotalPreorder(le)
    ensures multiset(SortBy(s, le)) == multiset(s) && |SortBy(s, le)| == |s|
    ensures SortedBy(SortBy(s, le), le)
  {
    if s != [] {
      SortIs(s[1..], le);
      InsertPermutes(s[0], SortBy(s[1..], le), le);
      InsertSorts(s[0], SortBy(s[1..], le), le);
      assert s == [s[0]] + s[1..];
    }
  }

  /** In order, and equals in the order of `tie`. */
  ghost predicate StablySortedBy<T>(s: seq<T>, le: (T, T) -> bool, tie: (T, T) -> bool) {
    forall i, j :: 0 <= i < j < |s| ==> le(s[i], s[j]) && (le(s[j], s[i]) ==> tie(s[i], s[j]))
  }

  lemma HeadBefore<T(!new)>(x: T, s: seq<T>, le: (T, T) -> bool, tie: (T, T) -> bool, y: T)
    requires TotalPreorder(le) && StablySortedBy(s, le, tie) && s != [] && !le(x, s[0]) && y in [x] + s[1..]
    ensures le(s[0], y) && (le(y, s[0]) ==> tie(s[0], y))
  {
    if y != x {
      var j :| 0 <= j < |s[1..]| && s[1..][j] == y;
      assert s[j + 1] == y;
    }
  }

  lemma {:induction false} InsertStable<T(!new)>(x: T, s: seq<T>, le: (T, T) -> bool, tie: (T, T) -> bool)
    requires TotalPreorder(le) && StablySortedBy(s, le, tie) && forall k :: 0 <= k < |s| ==> tie(x, s[k])
    ensures StablySortedBy(Insert(x, s, le), le, tie)
  {
    if s == [] || le(x, s[0]) {
      forall j | 0 <= j < |s| ensures le(x, s[j]) {
        if j > 0 { assert le(s[0], s[j]); }
      }
    } else {
      InsertStable(x, s[1..], le, tie);
      var r := Insert(x, s[1..], le);
      InsertPermutes(x, s[1..], le);
      MultisetMembers(r, [x] + s[1..]);
      forall j | 0 <= j < |r| ensures le(s[0], r[j]) && (le(r[j], s[0]) ==> tie(s[0], r[j])) {
        HeadBefore(x, s, le, tie, r[j]);
      }
    }
  }

  /** Sorting what is in the order of `tie` leaves equals in that order. */
  lemma {:induction false} SortIsStable<T(!new)>(s: seq<T>, le: (T, T) -> bool, tie: (T, T) -> bool)
    requires TotalPreorder(le) && SortedBy(s, tie)
    ensures StablySortedBy(SortBy(s, le), le, tie)
  {
    if s != [] {
      SortIsStable(s[1..], le, tie);
      var t := SortBy(s[1..], le);
      SortIs(s[1..], le);
      MultisetMembers(t, s[1..]);
      forall k | 0 <= k < |t| ensures tie(s[0], t[k]) {
        var j :| 0 <= j < |s[1..]| && s[1..][j] == t[k];
        assert s[j + 1] == t[k];
      }
      InsertStable(s[0], t, le, tie);
    }
  }

  lemma MultisetMembers<T>(a: seq<T>, b: seq<T>)
    requires multiset(a) == multiset(b)
    ensures SameMembers(a, b)
  {
    forall i | 0 <= i < |a| ensures a[i] in b { assert a[i] in multiset(a); }
    forall i | 0 <= i < |b| ensures b[i] in a { assert b[i] in multiset(b); }
  }

  lemma {:induction false} DistinctCounts<T>(s: seq<T>, x: T)
    requires Distinct(s)
    ensures multiset(s)[x] <= 1
  {
    if s != [] {
      assert s == [s[0]] + s[1..];
      DistinctCounts(s[1..], x);
    }
  }

  lemma DistinctRearranged<T>(a: seq<T>, b: seq<T>)
    requires multiset(a) == multiset(b) && Distinct(a)
    ensures Distinct(b)
  {
    forall i, j | 0 <= i < j < |b| ensures b[i] != b[j] {
      DistinctCounts(a, b[i]);
      TwiceCounted(b, i, j);
    }
  }

  lemma TwiceCounted<T>(s: seq<T>, i: nat, j: nat)
    requires i < j < |s|
    ensures s[i] == s[j] ==> multiset(s)[s[i]] >= 2
  {
    assert s == s[..j] + s[j..];
    assert s[..j][i] == s[i] && s[j..][0] == s[j];
    assert s[i] in multiset(s[..j]) && s[j] in multiset(s[j..]);
  }

  lemma HeadsAgree<T>(r: seq<T>, t: seq<T>, le: (T, T) -> bool)
    requires r != [] && SortedBy(r, le) && StrictlySortedBy(t, le) && SameMembers(r, t)
    ensures t != [] && r[0] == t[0]
  {
    assert r[0] in t;
    var j :| 0 <= j < |t| && t[j] == r[0];
    assert t[0] in r;
    var i :| 0 <= i < |r| && r[i] == t[0];
    assert i > 0 ==> le(r[0], r[i]);
  }

  lemma TailMember<T>(r: seq<T>, t: seq<T>, k: nat)
    requires r != [] && t != [] && r[0] == t[0] && Distinct(r) && k < |r| - 1 && r[k + 1] in t
    ensures r[1..][k] in t[1..]
  {
    var m :| 0 <= m < |t| && t[m] == r[k + 1];
    assert t[1..][m - 1] == t[m];
  }

  lemma TailsMatch<T>(r: seq<T>, t: seq<T>)
    requires r != [] && t != [] && r[0] == t[0] && Distinct(r) && Distinct(t) && SameMembers(r, t)
    ensures SameMembers(r[1..], t[1..])
  {
    forall k | 0 <= k < |r[1..]| ensures r[1..][k] in t[1..] { TailMember(r, t, k); }
    forall k | 0 <= k < |t[1..]| ensures t[1..][k] in r[1..] { TailMember(t, r, k); }
  }

  lemma SortedTails<T>(r: seq<T>, t: seq<T>, le: (T, T) -> bool)
    requires r != [] && t != [] && SortedBy(r, le) && Distinct(r) && StrictlySortedBy(t, le)
    ensures SortedBy(r[1..], le) && Distinct(r[1..]) && StrictlySortedBy(t[1..], le)
  {
  }

  lemma StrictIsDistinct<T>(t: seq<T>, le: (T, T) -> bool)
    requires StrictlySortedBy(t, le)
    ensures Distinct(t)
  {
  }

  /** There is one strictly ordered arrangement of the same distinct elements. */
  lemma {:induction false} OneArrangement<T>(r: seq<T>, t: seq<T>, le: (T, T) -> bool)
    requires SortedBy(r, le) && Distinct(r) && StrictlySortedBy(t, le) && SameMembers(r, t)
    ensures r == t
    decreases |r|
  {
    if r == [] {
      assert t == [];
    } else {
      HeadsAgree(r, t, le);
      StrictIsDistinct(t, le);
      TailsMatch(r, t);
      SortedTails(r, t, le);
      OneArrangement(r[1..], t[1..], le);
      assert r == [r[0]] + r[1..] && t == [t[0]] + t[1..];
    }
  }

  ghost predicate Antisymmetric<T(!new)>(le: (T, T) -> bool) { forall a, b :: le(a, b) && le(b, a) ==> a == b }

  lemma TailsAgree<T>(r: seq<T>, t: seq<T>)
    requires r != [] && t != [] && r[0] == t[0] && multiset(r) == multiset(t)
    ensures multiset(r[1..]) == multiset(t[1..])
  {
    assert r == [r[0]] + r[1..] && t == [t[0]] + t[1..];
    assert multiset(r[1..]) == multiset(r) - multiset{r[0]};
    assert multiset(t[1..]) == multiset(t) - multiset{t[0]};
  }

  lemma SameLength<T>(r: seq<T>, t: seq<T>)
    requires multiset(r) == multiset(t)
    ensures |r| == |t|
  {
    assert |multiset(r)| == |r| && |multiset(t)| == |t|;
  }

  /** If equal in rank means equal, there is one sorted arrangement, repetitions and all. */
  lemma {:induction false} SortedOneWay<T(!new)>(r: seq<T>, t: seq<T>, le: (T, T) -> bool)
    requires Antisymmetric(le) && SortedBy(r, le) && SortedBy(t, le) && multiset(r) == multiset(t)
    ensures r == t
    decreases |r|
  {
    SameLength(r, t);
    if r != [] {
      SameHead(r, t, le);
      TailsAgree(r, t);
      SortedOneWay(r[1..], t[1..], le);
      assert r == [r[0]] + r[1..] && t == [t[0]] + t[1..];
    }
  }

  lemma SameHead<T(!new)>(r: seq<T>, t: seq<T>, le: (T, T) -> bool)
    requires Antisymmetric(le) && SortedBy(r, le) && SortedBy(t, le) && multiset(r) == multiset(t) && r != [] && t != []
    ensures r[0] == t[0]
  {
    assert r[0] in multiset(t) && t[0] in multiset(r);
    var j :| 0 <= j < |t| && t[j] == r[0];
    var i :| 0 <= i < |r| && r[i] == t[0];
    assert i == 0 || le(r[0], r[i]);
    assert j == 0 || le(t[0], t[j]);
  }
}
