/** Sorting by a pair of strings, and the uniqueness of a sorted arrangement. */
module Sorting {
  predicate StringLe(a: string, b: string) {
    a == "" || (b != "" && (a[0] < b[0] || (a[0] == b[0] && StringLe(a[1..], b[1..]))))
  }

  /** The texts agree before this place, and there the first has the smaller character. */
  predicate SmallerAt(a: string, b: string, i: nat) {
    i < |a| && i < |b| && a[..i] == b[..i] && a[i] < b[i]
  }

  lemma SmallerLater(a: string, b: string, i: nat)
    requires a != "" && b != ""
    ensures SmallerAt(a, b, i + 1) <==> a[0] == b[0] && SmallerAt(a[1..], b[1..], i)
    ensures SmallerAt(a, b, 0) <==> a[0] < b[0]
  {
    if i + 1 < |a| && i + 1 < |b| {
      assert a[..i + 1] == [a[0]] + a[1..][..i] && b[..i + 1] == [b[0]] + b[1..][..i];
      assert a[..i + 1][0] == a[0] && b[..i + 1][0] == b[0];
      assert a[..i + 1][1..] == a[1..][..i] && b[..i + 1][1..] == b[1..][..i];
    }
  }

  /** The order of a dictionary: a prefix comes first, else the first difference counts. */
  lemma {:induction false} StringLeMeans(a: string, b: string)
    ensures StringLe(a, b) <==> a <= b || exists i: nat :: SmallerAt(a, b, i)
  {
    if a != "" && b != "" {
      StringLeMeans(a[1..], b[1..]);
      SmallerLater(a, b, 0);
      if i: nat :| SmallerAt(a[1..], b[1..], i) {
        SmallerLater(a, b, i);
      }
      if i: nat :| SmallerAt(a, b, i) && i > 0 {
        SmallerLater(a, b, i - 1);
      }
      assert a <= b <==> a[0] == b[0] && a[1..] <= b[1..];
    }
  }

  lemma {:induction false} StringLeTotal(a: string, b: string)
    ensures StringLe(a, b) || StringLe(b, a)
  {
    if a != "" && b != "" {
      StringLeTotal(a[1..], b[1..]);
    }
  }

  lemma {:induction false} StringLeAntisymmetric(a: string, b: string)
    requires StringLe(a, b) && StringLe(b, a)
    ensures a == b
  {
    if a != "" && b != "" {
      StringLeAntisymmetric(a[1..], b[1..]);
      assert a == [a[0]] + a[1..] && b == [b[0]] + b[1..];
    }
  }

  lemma {:induction false} StringLeTransitive(a: string, b: string, c: string)
    requires StringLe(a, b) && StringLe(b, c)
    ensures StringLe(a, c)
  {
    if a != "" && b != "" && c != "" && a[0] == b[0] == c[0] {
      StringLeTransitive(a[1..], b[1..], c[1..]);
    }
  }

  /** The comparator of the source: by the key, ties by the second string. */
  datatype Rank = Rank(key: string, stable: string)

  predicate RankLe(a: Rank, b: Rank) {
    if a.key == b.key then StringLe(a.stable, b.stable) else StringLe(a.key, b.key)
  }

  lemma RankLeTotal(a: Rank, b: Rank)
    ensures RankLe(a, b) || RankLe(b, a)
  {
    StringLeTotal(a.key, b.key);
    StringLeTotal(a.stable, b.stable);
  }

  lemma RankLeAntisymmetric(a: Rank, b: Rank)
    requires RankLe(a, b) && RankLe(b, a)
    ensures a == b
  {
    if a.key == b.key {
      StringLeAntisymmetric(a.stable, b.stable);
    } else {
      StringLeAntisymmetric(a.key, b.key);
    }
  }

  lemma RankLeTransitive(a: Rank, b: Rank, c: Rank)
    requires RankLe(a, b) && RankLe(b, c)
    ensures RankLe(a, c)
  {
    if a.key == b.key && b.key == c.key {
      StringLeTransitive(a.stable, b.stable, c.stable);
    } else if a.key != b.key && b.key != c.key {
      StringLeTransitive(a.key, b.key, c.key);
      if a.key == c.key { StringLeAntisymmetric(a.key, b.key); }
    }
  }

  ghost predicate Sorted<T>(s: seq<T>, rank: T -> Rank) {
    forall i, j :: 0 <= i < j < |s| ==> RankLe(rank(s[i]), rank(s[j]))
  }

  function Insert<T>(x: T, s: seq<T>, rank: T -> Rank): seq<T> {
    if s == [] || RankLe(rank(x), rank(s[0])) then [x] + s else [s[0]] + Insert(x, s[1..], rank)
  }

  function Sort<T>(s: seq<T>, rank: T -> Rank): seq<T> {
    if s == [] then [] else Insert(s[0], Sort(s[1..], rank), rank)
  }

  lemma {:induction false} InsertSorts<T>(x: T, s: seq<T>, rank: T -> Rank)
    requires Sorted(s, rank)
    ensures Sorted(Insert(x, s, rank), rank)
    ensures multiset(Insert(x, s, rank)) == multiset(s) + multiset{x}
  {
    if s == [] {
    } else if RankLe(rank(x), rank(s[0])) {
      forall j | 0 <= j < |s| ensures RankLe(rank(x), rank(s[j])) {
        if j > 0 { RankLeTransitive(rank(x), rank(s[0]), rank(s[j])); }
      }
    } else {
      RankLeTotal(rank(x), rank(s[0]));
      assert s == [s[0]] + s[1..];
      InsertSorts(x, s[1..], rank);
      var t := Insert(x, s[1..], rank);
      forall j | 0 <= j < |t| ensures RankLe(rank(s[0]), rank(t[j])) {
        assert t[j] in multiset(t);
        assert t[j] == x || t[j] in s[1..];
      }
    }
  }

  lemma SameLength<T>(a: seq<T>, b: seq<T>)
    requires multiset(a) == multiset(b)
    ensures |a| == |b|
  {
    assert |multiset(a)| == |a| && |multiset(b)| == |b|;
  }

  /** Sorting yields a sorted arrangement of the same items. */
  lemma {:induction false} SortSorts<T>(s: seq<T>, rank: T -> Rank)
    ensures Sorted(Sort(s, rank), rank) && multiset(Sort(s, rank)) == multiset(s) && |Sort(s, rank)| == |s|
  {
    if s != [] {
      SortSorts(s[1..], rank);
      InsertSorts(s[0], Sort(s[1..], rank), rank);
      assert s == [s[0]] + s[1..];
    }
    SameLength(Sort(s, rank), s);
  }

  lemma SortInOrder<T>(s: seq<T>, rank: T -> Rank, i: nat, j: nat)
    requires i < j < |s|
    ensures |Sort(s, rank)| == |s| && RankLe(rank(Sort(s, rank)[i]), rank(Sort(s, rank)[j]))
  {
    SortSorts(s, rank);
  }

  /** The rank tells the items apart. */
  ghost predicate Separates<T>(rank: T -> Rank, items: seq<T>) {
    forall x, y :: x in items && y in items && rank(x) == rank(y) ==> x == y
  }

  lemma TailsAgree<T>(a: seq<T>, b: seq<T>)
    requires multiset(a) == multiset(b) && a != [] && b != [] && a[0] == b[0]
    ensures multiset(a[1..]) == multiset(b[1..])
  {
    assert a == [a[0]] + a[1..] && b == [b[0]] + b[1..];
    assert multiset(a[1..]) == multiset(a) - multiset{a[0]};
    assert multiset(b[1..]) == multiset(b) - multiset{b[0]};
  }

  lemma {:induction false} SortedUnique<T>(a: seq<T>, b: seq<T>, rank: T -> Rank)
    requires multiset(a) == multiset(b) && Sorted(a, rank) && Sorted(b, rank) && Separates(rank, a)
    ensures a == b
  {
    SameLength(a, b);
    if a != [] {
      assert a[0] in multiset(b) && b[0] in multiset(a);
      RankLeRefl(rank(a[0]));
      RankLeAntisymmetric(rank(a[0]), rank(b[0]));
      TailsAgree(a, b);
      SortedUnique(a[1..], b[1..], rank);
    }
  }

  lemma RankLeRefl(a: Rank)
    ensures RankLe(a, a)
  {
    RankLeTotal(a, a);
  }

  /** So sorting depends only on which items there are, whatever their order. */
  lemma SortOrderFree<T>(a: seq<T>, b: seq<T>, rank: T -> Rank)
    requires multiset(a) == multiset(b) && Separates(rank, a)
    ensures Sort(a, rank) == Sort(b, rank)
  {
    SortSorts(a, rank);
    SortSorts(b, rank);
    forall x | x in Sort(a, rank) ensures x in a { assert x in multiset(Sort(a, rank)); }
    SortedUnique(Sort(a, rank), Sort(b, rank), rank);
  }

  /** And a sorted sequence is left alone. */
  lemma SortSorted<T>(a: seq<T>, rank: T -> Rank)
    requires Sorted(a, rank) && Separates(rank, a)
    ensures Sort(a, rank) == a
  {
    SortSorts(a, rank);
    SortedUnique(a, Sort(a, rank), rank);
  }
}
