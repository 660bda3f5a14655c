/**
 * Descending order by an integer rank, as the views obtain from
 * `order_by('-field')`: a sortedness predicate and insertion into a sorted
 * sequence. Ties keep no particular order, as in the database.
 */
module Ordering {

  /** An item together with the value it is ordered by. */
  datatype Ranked<T> = Ranked(rank: int, item: T)

  predicate SortedDesc<T>(s: seq<Ranked<T>>) {
    forall i, j :: 0 <= i < j < |s| ==> s[i].rank >= s[j].rank
  }

  /** Inserts `x` before the first element whose rank is not larger; the result holds exactly one more `x`. */
  function InsertDesc<T>(x: Ranked<T>, s: seq<Ranked<T>>): (r: seq<Ranked<T>>)
    ensures multiset(r) == multiset(s) + multiset{x}
    decreases |s|
  {
    if |s| == 0 then [x]
    else if x.rank >= s[0].rank then [x] + s
    else
      assert s == [s[0]] + s[1..];
      [s[0]] + InsertDesc(x, s[1..])
  }

  /** Every item of a sorted sequence ranks no higher than its first item. */
  lemma FirstIsHighest<T>(s: seq<Ranked<T>>, y: Ranked<T>)
    requires SortedDesc(s) && y in multiset(s)
    ensures y.rank <= s[0].rank
  {
    var m :| 0 <= m < |s| && s[m] == y;
  }

  /** An item that ranks at least as high as every item of a sorted sequence may go in front of it. */
  lemma ConsSorted<T>(y: Ranked<T>, s: seq<Ranked<T>>)
    requires SortedDesc(s)
    requires forall k :: 0 <= k < |s| ==> s[k].rank <= y.rank
    ensures SortedDesc([y] + s)
  {
    var r := [y] + s;
    forall i, j | 0 <= i < j < |r| ensures r[i].rank >= r[j].rank {
      assert r[j] == s[j - 1];
      if i > 0 { assert r[i] == s[i - 1]; }
    }
  }

  /** Inserting into a sorted sequence keeps it sorted. */
  lemma {:induction false} InsertDescSorted<T>(x: Ranked<T>, s: seq<Ranked<T>>)
    requires SortedDesc(s)
    ensures SortedDesc(InsertDesc(x, s))
    decreases |s|
  {
    if |s| > 0 && x.rank >= s[0].rank {
      ConsSorted(x, s);
    } else if |s| > 0 {
      var tail := s[1..];
      assert s == [s[0]] + tail;
      assert SortedDesc(tail) by {
        forall i, j | 0 <= i < j < |tail| ensures tail[i].rank >= tail[j].rank {
          assert tail[i] == s[i + 1] && tail[j] == s[j + 1];
        }
      }
      InsertDescSorted(x, tail);
      var rest := InsertDesc(x, tail);
      forall k | 0 <= k < |rest| ensures rest[k].rank <= s[0].rank {
        assert rest[k] in multiset(rest);
        if rest[k] != x {
          assert rest[k] in multiset(s);
          FirstIsHighest(s, rest[k]);
        }
      }
      ConsSorted(s[0], rest);
    }
  }

  /**
   * Orders a finite set of ranked items by descending rank, one insertion
   * per item; the result holds every item exactly once.
   */
  method SortDesc<T(==)>(items: set<Ranked<T>>) returns (r: seq<Ranked<T>>)
    ensures SortedDesc(r)
    ensures multiset(r) == multiset(items)
  {
    r := [];
    var rest := items;
    while rest != {}
      invariant rest <= items
      invariant SortedDesc(r)
      invariant multiset(r) + multiset(rest) == multiset(items)
      decreases |rest|
    {
      var x :| x in rest;
      InsertDescSorted(x, r);
      r := InsertDesc(x, r);
      assert multiset(rest - {x}) + multiset{x} == multiset(rest);
      rest := rest - {x};
    }
  }

  /** The ranked items of a set of keys, one per key, ranked by `rank`. */
  function RankedItems<K>(rank: map<K, int>, keys: set<K>): set<Ranked<K>>
    requires keys <= rank.Keys
  {
    set k | k in keys :: Ranked(rank[k], k)
  }

  /** There are as many ranked items as keys. */
  lemma {:induction false} RankedItemsCount<K>(rank: map<K, int>, keys: set<K>)
    requires keys <= rank.Keys
    ensures |RankedItems(rank, keys)| == |keys|
    decreases |keys|
  {
    if |keys| > 0 {
      var x :| x in keys;
      RankedItemsCount(rank, keys - {x});
      assert RankedItems(rank, keys) == RankedItems(rank, keys - {x}) + {Ranked(rank[x], x)};
    }
  }

  /** A sequence holding each ranked item once lists every key exactly once, with its rank. */
  lemma RankedItemsListed<K>(rank: map<K, int>, keys: set<K>, ordered: seq<Ranked<K>>)
    requires keys <= rank.Keys
    requires multiset(ordered) == multiset(RankedItems(rank, keys))
    ensures forall i :: 0 <= i < |ordered| ==> ordered[i].item in keys && ordered[i].rank == rank[ordered[i].item]
    ensures forall k :: k in keys ==> exists i :: 0 <= i < |ordered| && ordered[i].item == k
    ensures |ordered| == |keys|
  {
    forall i | 0 <= i < |ordered| ensures ordered[i].item in keys && ordered[i].rank == rank[ordered[i].item] {
      assert ordered[i] in multiset(ordered);
    }
    forall k | k in keys ensures exists i :: 0 <= i < |ordered| && ordered[i].item == k {
      assert Ranked(rank[k], k) in multiset(RankedItems(rank, keys));
      var i :| 0 <= i < |ordered| && ordered[i] == Ranked(rank[k], k);
    }
    RankedItemsCount(rank, keys);
    assert |ordered| == |multiset(ordered)|;
  }
}
