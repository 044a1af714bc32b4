/**
 * The "Top IDs no encontrados" list of the merge summary: the unmatched keys with their
 * counts, sorted by count, highest first, by a stable sort (ties keep the order in which
 * the keys were first seen), and cut to the first 200.
 */
module MergeSummary {

  /** One `(key, count)` pair of the unmatched-ID counter. */
  datatype Item = Item(key: string, count: nat)

  const TopLimit: nat := 200

  predicate SortedDesc(s: seq<Item>)
  {
    forall i, j :: 0 <= i < j < |s| ==> s[i].count >= s[j].count
  }

  /** `x` placed before the first element whose count does not exceed its own. */
  function InsertDesc(x: Item, s: seq<Item>): (r: seq<Item>)
    ensures |r| == |s| + 1
    ensures multiset(r) == multiset(s) + multiset{x}
  {
    if s == [] || s[0].count <= x.count then [x] + s
    else
      assert s == [s[0]] + s[1..];
      [s[0]] + InsertDesc(x, s[1..])
  }

  /** `items.sort(key=count, reverse=True)`: Python's sort, which is stable. */
  function SortDesc(s: seq<Item>): (r: seq<Item>)
    ensures |r| == |s|
    ensures multiset(r) == multiset(s)
  {
    if s == [] then []
    else
      assert s == [s[0]] + s[1..];
      InsertDesc(s[0], SortDesc(s[1..]))
  }

  /** The elements with a given count, in order. */
  function WithCount(s: seq<Item>, c: nat): (r: seq<Item>)
    ensures |r| <= |s|
  {
    if s == [] then []
    else (if s[0].count == c then [s[0]] else []) + WithCount(s[1..], c)
  }

  lemma {:induction false} InsertDescSorted(x: Item, s: seq<Item>)
    requires SortedDesc(s)
    ensures SortedDesc(InsertDesc(x, s))
    decreases |s|
  {
    if s != [] && s[0].count > x.count {
      InsertDescSorted(x, s[1..]);
      var r := InsertDesc(x, s[1..]);
      assert r[0].count <= s[0].count;
      assert InsertDesc(x, s) == [s[0]] + r;
    }
  }

  /** The sort's result is ordered by count, highest first. */
  lemma {:induction false} SortDescSorted(s: seq<Item>)
    ensures SortedDesc(SortDesc(s))
    decreases |s|
  {
    if s != [] {
      SortDescSorted(s[1..]);
      InsertDescSorted(s[0], SortDesc(s[1..]));
    }
  }

  lemma {:induction false} InsertDescWithCount(x: Item, s: seq<Item>, c: nat)
    ensures WithCount(InsertDesc(x, s), c) == (if x.count == c then [x] else []) + WithCount(s, c)
    decreases |s|
  {
    if s == [] || s[0].count <= x.count {
      assert ([x] + s)[1..] == s;
    } else {
      InsertDescWithCount(x, s[1..], c);
      assert ([s[0]] + InsertDesc(x, s[1..]))[1..] == InsertDesc(x, s[1..]);
    }
  }

  /** Stability: the elements sharing a count keep their relative order. */
  lemma {:induction false} SortDescStable(s: seq<Item>, c: nat)
    ensures WithCount(SortDesc(s), c) == WithCount(s, c)
    decreases |s|
  {
    if s != [] {
      SortDescStable(s[1..], c);
      InsertDescWithCount(s[0], SortDesc(s[1..]), c);
    }
  }

  /** `items[:200]` of the sorted items. */
  function Top(items: seq<Item>): (r: seq<Item>)
    ensures |r| <= TopLimit
  {
    var sorted := SortDesc(items);
    if |sorted| <= TopLimit then sorted else sorted[..TopLimit]
  }

  /** Cutting a sorted sequence after `n` entries keeps it sorted and leaves out nothing larger. */
  lemma {:induction false} SortedPrefix(sorted: seq<Item>, n: nat)
    requires SortedDesc(sorted)
    requires 0 < n < |sorted|
    ensures SortedDesc(sorted[..n])
    ensures multiset(sorted) - multiset(sorted[..n]) == multiset(sorted[n..])
    ensures forall e :: e in multiset(sorted[n..]) ==> e.count <= sorted[n - 1].count
  {
    assert sorted == sorted[..n] + sorted[n..];
    assert multiset(sorted) == multiset(sorted[..n]) + multiset(sorted[n..]);
    forall e | e in multiset(sorted[n..])
      ensures e.count <= sorted[n - 1].count
    {
      var j :| 0 <= j < |sorted[n..]| && sorted[n..][j] == e;
      assert sorted[n + j] == e;
    }
  }

  /**
   * The list keeps the highest counts: it is ordered, comes from the items, holds all
   * of them when there are at most 200, and nothing left out counts more than the
   * last entry kept.
   */
  lemma {:induction false} TopKeepsHighest(items: seq<Item>)
    ensures SortedDesc(Top(items))
    ensures multiset(Top(items)) <= multiset(items)
    ensures |items| <= TopLimit ==> multiset(Top(items)) == multiset(items)
    ensures |items| > TopLimit ==> |Top(items)| == TopLimit
    ensures |items| > TopLimit ==>
      forall e :: e in multiset(items) - multiset(Top(items)) ==> e.count <= Top(items)[TopLimit - 1].count
  {
    var sorted := SortDesc(items);
    SortDescSorted(items);
    if |sorted| > TopLimit {
      SortedPrefix(sorted, TopLimit);
    }
  }
}
