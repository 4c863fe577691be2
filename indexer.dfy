/**
  The instrument indexer: the known tickers, sorted once by
  `CharSequence.compare`, and a binary search that maps a ticker to its
  position in that order, or to a negative number for an unknown ticker.
*/
module InstrumentIndexer {

  /**
    `CharSequence.compare`: the difference of the first two characters that
    differ, or else the difference of the lengths.
  */
  function Compare(a: string, b: string): int
  {
    if a == [] || b == [] then |a| - |b|
    else if a[0] != b[0] then a[0] as int - b[0] as int
    else Compare(a[1..], b[1..])
  }

  /** Swapping the arguments negates the result. */
  lemma {:induction false} CompareAnti(a: string, b: string)
    ensures Compare(a, b) == -Compare(b, a)
  {
    if a != [] && b != [] && a[0] == b[0] {
      CompareAnti(a[1..], b[1..]);
    }
  }

  /** Two tickers compare as equal exactly when they are the same ticker. */
  lemma {:induction false} CompareZero(a: string, b: string)
    ensures Compare(a, b) == 0 <==> a == b
  {
    if a != [] && b != [] && a[0] == b[0] {
      CompareZero(a[1..], b[1..]);
      if a[1..] == b[1..] {
        assert a == [a[0]] + a[1..] && b == [b[0]] + b[1..];
      }
    }
  }

  /** The order is transitive. */
  lemma {:induction false} CompareTrans(a: string, b: string, c: string)
    requires Compare(a, b) < 0 && Compare(b, c) < 0
    ensures Compare(a, c) < 0
  {
    if a != [] && b != [] && c != [] && a[0] == b[0] && b[0] == c[0] {
      CompareTrans(a[1..], b[1..], c[1..]);
    }
  }

  /** Every ticker is placed no later than any ticker it does not follow. */
  predicate Sorted(s: seq<string>)
  {
    forall i, j | 0 <= i < j < |s| :: Compare(s[i], s[j]) <= 0
  }

  /** Places `x` before the first ticker it does not follow. */
  function Insert(x: string, s: seq<string>): (r: seq<string>)
    requires Sorted(s)
    ensures Sorted(r) && multiset(r) == multiset(s) + multiset{x}
  {
    if s == [] then [x]
    else if Compare(x, s[0]) <= 0 then
      InsertHead(x, s);
      [x] + s
    else
      var rest := Insert(x, s[1..]);
      assert s == [s[0]] + s[1..];
      InsertLater(x, s, rest);
      [s[0]] + rest
  }

  /** A ticker no later than the head of a sorted sequence can go in front of it. */
  lemma InsertHead(x: string, s: seq<string>)
    requires Sorted(s) && s != [] && Compare(x, s[0]) <= 0
    ensures Sorted([x] + s)
  {
    forall j | 0 < j < |s|
      ensures Compare(x, s[j]) <= 0
    {
      CompareZero(x, s[0]);
      CompareZero(s[0], s[j]);
      if Compare(x, s[0]) < 0 && Compare(s[0], s[j]) < 0 {
        CompareTrans(x, s[0], s[j]);
      }
    }
  }

  /** The head stays in front when `x` goes into the rest after it. */
  lemma InsertLater(x: string, s: seq<string>, rest: seq<string>)
    requires Sorted(s) && s != [] && Compare(x, s[0]) > 0
    requires Sorted(rest) && multiset(rest) == multiset(s[1..]) + multiset{x}
    ensures Sorted([s[0]] + rest)
  {
    CompareAnti(x, s[0]);
    forall j | 0 <= j < |rest|
      ensures Compare(s[0], rest[j]) <= 0
    {
      assert rest[j] in multiset(rest);
      if rest[j] != x {
        assert rest[j] in multiset(s[1..]);
        var k :| 0 <= k < |s[1..]| && s[1..][k] == rest[j];
        assert s[k + 1] == rest[j];
      }
    }
  }

  /** `Arrays.sort` with `CharSequence::compare`: the same tickers, sorted. */
  function Sort(xs: seq<string>): (r: seq<string>)
    ensures Sorted(r) && multiset(r) == multiset(xs)
  {
    if xs == [] then []
    else
      assert xs == [xs[0]] + xs[1..];
      Insert(xs[0], Sort(xs[1..]))
  }

  /** The indexer: the given tickers in sorted order. */
  datatype Indexer = Indexer(sorted: seq<string>)

  /** The constructor: the tickers of the collection, sorted once. */
  function NewIndexer(instruments: seq<string>): (idx: Indexer)
    ensures Sorted(idx.sorted) && multiset(idx.sorted) == multiset(instruments)
    ensures |idx.sorted| == |instruments|
  {
    var sorted := Sort(instruments);
    assert |multiset(sorted)| == |multiset(instruments)|;
    Indexer(sorted)
  }

  /**
    `Arrays.binarySearch` on `sorted[low..high]` (both ends inclusive), where
    every ticker left of `low` comes before `x` and every ticker right of
    `high` after it: a position holding `x`, or `-(p + 1)` for the place `p`
    where `x` would be inserted.
  */
  function Search(sorted: seq<string>, x: string, low: int, high: int): (r: int)
    requires Sorted(sorted) && 0 <= low <= high + 1 <= |sorted|
    requires forall i | 0 <= i < low :: Compare(sorted[i], x) < 0
    requires forall i | high < i < |sorted| :: Compare(sorted[i], x) > 0
    ensures 0 <= r ==> r < |sorted| && sorted[r] == x
    ensures r < 0 ==> InsertionPoint(sorted, x, -(r + 1))
    decreases high - low
  {
    if low > high then -(low + 1)
    else
      var mid := (low + high) / 2;
      var cmp := Compare(sorted[mid], x);
      if cmp < 0 then
        assert forall i | 0 <= i <= mid :: Compare(sorted[i], x) < 0 by {
          forall i | 0 <= i < mid
            ensures Compare(sorted[i], x) < 0
          {
            CompareZero(sorted[i], sorted[mid]);
            if Compare(sorted[i], sorted[mid]) < 0 {
              CompareTrans(sorted[i], sorted[mid], x);
            }
          }
        }
        Search(sorted, x, mid + 1, high)
      else if cmp > 0 then
        assert forall i | mid <= i < |sorted| :: Compare(sorted[i], x) > 0 by {
          forall i | mid < i < |sorted|
            ensures Compare(sorted[i], x) > 0
          {
            CompareZero(sorted[mid], sorted[i]);
            CompareAnti(sorted[mid], x);
            CompareAnti(sorted[i], x);
            if Compare(sorted[mid], sorted[i]) < 0 {
              CompareTrans(x, sorted[mid], sorted[i]);
            }
          }
        }
        Search(sorted, x, low, mid - 1)
      else
        CompareZero(sorted[mid], x);
        mid
  }

  /** `p` is where `x` belongs: everything before it comes before `x`, everything from it on after `x`. */
  predicate InsertionPoint(sorted: seq<string>, x: string, p: int)
  {
    && 0 <= p <= |sorted|
    && (forall i | 0 <= i < p :: Compare(sorted[i], x) < 0)
    && (forall i | p <= i < |sorted| :: Compare(sorted[i], x) > 0)
  }

  /** `defineIndex`: the binary search over the whole sorted array. */
  function DefineIndex(idx: Indexer, x: string): (r: int)
    requires Sorted(idx.sorted)
  {
    Search(idx.sorted, x, 0, |idx.sorted| - 1)
  }

  /**
    The index is non-negative exactly for a known ticker, and then names
    that ticker; an unknown ticker gets `-(p + 1)` for its insertion point `p`.
  */
  lemma DefineIndexMeaning(idx: Indexer, x: string)
    requires Sorted(idx.sorted)
    ensures 0 <= DefineIndex(idx, x) <==> x in idx.sorted
    ensures 0 <= DefineIndex(idx, x) ==> DefineIndex(idx, x) < |idx.sorted| && idx.sorted[DefineIndex(idx, x)] == x
    ensures DefineIndex(idx, x) < 0 ==> InsertionPoint(idx.sorted, x, -(DefineIndex(idx, x) + 1))
  {
    if DefineIndex(idx, x) < 0 {
      forall i | 0 <= i < |idx.sorted|
        ensures idx.sorted[i] != x
      {
        CompareZero(idx.sorted[i], x);
      }
    }
  }

  /** Known tickers are indexed in their sorted order. */
  lemma IndexesFollowOrder(idx: Indexer, a: string, b: string)
    requires Sorted(idx.sorted) && a in idx.sorted && b in idx.sorted && Compare(a, b) < 0
    ensures 0 <= DefineIndex(idx, a) < DefineIndex(idx, b) < |idx.sorted|
  {
    DefineIndexMeaning(idx, a);
    DefineIndexMeaning(idx, b);
    CompareZero(a, b);
    CompareAnti(a, b);
  }

  /** AMZN and MSFT, sorted, stay in that order. */
  lemma TwoSorted()
    ensures Sort(["AMZN", "MSFT"]) == ["AMZN", "MSFT"]
  {
    var amzn, msft := "AMZN", "MSFT";
    assert [amzn, msft][1..] == [msft];
    assert [msft][1..] == [];
    assert Sort([msft]) == [msft];
    assert Compare(amzn, msft) < 0;
    assert Insert(amzn, [msft]) == [amzn, msft];
  }

  /** The indexer built from AAPL, AMZN and MSFT holds them in that order. */
  lemma ThreeSorted()
    ensures NewIndexer(["AAPL", "AMZN", "MSFT"]).sorted == ["AAPL", "AMZN", "MSFT"]
  {
    var aapl, amzn, msft := "AAPL", "AMZN", "MSFT";
    TwoSorted();
    assert [aapl, amzn, msft][1..] == [amzn, msft];
    assert Compare(aapl, amzn) < 0 by {
      assert aapl[1..] == "APL" && amzn[1..] == "MZN";
    }
    assert Insert(aapl, [amzn, msft]) == [aapl, amzn, msft];
  }

  /** ... which gives them the indexes 0, 1 and 2 and rejects DNKN. */
  lemma ThreeTickers()
    ensures var idx := NewIndexer(["AAPL", "AMZN", "MSFT"]);
      && DefineIndex(idx, "AAPL") == 0 && DefineIndex(idx, "AMZN") == 1
      && DefineIndex(idx, "MSFT") == 2 && DefineIndex(idx, "DNKN") < 0
  {
    ThreeSorted();
    var idx := NewIndexer(["AAPL", "AMZN", "MSFT"]);
    var s := idx.sorted;
    assert s[0] == "AAPL" && s[1] == "AMZN" && s[2] == "MSFT" && |s| == 3;
    KnownAt(idx, "AAPL", 0);
    KnownAt(idx, "AMZN", 1);
    KnownAt(idx, "MSFT", 2);
    var dnkn := "DNKN";
    forall j | 0 <= j < |s|
      ensures s[j] != dnkn
    {
      assert s[j][0] != dnkn[0] by {
        assert j == 0 || j == 1 || j == 2;
      }
    }
    Unknown(idx, dnkn);
  }

  /** A ticker held nowhere gets a negative index. */
  lemma Unknown(idx: Indexer, x: string)
    requires Sorted(idx.sorted) && forall j | 0 <= j < |idx.sorted| :: idx.sorted[j] != x
    ensures DefineIndex(idx, x) < 0
  {
    DefineIndexMeaning(idx, x);
  }

  /** A ticker held only at position `i` is indexed `i`. */
  lemma KnownAt(idx: Indexer, x: string, i: int)
    requires Sorted(idx.sorted) && 0 <= i < |idx.sorted| && idx.sorted[i] == x
    requires forall j | 0 <= j < |idx.sorted| && j != i :: idx.sorted[j] != x
    ensures DefineIndex(idx, x) == i
  {
    DefineIndexMeaning(idx, x);
  }
}
