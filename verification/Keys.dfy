/** Sequences of sketch keys: sorting, counting, runs of equal keys (quantile/store.go:187-205). */
module Keys {

  ghost predicate Ascending(s: seq<int>) {
    |s| <= 1 || (s[0] <= s[1] && Ascending(s[1..]))
  }

  /** How many keys are <= x. */
  ghost function CountLE(s: seq<int>, x: int): nat {
    if s == [] then 0 else (if s[0] <= x then 1 else 0) + CountLE(s[1..], x)
  }

  lemma {:induction false} CountLEConcat(a: seq<int>, b: seq<int>, x: int)
    ensures CountLE(a + b, x) == CountLE(a, x) + CountLE(b, x)
  {
    if a == [] {
      assert a + b == b;
    } else {
      assert (a + b)[1..] == a[1..] + b;
      CountLEConcat(a[1..], b, x);
    }
  }

  function InsertSorted(s: seq<int>, k: int): seq<int> {
    if s == [] || k <= s[0] then [k] + s else [s[0]] + InsertSorted(s[1..], k)
  }

  /** The order sort.Slice leaves the keys in; it is unique, the keys being integers. */
  function SortKeys(s: seq<int>): seq<int> {
    if s == [] then [] else InsertSorted(SortKeys(s[1..]), s[0])
  }

  lemma {:induction false} InsertSortedHolds(s: seq<int>, k: int, x: int)
    requires Ascending(s)
    ensures Ascending(InsertSorted(s, k))
    ensures |InsertSorted(s, k)| == |s| + 1
    ensures CountLE(InsertSorted(s, k), x) == CountLE(s, x) + (if k <= x then 1 else 0)
  {
    if s == [] || k <= s[0] {
      assert ([k] + s)[1..] == s;
    } else {
      InsertSortedHolds(s[1..], k, x);
      assert ([s[0]] + InsertSorted(s[1..], k))[1..] == InsertSorted(s[1..], k);
    }
  }

  lemma {:induction false} SortKeysHolds(s: seq<int>, x: int)
    ensures Ascending(SortKeys(s))
    ensures |SortKeys(s)| == |s|
    ensures CountLE(SortKeys(s), x) == CountLE(s, x)
  {
    if s != [] {
      SortKeysHolds(s[1..], x);
      InsertSortedHolds(SortKeys(s[1..]), s[0], x);
    }
  }

  lemma {:induction false} CountLEMonotone(s: seq<int>, x: int, y: int)
    requires x <= y
    ensures CountLE(s, x) <= CountLE(s, y) <= |s|
  {
    if s != [] {
      CountLEMonotone(s[1..], x, y);
    }
  }

  function Without(s: seq<int>, i: nat): seq<int>
    requires i < |s|
  {
    s[..i] + s[i + 1..]
  }

  lemma CountLEWithout(s: seq<int>, i: nat, x: int)
    requires i < |s|
    ensures CountLE(s, x) == CountLE(Without(s, i), x) + (if s[i] <= x then 1 else 0)
  {
    assert s == s[..i] + s[i..] && s[i..][1..] == s[i + 1..];
    CountLEConcat(s[..i], s[i..], x);
    CountLEConcat(s[..i], s[i + 1..], x);
  }

  lemma WithoutMultiset(s: seq<int>, i: nat)
    requires i < |s|
    ensures multiset(Without(s, i)) == multiset(s) - multiset{s[i]}
  {
    assert s == s[..i] + ([s[i]] + s[i + 1..]);
  }

  /** Counts depend only on the multiset of keys. */
  lemma {:induction false} CountLEMultiset(a: seq<int>, b: seq<int>, x: int)
    requires multiset(a) == multiset(b)
    ensures CountLE(a, x) == CountLE(b, x)
  {
    if a == [] {
      assert |b| == |multiset(b)| == 0;
    } else {
      assert a[0] in multiset(b);
      var i :| 0 <= i < |b| && b[i] == a[0];
      WithoutMultiset(a, 0);
      WithoutMultiset(b, i);
      assert Without(a, 0) == a[1..];
      CountLEMultiset(a[1..], Without(b, i), x);
      CountLEWithout(b, i, x);
    }
  }

  lemma {:induction false} AscendingHead(s: seq<int>, r: int)
    requires Ascending(s) && 0 <= r < |s|
    ensures s[0] <= s[r] && CountLE(s, s[0] - 1) == 0
  {
    if r > 0 {
      AscendingHead(s[1..], r - 1);
      CountLEMonotone(s[1..], s[0] - 1, s[1] - 1);
    } else if |s| > 1 {
      AscendingHead(s[1..], 0);
      CountLEMonotone(s[1..], s[0] - 1, s[1] - 1);
    }
  }

  /** In an ascending list the counts locate every position. */
  lemma {:induction false} RankLocates(s: seq<int>, r: int)
    requires Ascending(s) && 0 <= r < |s|
    ensures CountLE(s, s[r] - 1) <= r < CountLE(s, s[r])
  {
    AscendingHead(s, r);
    if r > 0 {
      RankLocates(s[1..], r - 1);
    }
  }

  /** Length of the run of equal keys at the front. */
  ghost function LeadingEqual(s: seq<int>): (n: nat)
    requires s != []
    ensures 1 <= n <= |s|
  {
    if |s| == 1 || s[1] != s[0] then 1 else 1 + LeadingEqual(s[1..])
  }

  lemma {:induction false} LeadingEqualHolds(s: seq<int>, x: int)
    requires s != []
    ensures forall i :: 0 <= i < LeadingEqual(s) ==> s[i] == s[0]
    ensures LeadingEqual(s) < |s| ==> s[LeadingEqual(s)] != s[0]
    ensures CountLE(s, x) == (if s[0] <= x then LeadingEqual(s) else 0) + CountLE(s[LeadingEqual(s)..], x)
  {
    if |s| > 1 && s[1] == s[0] {
      LeadingEqualHolds(s[1..], x);
      var n := LeadingEqual(s[1..]);
      assert s[1..][n..] == s[n + 1..];
      assert forall i :: 0 <= i < |s| - 1 ==> s[1..][i] == s[i + 1];
    }
  }

  /** Behind the leading run of a sorted batch only greater keys follow. */
  lemma {:induction false} LeadingEqualAscending(s: seq<int>)
    requires s != [] && Ascending(s)
    ensures Ascending(s[LeadingEqual(s)..])
    ensures LeadingEqual(s) < |s| ==> s[0] < s[LeadingEqual(s)]
  {
    if |s| > 1 {
      assert s[1..][LeadingEqual(s[1..])..] == s[1 + LeadingEqual(s[1..])..];
      if s[1] == s[0] {
        LeadingEqualAscending(s[1..]);
      }
    }
  }

  method BufCountLeadingEqual(a: seq<int>, start: nat) returns (r: nat)
    requires start < |a|
    ensures r == LeadingEqual(a[start..])
  {
    if start == |a| - 1 {
      return 1;
    }
    var i := start;
    while i < |a| && a[i] == a[start]
      invariant start <= i <= |a|
      invariant forall j :: start <= j < i ==> a[j] == a[start]
    {
      i := i + 1;
    }
    r := i - start;
    LeadingEqualIs(a[start..], r);
  }

  lemma LeadingEqualIs(s: seq<int>, r: nat)
    requires s != [] && 1 <= r <= |s|
    requires forall i :: 0 <= i < r ==> s[i] == s[0]
    requires r < |s| ==> s[r] != s[0]
    ensures r == LeadingEqual(s)
  {
    LeadingEqualHolds(s, 0);
  }
}
