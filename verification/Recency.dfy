/** Least-recently-used order, as a function of the trace of uses. The bounded caches of the engine
    registry and of the hash shard resolver are both measured against it. */
module Recency {

  function Without<K(==)>(s: seq<K>, k: K): seq<K> {
    if s == [] then []
    else if s[0] == k then Without(s[1..], k)
    else [s[0]] + Without(s[1..], k)
  }

  /** The distinct keys of the trace, least recently used first. */
  function Order<K(==)>(trace: seq<K>): seq<K> {
    if trace == [] then []
    else var k := trace[|trace| - 1]; Without(Order(trace[..|trace| - 1]), k) + [k]
  }

  function LastN<K>(s: seq<K>, n: nat): seq<K> {
    if |s| <= n then s else s[|s| - n..]
  }

  /** The `n` most recently used distinct keys. */
  function Recent<K(==)>(trace: seq<K>, n: nat): seq<K> {
    LastN(Order(trace), n)
  }

  /** What the trace uses after its last use of `k`. */
  function Since<K(==)>(trace: seq<K>, k: K): seq<K>
    requires k in trace
  {
    var n := |trace| - 1;
    if trace[n] == k then [] else Since(trace[..n], k) + [trace[n]]
  }

  predicate Distinct<K(==)>(s: seq<K>) {
    forall i, j :: 0 <= i < j < |s| ==> s[i] != s[j]
  }

  function Keys<K>(s: seq<K>): set<K> {
    set k | k in s
  }

  lemma KeysConcat<K>(s: seq<K>, t: seq<K>)
    ensures Keys(s + t) == Keys(s) + Keys(t)
  {
    forall k ensures k in s + t <==> k in s || k in t {}
  }

  lemma {:induction false} WithoutKeys<K>(s: seq<K>, k: K)
    ensures Keys(Without(s, k)) == Keys(s) - {k}
    ensures Distinct(s) ==> Distinct(Without(s, k))
    ensures |Without(s, k)| <= |s|
  {
    if s != [] {
      var t := Without(s[1..], k);
      WithoutKeys(s[1..], k);
      assert s == [s[0]] + s[1..];
      KeysConcat([s[0]], s[1..]);
      KeysConcat([s[0]], t);
      if s[0] != k && Distinct(s) {
        forall j | 0 <= j < |t| ensures t[j] != s[0] {
          assert t[j] in Keys(t) && t[j] in Keys(s[1..]);
        }
      }
    }
  }

  lemma {:induction false} WithoutAbsent<K>(s: seq<K>, k: K)
    requires k !in s
    ensures Without(s, k) == s
  {
    if s != [] {
      WithoutAbsent(s[1..], k);
    }
  }

  lemma {:induction false} WithoutSplits<K>(s: seq<K>, t: seq<K>, k: K)
    ensures Without(s + t, k) == Without(s, k) + Without(t, k)
  {
    if s == [] {
      assert s + t == t;
    } else {
      assert (s + t)[0] == s[0] && (s + t)[1..] == s[1..] + t;
      WithoutSplits(s[1..], t, k);
    }
  }

  lemma {:induction false} OrderKeys<K>(trace: seq<K>)
    ensures Distinct(Order(trace)) && Keys(Order(trace)) == Keys(trace)
  {
    if trace != [] {
      var n := |trace| - 1;
      var front, k := trace[..n], trace[n];
      OrderKeys(front);
      WithoutKeys(Order(front), k);
      assert trace == front + [k];
      KeysConcat(front, [k]);
      KeysConcat(Without(Order(front), k), [k]);
      assert k !in Keys(Without(Order(front), k));
    }
  }

  lemma {:induction false} DistinctCount<K>(s: seq<K>)
    requires Distinct(s)
    ensures |Keys(s)| == |s|
  {
    if s != [] {
      var n := |s| - 1;
      DistinctCount(s[..n]);
      assert s == s[..n] + [s[n]];
      assert Keys(s) == Keys(s[..n]) + {s[n]};
      assert s[n] !in Keys(s[..n]);
    }
  }

  /** Behind its last use, a key is followed in the order by exactly the keys used since. */
  lemma {:induction false} FollowedBySince<K>(trace: seq<K>, k: K) returns (i: nat)
    requires k in trace
    ensures i < |Order(trace)| && Order(trace)[i] == k
    ensures Keys(Order(trace)[i + 1..]) == Keys(Since(trace, k))
  {
    var n := |trace| - 1;
    var front, x := trace[..n], trace[n];
    var older := Without(Order(front), x);
    if x == k {
      i := |older|;
      assert Order(trace)[i + 1..] == [];
    } else {
      assert trace == front + [x];
      var j := FollowedBySince(front, k);
      var before, after := Order(front)[..j], Order(front)[j + 1..];
      assert Order(front) == before + [k] + after;
      WithoutSplits(before + [k], after, x);
      WithoutSplits(before, [k], x);
      assert Without([k], x) == [k];
      WithoutKeys(after, x);
      i := |Without(before, x)|;
      assert Order(trace)[i + 1..] == Without(after, x) + [x];
      KeysConcat(Without(after, x), [x]);
      KeysConcat(Since(front, k), [x]);
    }
  }

  /** A key is among the `n` most recent exactly when fewer than `n` other keys were used since its
      last use. */
  lemma RecentIff<K>(trace: seq<K>, k: K, n: nat)
    requires k in trace
    ensures k in Recent(trace, n) <==> |Keys(Since(trace, k))| < n
  {
    var i := FollowedBySince(trace, k);
    var order := Order(trace);
    OrderKeys(trace);
    DistinctCount(order[i + 1..]);
    if |order| <= n {
      assert order[i] == k;
    } else if i >= |order| - n {
      assert order[|order| - n..][i - (|order| - n)] == k;
    }
  }

  /** Inclusion: with the same trace, a larger cache holds everything a smaller one does. */
  lemma LargerHoldsMore<K>(trace: seq<K>, n: nat, m: nat)
    requires n <= m
    ensures Keys(Recent(trace, n)) <= Keys(Recent(trace, m))
  {
    forall k | k in Recent(trace, n) ensures k in Recent(trace, m) {
      var order := Order(trace);
      var j :| 0 <= j < |Recent(trace, n)| && Recent(trace, n)[j] == k;
      assert order[|order| - |Recent(trace, n)| + j] == k;
      if |order| > m {
        assert order[|order| - m..][m - |Recent(trace, n)| + j] == k;
      }
    }
  }

  lemma LastNIsTail<K>(front: seq<K>, tail: seq<K>, n: nat)
    requires |tail| == n || (front == [] && |tail| <= n)
    ensures LastN(front + tail, n) == tail
  {}

  /** `kept` is the last part of `dropped + kept` that fits in `n`. */
  predicate Fills<K>(dropped: seq<K>, kept: seq<K>, n: nat) {
    |kept| == n || (dropped == [] && |kept| <= n)
  }

  lemma UseKept<K>(dropped: seq<K>, kept: seq<K>, k: K, n: nat)
    requires Distinct(dropped + kept) && Fills(dropped, kept, n) && k in kept
    ensures LastN(Without(dropped + kept, k) + [k], n) == Without(kept, k) + [k]
  {
    WithoutSplits(dropped, kept, k);
    KeptKeyNotDropped(dropped, kept, k);
    LastNIsTail(dropped, Without(kept, k) + [k], n);
    assert dropped + Without(kept, k) + [k] == dropped + (Without(kept, k) + [k]);
  }

  lemma UseNew<K>(dropped: seq<K>, kept: seq<K>, k: K, n: nat)
    requires n >= 1 && Fills(dropped, kept, n) && k !in kept
    ensures LastN(Without(dropped + kept, k) + [k], n)
            == if |kept| < n then kept + [k] else kept[1..] + [k]
  {
    WithoutSplits(dropped, kept, k);
    WithoutAbsent(kept, k);
    var older := Without(dropped, k);
    if |kept| == n {
      assert older + kept + [k] == (older + [kept[0]]) + (kept[1..] + [k]);
      LastNIsTail(older + [kept[0]], kept[1..] + [k], n);
    } else {
      assert older + kept + [k] == kept + [k];
    }
  }

  /** One more use: the new key goes last, and the oldest one falls out if there is no room. */
  lemma RecentAfterUse<K>(trace: seq<K>, k: K, n: nat)
    requires n >= 1
    ensures var kept := Recent(trace, n);
            Recent(trace + [k], n)
            == if k in kept then Without(kept, k) + [k]
               else if |kept| < n then kept + [k]
               else kept[1..] + [k]
  {
    var order, kept := Order(trace), Recent(trace, n);
    var dropped := order[..|order| - |kept|];
    OrderKeys(trace);
    assert order == dropped + kept;
    assert (trace + [k])[..|trace|] == trace;
    assert Order(trace + [k]) == Without(dropped + kept, k) + [k];
    if k in kept {
      UseKept(dropped, kept, k, n);
    } else {
      UseNew(dropped, kept, k, n);
    }
  }

  /** With room for one more, nothing falls out. */
  lemma RecentGrows<K>(trace: seq<K>, k: K, n: nat)
    requires |Recent(trace, n)| == n && k !in Recent(trace, n)
    ensures Recent(trace + [k], n + 1) == Recent(trace, n) + [k]
  {
    var order, kept := Order(trace), Recent(trace, n);
    var dropped := order[..|order| - n];
    assert order == dropped + kept;
    assert (trace + [k])[..|trace|] == trace;
    WithoutSplits(dropped, kept, k);
    WithoutAbsent(kept, k);
    assert Without(dropped, k) + kept + [k] == Without(dropped, k) + (kept + [k]);
    LastNIsTail(Without(dropped, k), kept + [k], n + 1);
  }

  lemma RecentShrinks<K>(trace: seq<K>, n: nat)
    requires n >= 1 && |Recent(trace, n)| == n
    ensures Recent(trace, n - 1) == Recent(trace, n)[1..]
  {}

  lemma TailKeys<K>(s: seq<K>)
    requires Distinct(s) && s != []
    ensures Keys(s[1..]) == Keys(s) - {s[0]} && Distinct(s[1..])
  {
    var tail := s[1..];
    assert s == [s[0]] + tail;
    KeysConcat([s[0]], tail);
    forall i | 0 <= i < |tail| ensures tail[i] != s[0] {
      assert tail[i] == s[i + 1];
    }
  }

  /** The keys of an order after one more use, in each of the three ways. */
  lemma UsedKeys<K>(order: seq<K>, k: K)
    requires Distinct(order)
    ensures k in order ==> Keys(Without(order, k) + [k]) == Keys(order) + {k}
    ensures Keys(order + [k]) == Keys(order) + {k}
    ensures order != [] ==> Keys(order[1..] + [k]) == Keys(order) - {order[0]} + {k}
  {
    WithoutKeys(order, k);
    KeysConcat(Without(order, k), [k]);
    KeysConcat(order, [k]);
    if order != [] {
      TailKeys(order);
      KeysConcat(order[1..], [k]);
    }
  }

  lemma SameByCount<K>(trace: seq<K>, n: nat, m: nat)
    ensures Keys(Recent(trace, n)) == Keys(Recent(trace, m)) <==> |Recent(trace, n)| == |Recent(trace, m)|
  {
    RecentIsDistinct(trace, n);
    RecentIsDistinct(trace, m);
    DistinctCount(Recent(trace, n));
    DistinctCount(Recent(trace, m));
    assert |Recent(trace, n)| == |Recent(trace, m)| ==> Recent(trace, n) == Recent(trace, m);
  }

  lemma OrderGrows<K>(trace: seq<K>, k: K)
    ensures |Order(trace + [k])| == |Order(trace)| + if k in Order(trace) then 0 else 1
  {
    OrderKeys(trace);
    assert (trace + [k])[..|trace|] == trace;
    if k in Order(trace) {
      OneOccurrence(Order(trace), k);
    } else {
      WithoutAbsent(Order(trace), k);
    }
  }

  lemma KeptKeyNotDropped<K>(dropped: seq<K>, kept: seq<K>, k: K)
    requires Distinct(dropped + kept) && k in kept
    ensures Without(dropped, k) == dropped && |Without(kept, k)| == |kept| - 1
  {
    var j :| 0 <= j < |kept| && kept[j] == k;
    assert (dropped + kept)[|dropped| + j] == k;
    forall i | 0 <= i < |dropped| ensures dropped[i] != k {
      assert (dropped + kept)[i] == dropped[i];
    }
    WithoutAbsent(dropped, k);
    assert kept == (dropped + kept)[|dropped|..];
    OneOccurrence(kept, k);
  }

  lemma {:induction false} OneOccurrence<K>(s: seq<K>, k: K)
    requires Distinct(s) && k in s
    ensures |Without(s, k)| == |s| - 1
  {
    if s[0] == k {
      assert forall j :: 0 <= j < |s[1..]| ==> s[1..][j] != k;
      WithoutAbsent(s[1..], k);
    } else {
      OneOccurrence(s[1..], k);
    }
  }

  lemma RecentIsDistinct<K>(trace: seq<K>, n: nat)
    ensures Distinct(Recent(trace, n)) && |Recent(trace, n)| <= n
    ensures Keys(Recent(trace, n)) <= Keys(trace)
  {
    OrderKeys(trace);
    forall k | k in Recent(trace, n) ensures k in Keys(trace) {
      assert k in Order(trace) && k in Keys(Order(trace));
    }
  }

  /** Removing a key from a list of distinct keys cuts out one position. */
  lemma {:induction false} WithoutIsCut<K>(s: seq<K>, k: K) returns (i: nat)
    requires Distinct(s) && k in s
    ensures i < |s| && s[i] == k && Without(s, k) == s[..i] + s[i + 1..]
  {
    if s[0] == k {
      i := 0;
      assert forall j :: 0 <= j < |s[1..]| ==> s[1..][j] != k;
      WithoutAbsent(s[1..], k);
    } else {
      var j := WithoutIsCut(s[1..], k);
      i := j + 1;
      assert s[..i] == [s[0]] + s[1..][..j] && s[1..][j + 1..] == s[i + 1..];
    }
  }
}
