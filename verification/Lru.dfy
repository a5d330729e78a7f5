/** A cache bounded by a cap that throws out the entry with the oldest stamp keeps exactly the most
    recently used keys. */
module Lru {
  import opened Wrappers
  import Recency

  // ---- one request to a bounded cache ------------------------------------------------------

  type Stamps<!K> = map<K, real>

  predicate Oldest<K(==)>(stamps: Stamps<K>, victim: K) {
    victim in stamps && forall k :: k in stamps ==> stamps[victim] <= stamps[k]
  }

  datatype Rules = Rules(cap: Option<nat>, evicts: bool)

  /** `answered`: the entry was there, or there was room and it could be built. */
  datatype Request<K> = Request(key: K, now: real, answered: bool, victim: K)

  predicate CapReached<K>(c: Rules, stamps: Stamps<K>) {
    c.cap.Some? && |stamps| >= c.cap.value
  }

  function Filled<K>(room: Stamps<K>, r: Request<K>): Stamps<K> {
    if r.answered then room[r.key := r.now] else room
  }

  /** What a request does to the stamps. A build that fails after an eviction leaves a gap. None: it
      cannot go this way. */
  function Serve<K(==)>(c: Rules, before: Stamps<K>, r: Request<K>): Option<Stamps<K>> {
    if r.key in before then if r.answered then Some(before[r.key := r.now]) else None
    else if CapReached(c, before) && !c.evicts then if r.answered then None else Some(before)
    else if !CapReached(c, before) || before == map[] then Some(Filled(before, r))
    else if Oldest(before, r.victim) then Some(Filled(before - {r.victim}, r))
    else None
  }

  function ServeAll<K(==)>(c: Rules, before: Stamps<K>, requests: seq<Request<K>>): Option<Stamps<K>>
    decreases |requests|
  {
    if requests == [] then Some(before)
    else match Serve(c, before, requests[0])
         case Some(after) => ServeAll(c, after, requests[1..])
         case None => None
  }

  /** The clock moves on from one request to the next. */
  predicate Rising<K>(requests: seq<Request<K>>, earlier: real)
    decreases |requests|
  {
    requests == [] || (earlier < requests[0].now && Rising(requests[1..], requests[0].now))
  }

  function Answer<K>(r: Request<K>): seq<K> {
    if r.answered then [r.key] else []
  }

  /** The keys that were answered, in order. */
  function Answered<K>(requests: seq<Request<K>>): seq<K> {
    if requests == [] then [] else Answer(requests[0]) + Answered(requests[1..])
  }

  // ---- stamps and order -------------------------------------------------------------------

  /** The listed keys are cached, with stamps that rise along the list up to `now`. */
  predicate RiseAlong<K(==)>(stamps: Stamps<K>, order: seq<K>, now: real) {
    && (forall i :: 0 <= i < |order| ==> order[i] in stamps && stamps[order[i]] <= now)
    && (forall i, j :: 0 <= i < j < |order| ==> stamps[order[i]] < stamps[order[j]])
  }

  /** The cached keys are exactly the listed ones, oldest first. */
  predicate Stamped<K(==)>(stamps: Stamps<K>, order: seq<K>, now: real) {
    stamps.Keys == Recency.Keys(order) && Recency.Distinct(order) && RiseAlong(stamps, order, now)
  }

  lemma OldestIsFirst<K>(stamps: Stamps<K>, order: seq<K>, now: real, victim: K)
    requires Stamped(stamps, order, now) && Oldest(stamps, victim)
    ensures order != [] && victim == order[0]
  {
    assert victim in Recency.Keys(order);
    var i :| 0 <= i < |order| && order[i] == victim;
    assert order[0] in stamps;
  }

  lemma CutKeepsRising<K>(stamps: Stamps<K>, order: seq<K>, now: real, i: nat)
    requires RiseAlong(stamps, order, now) && i < |order|
    ensures RiseAlong(stamps, order[..i] + order[i + 1..], now)
  {
    var cut := order[..i] + order[i + 1..];
    assert forall a :: 0 <= a < |cut| ==> cut[a] == order[if a < i then a else a + 1];
  }

  /** Stamps of other keys do not matter, and the newest key may be put last. */
  lemma RestampKeepsRising<K>(stamps: Stamps<K>, after: Stamps<K>, order: seq<K>, earlier: real, key: K, now: real)
    requires RiseAlong(stamps, order, earlier) && earlier < now
    requires key in after && after[key] == now
    requires forall i :: 0 <= i < |order| ==> order[i] in after && after[order[i]] == stamps[order[i]]
    ensures RiseAlong(after, order + [key], now)
  {
    var longer := order + [key];
    assert forall i :: 0 <= i < |order| ==> longer[i] == order[i];
  }

  lemma {:induction false} StampCount<K>(stamps: Stamps<K>, order: seq<K>, now: real, key: K)
    requires Stamped(stamps, order, now)
    ensures |stamps| == |order| && (key in stamps <==> key in order)
  {
    Recency.DistinctCount(order);
    assert |stamps| == |stamps.Keys|;
    assert key in stamps <==> key in Recency.Keys(order);
  }

  lemma HitKeepsRising<K>(stamps: Stamps<K>, order: seq<K>, earlier: real, key: K, now: real)
    requires Stamped(stamps, order, earlier) && key in order && earlier < now
    ensures RiseAlong(stamps[key := now], Recency.Without(order, key) + [key], now)
  {
    var i := Recency.WithoutIsCut(order, key);
    var cut := Recency.Without(order, key);
    CutKeepsRising(stamps, order, earlier, i);
    Recency.WithoutKeys(order, key);
    forall a | 0 <= a < |cut| ensures cut[a] != key {
      assert cut[a] in Recency.Keys(cut);
    }
    RestampKeepsRising(stamps, stamps[key := now], cut, earlier, key, now);
  }

  lemma InsertedKeys<K>(stamps: Stamps<K>, order: seq<K>, key: K, now: real)
    requires stamps.Keys == Recency.Keys(order) && Recency.Distinct(order) && key !in order
    ensures stamps[key := now].Keys == Recency.Keys(order + [key]) && Recency.Distinct(order + [key])
  {
    Recency.KeysConcat(order, [key]);
    assert stamps[key := now].Keys == stamps.Keys + {key};
  }

  lemma InsertStamped<K>(stamps: Stamps<K>, order: seq<K>, earlier: real, key: K, now: real)
    requires Stamped(stamps, order, earlier) && key !in stamps && earlier < now
    ensures Stamped(stamps[key := now], order + [key], now)
  {
    StampCount(stamps, order, earlier, key);
    InsertedKeys(stamps, order, key, now);
    RestampKeepsRising(stamps, stamps[key := now], order, earlier, key, now);
  }

  lemma HitStamped<K>(stamps: Stamps<K>, order: seq<K>, earlier: real, key: K, now: real)
    requires Stamped(stamps, order, earlier) && key in order && earlier < now
    ensures Stamped(stamps[key := now], Recency.Without(order, key) + [key], now)
  {
    Recency.WithoutKeys(order, key);
    assert (stamps - {key}).Keys == stamps.Keys - {key};
    assert (stamps - {key})[key := now] == stamps[key := now];
    InsertedKeys(stamps - {key}, Recency.Without(order, key), key, now);
    HitKeepsRising(stamps, order, earlier, key, now);
  }

  lemma DropFirstStamped<K>(stamps: Stamps<K>, order: seq<K>, now: real)
    requires Stamped(stamps, order, now) && order != []
    ensures Stamped(stamps - {order[0]}, order[1..], now)
  {
    var tail, after := order[1..], stamps - {order[0]};
    Recency.TailKeys(order);
    assert after.Keys == stamps.Keys - {order[0]};
    CutKeepsRising(stamps, order, now, 0);
    assert order[..0] + tail == tail;
  }

  // ---- what one request keeps --------------------------------------------------------------

  function Size(cap: nat): nat {
    if cap == 0 then 1 else cap
  }

  predicate WithinSize<K>(c: Rules, stamps: Stamps<K>) {
    c.cap.Some? ==> |stamps| <= Size(c.cap.value)
  }

  /** The cached keys are the most recent answers, as many as there are entries. */
  predicate RecentlyAnswered<K(==)>(c: Rules, stamps: Stamps<K>, trace: seq<K>, now: real) {
    WithinSize(c, stamps) && Stamped(stamps, Recency.Recent(trace, |stamps|), now)
  }

  lemma HitKeepsRecent<K>(c: Rules, before: Stamps<K>, trace: seq<K>, earlier: real, key: K, now: real)
    requires RecentlyAnswered(c, before, trace, earlier) && key in before && earlier < now
    ensures RecentlyAnswered(c, before[key := now], trace + [key], now)
  {
    var order := Recency.Recent(trace, |before|);
    StampCount(before, order, earlier, key);
    HitStamped(before, order, earlier, key, now);
    Recency.RecentAfterUse(trace, key, |before|);
    HitCount(before, key, now);
  }

  lemma InsertKeepsRecent<K>(c: Rules, before: Stamps<K>, trace: seq<K>, earlier: real, key: K, now: real)
    requires RecentlyAnswered(c, before, trace, earlier) && key !in before && earlier < now
    requires c.cap.Some? ==> |before| < Size(c.cap.value)
    ensures RecentlyAnswered(c, before[key := now], trace + [key], now)
  {
    var order := Recency.Recent(trace, |before|);
    StampCount(before, order, earlier, key);
    InsertStamped(before, order, earlier, key, now);
    Recency.RecentGrows(trace, key, |before|);
    InsertCount(before, key, now);
  }

  lemma HitCount<K>(before: Stamps<K>, key: K, now: real)
    requires key in before
    ensures |before[key := now]| == |before|
  {
    assert before[key := now].Keys == before.Keys;
    assert |before[key := now]| == |before[key := now].Keys|;
  }

  lemma InsertCount<K>(before: Stamps<K>, key: K, now: real)
    requires key !in before
    ensures |before[key := now]| == |before| + 1
  {
    assert before[key := now].Keys == before.Keys + {key};
    assert |before[key := now]| == |before[key := now].Keys|;
  }

  lemma EvictCount<K>(before: Stamps<K>, victim: K)
    requires victim in before
    ensures |before - {victim}| == |before| - 1
  {
    assert (before - {victim}).Keys == before.Keys - {victim};
    assert |before - {victim}| == |(before - {victim}).Keys|;
  }

  /** Leaving out the oldest entry. */
  lemma EvictKeepsRecent<K>(c: Rules, before: Stamps<K>, trace: seq<K>, earlier: real, victim: K)
    requires RecentlyAnswered(c, before, trace, earlier) && Oldest(before, victim)
    ensures |before - {victim}| == |before| - 1
    ensures RecentlyAnswered(c, before - {victim}, trace, earlier)
  {
    var order := Recency.Recent(trace, |before|);
    OldestIsFirst(before, order, earlier, victim);
    StampCount(before, order, earlier, victim);
    EvictCount(before, victim);
    DropFirstStamped(before, order, earlier);
    Recency.RecentShrinks(trace, |before|);
  }

  lemma RequestKeepsRecent<K>(c: Rules, before: Stamps<K>, trace: seq<K>, earlier: real, r: Request<K>)
    requires RecentlyAnswered(c, before, trace, earlier) && earlier < r.now && Serve(c, before, r).Some?
    ensures RecentlyAnswered(c, Serve(c, before, r).value, trace + Answer(r), r.now)
  {
    var kept := before;
    if r.key in before {
      HitKeepsRecent(c, before, trace, earlier, r.key, r.now);
    } else if !(CapReached(c, before) && !c.evicts) {
      if CapReached(c, before) && before != map[] {
        EvictKeepsRecent(c, before, trace, earlier, r.victim);
        kept := before - {r.victim};
      }
      if r.answered {
        InsertKeepsRecent(c, kept, trace, earlier, r.key, r.now);
      }
    }
    assert !r.answered ==> trace + [] == trace && RecentlyAnswered(c, kept, trace, earlier);
  }

  lemma NextAnswer<K>(trace: seq<K>, requests: seq<Request<K>>)
    requires requests != []
    ensures trace + Answered(requests) == trace + Answer(requests[0]) + Answered(requests[1..])
  {}

  lemma {:induction false} RunKeepsRecent<K>(c: Rules, before: Stamps<K>, trace: seq<K>, earlier: real,
                                             requests: seq<Request<K>>) returns (now: real)
    requires RecentlyAnswered(c, before, trace, earlier) && Rising(requests, earlier)
    requires ServeAll(c, before, requests).Some?
    ensures RecentlyAnswered(c, ServeAll(c, before, requests).value, trace + Answered(requests), now)
    decreases |requests|
  {
    if requests == [] {
      now := earlier;
      assert trace + [] == trace;
    } else {
      var r := requests[0];
      RequestKeepsRecent(c, before, trace, earlier, r);
      now := RunKeepsRecent(c, Serve(c, before, r).value, trace + Answer(r), r.now, requests[1..]);
      NextAnswer(trace, requests);
    }
  }

  // ---- what a whole sequence of requests leaves in the cache -------------------------------

  /** From an empty cache, at rising times. */
  ghost predicate Reaches<K(!new)>(c: Rules, requests: seq<Request<K>>, after: Stamps<K>) {
    && (requests != [] ==> Rising(requests, requests[0].now - 1.0))
    && ServeAll(c, map[], requests) == Some(after)
  }

  /** Main result. After any sequence of requests, answered or not, the live keys are the most recently
      answered distinct ones, as many as are live, and never more than the cap. */
  lemma LiveKeysAreMostRecent<K(!new)>(c: Rules, requests: seq<Request<K>>, after: Stamps<K>)
    requires Reaches(c, requests, after)
    ensures after.Keys == Recency.Keys(Recency.Recent(Answered(requests), |after|))
    ensures c.cap.Some? ==> |after| <= Size(c.cap.value)
  {
    var none: seq<K> := [];
    var start := if requests == [] then 0.0 else requests[0].now - 1.0;
    assert Recency.Recent(none, 0) == none && Recency.Keys(none) == {};
    var now := RunKeepsRecent(c, map[], none, start, requests);
    assert none + Answered(requests) == Answered(requests);
  }

  /** An answered key is still live exactly when fewer other keys were answered since than are live. */
  lemma LiveIff<K(!new)>(c: Rules, requests: seq<Request<K>>, after: Stamps<K>, k: K)
    requires Reaches(c, requests, after) && k in Answered(requests)
    ensures k in after <==> |Recency.Keys(Recency.Since(Answered(requests), k))| < |after|
  {
    LiveKeysAreMostRecent(c, requests, after);
    Recency.RecentIff(Answered(requests), k, |after|);
    assert k in after <==> k in Recency.Keys(Recency.Recent(Answered(requests), |after|));
  }

  // ---- when the cache is as full as it may be ----------------------------------------------

  /** As many of the most recently answered keys as the cap allows. */
  function MostRecent<K(==)>(c: Rules, trace: seq<K>): seq<K> {
    if c.cap == None then Recency.Order(trace) else Recency.Recent(trace, Size(c.cap.value))
  }

  /** The cache evicts for an entry that then cannot be built. */
  predicate EvictsInVain<K(==)>(c: Rules, before: Stamps<K>, r: Request<K>) {
    r.key !in before && CapReached(c, before) && c.evicts && before != map[] && !r.answered
  }

  predicate NeverInVain<K(==)>(c: Rules, before: Stamps<K>, requests: seq<Request<K>>)
    requires ServeAll(c, before, requests).Some?
    decreases |requests|
  {
    requests == []
    || (!EvictsInVain(c, before, requests[0])
        && NeverInVain(c, Serve(c, before, requests[0]).value, requests[1..]))
  }

  /** After every request, and before the first, the cache holds all it may. */
  predicate AlwaysMostRecent<K(==)>(c: Rules, before: Stamps<K>, trace: seq<K>, requests: seq<Request<K>>)
    requires ServeAll(c, before, requests).Some?
    decreases |requests|
  {
    && before.Keys == Recency.Keys(MostRecent(c, trace))
    && (requests == []
        || AlwaysMostRecent(c, Serve(c, before, requests[0]).value, trace + Answer(requests[0]), requests[1..]))
  }

  /** It is a matter of counting. */
  lemma MostRecentByCount<K>(c: Rules, stamps: Stamps<K>, trace: seq<K>, now: real)
    requires RecentlyAnswered(c, stamps, trace, now)
    ensures stamps.Keys == Recency.Keys(MostRecent(c, trace)) <==> |stamps| == |MostRecent(c, trace)|
  {
    var order := Recency.Recent(trace, |stamps|);
    var room := if c.cap == None then |Recency.Order(trace)| else Size(c.cap.value);
    Recency.SameByCount(trace, |stamps|, room);
    Recency.RecentIsDistinct(trace, |stamps|);
    Recency.DistinctCount(order);
    assert |stamps| == |stamps.Keys|;
  }

  lemma HitIsCounted<K>(c: Rules, before: Stamps<K>, trace: seq<K>, earlier: real, key: K, now: real)
    requires RecentlyAnswered(c, before, trace, earlier) && key in before
    requires |before| == |MostRecent(c, trace)|
    ensures |before[key := now]| == |MostRecent(c, trace + [key])|
  {
    StampCount(before, Recency.Recent(trace, |before|), earlier, key);
    assert key in Recency.Order(trace);
    Recency.OrderGrows(trace, key);
    HitCount(before, key, now);
  }

  lemma NewWithRoomIsCounted<K>(c: Rules, before: Stamps<K>, trace: seq<K>, key: K, now: real)
    requires before.Keys == Recency.Keys(MostRecent(c, trace)) && |before| == |MostRecent(c, trace)|
    requires key !in before && (c.cap.Some? ==> |before| < Size(c.cap.value))
    ensures |before[key := now]| == |MostRecent(c, trace + [key])|
  {
    InsertCount(before, key, now);
    assert key !in Recency.Keys(MostRecent(c, trace));
    assert MostRecent(c, trace) == Recency.Order(trace);
    Recency.OrderGrows(trace, key);
  }

  lemma NewIsCounted<K>(c: Rules, before: Stamps<K>, trace: seq<K>, r: Request<K>)
    requires WithinSize(c, before) && r.key !in before && r.answered
    requires before.Keys == Recency.Keys(MostRecent(c, trace)) && |before| == |MostRecent(c, trace)|
    requires Serve(c, before, r).Some?
    ensures |Serve(c, before, r).value| == |MostRecent(c, trace + [r.key])|
  {
    if CapReached(c, before) && before != map[] {
      EvictCount(before, r.victim);
      InsertCount(before - {r.victim}, r.key, r.now);
      Recency.OrderGrows(trace, r.key);
    } else {
      NewWithRoomIsCounted(c, before, trace, r.key, r.now);
    }
  }

  lemma RequestStaysMostRecent<K>(c: Rules, before: Stamps<K>, trace: seq<K>, earlier: real, r: Request<K>)
    requires RecentlyAnswered(c, before, trace, earlier) && earlier < r.now && Serve(c, before, r).Some?
    requires before.Keys == Recency.Keys(MostRecent(c, trace))
    ensures Serve(c, before, r).value.Keys == Recency.Keys(MostRecent(c, trace + Answer(r)))
            <==> !EvictsInVain(c, before, r)
  {
    var after := Serve(c, before, r).value;
    RequestKeepsRecent(c, before, trace, earlier, r);
    MostRecentByCount(c, before, trace, earlier);
    MostRecentByCount(c, after, trace + Answer(r), r.now);
    if r.answered {
      if r.key in before {
        HitIsCounted(c, before, trace, earlier, r.key, r.now);
      } else {
        NewIsCounted(c, before, trace, r);
      }
    } else {
      assert trace + [] == trace;
      if EvictsInVain(c, before, r) {
        EvictKeepsRecent(c, before, trace, earlier, r.victim);
      }
    }
  }

  lemma {:induction false} StaysMostRecent<K>(c: Rules, before: Stamps<K>, trace: seq<K>, earlier: real,
                                              requests: seq<Request<K>>)
    requires RecentlyAnswered(c, before, trace, earlier) && Rising(requests, earlier)
    requires ServeAll(c, before, requests).Some?
    requires before.Keys == Recency.Keys(MostRecent(c, trace))
    ensures AlwaysMostRecent(c, before, trace, requests) <==> NeverInVain(c, before, requests)
    decreases |requests|
  {
    if requests != [] {
      var r := requests[0];
      RequestKeepsRecent(c, before, trace, earlier, r);
      RequestStaysMostRecent(c, before, trace, earlier, r);
      if !EvictsInVain(c, before, r) {
        StaysMostRecent(c, Serve(c, before, r).value, trace + Answer(r), r.now, requests[1..]);
      }
    }
  }

  /** Main result. Throughout a run the live keys are the most recently answered ones that the cap has
      room for, exactly when the cache never evicts for an entry that then cannot be built. */
  lemma MostRecentExactlyWhen<K(!new)>(c: Rules, requests: seq<Request<K>>, after: Stamps<K>)
    requires Reaches(c, requests, after)
    ensures AlwaysMostRecent(c, map[], [], requests) <==> NeverInVain(c, map[], requests)
  {
    var none: seq<K> := [];
    var start := if requests == [] then 0.0 else requests[0].now - 1.0;
    assert Recency.Recent(none, 0) == none && Recency.Keys(none) == {} && MostRecent(c, none) == none;
    StaysMostRecent(c, map[], none, start, requests);
  }

  lemma {:induction false} EndsMostRecent<K>(c: Rules, before: Stamps<K>, trace: seq<K>, requests: seq<Request<K>>)
    requires ServeAll(c, before, requests).Some? && AlwaysMostRecent(c, before, trace, requests)
    ensures ServeAll(c, before, requests).value.Keys == Recency.Keys(MostRecent(c, trace + Answered(requests)))
    decreases |requests|
  {
    if requests == [] {
      assert trace + [] == trace;
    } else {
      var r := requests[0];
      EndsMostRecent(c, Serve(c, before, r).value, trace + Answer(r), requests[1..]);
      NextAnswer(trace, requests);
    }
  }

  /** In the end, too. */
  lemma NeverInVainHoldsAll<K(!new)>(c: Rules, requests: seq<Request<K>>, after: Stamps<K>)
    requires Reaches(c, requests, after) && NeverInVain(c, map[], requests)
    ensures after.Keys == Recency.Keys(MostRecent(c, Answered(requests)))
  {
    var none: seq<K> := [];
    MostRecentExactlyWhen(c, requests, after);
    EndsMostRecent(c, map[], none, requests);
    assert none + Answered(requests) == Answered(requests);
  }

  /** Hence for the same answers a larger cap holds a superset, unless it evicts in vain. */
  lemma LargerCapHoldsMore<K(!new)>(small: Rules, large: Rules, requests: seq<Request<K>>, others: seq<Request<K>>,
                                    after: Stamps<K>, other: Stamps<K>)
    requires Reaches(small, requests, after) && Reaches(large, others, other)
    requires Answered(requests) == Answered(others) && NeverInVain(large, map[], others)
    requires large.cap.Some? ==> small.cap.Some? && small.cap.value <= large.cap.value
    ensures after.Keys <= other.Keys
  {
    LiveKeysAreMostRecent(small, requests, after);
    NeverInVainHoldsAll(large, others, other);
    WithinMostRecent(large, Answered(requests), |after|);
  }

  lemma WithinMostRecent<K>(c: Rules, trace: seq<K>, n: nat)
    requires c.cap.Some? ==> n <= Size(c.cap.value)
    ensures Recency.Keys(Recency.Recent(trace, n)) <= Recency.Keys(MostRecent(c, trace))
  {
    Recency.LargerHoldsMore(trace, n, if c.cap.Some? then Size(c.cap.value) else |Recency.Order(trace)| + n);
  }
}
