/** Replica rotation and hash sharding (`_core/routing.py`). */
module Routing {
  import opened Wrappers
  import opened Keys
  import Recency

  datatype TargetRole = Write | Read | PreferReplica | PrimaryOnly

  /** Where an operation should run. */
  datatype DatabaseTarget = DatabaseTarget(database: string, role: TargetRole, shardKey: Option<ShardKey>)

  predicate WantsReplica(t: DatabaseTarget) {
    t.role in {Read, PreferReplica}
  }

  /** Where it was routed to. */
  datatype ResolvedRoute = ResolvedRoute(database: string, shardId: string, role: Role)

  // ---- round robin ---------------------------------------------------------------------

  /** The positions picked since the list of a database was last set, and the counter at that time. */
  datatype Turns = Turns(start: nat, picks: seq<nat>)

  function Counter(counters: map<string, nat>, database: string): nat {
    if database in counters then counters[database] else 0
  }

  /** The recorded picks of a list of `n` took the counter from its start to `now`. */
  ghost predicate IsRun(t: Turns, n: nat, now: nat) {
    n > 0 && t.picks == Picks(t.start, |t.picks|, n) && now == t.start + |t.picks|
  }

  ghost predicate AllRuns(names: map<string, seq<string>>, counters: map<string, nat>, turns: map<string, Turns>) {
    forall d :: d in names && names[d] != [] ==> d in turns && IsRun(turns[d], |names[d]|, Counter(counters, d))
  }

  lemma RunGrows(t: Turns, n: nat, now: nat)
    requires IsRun(t, n, now)
    ensures IsRun(t.(picks := t.picks + [now % n]), n, now + 1)
  {
    PicksSnoc(t.start, |t.picks|, n);
  }

  lemma SelectKeepsRuns(names: map<string, seq<string>>, counters: map<string, nat>, turns: map<string, Turns>,
                        database: string)
    requires AllRuns(names, counters, turns) && database in names && names[database] != []
    ensures database in turns
    ensures var now := Counter(counters, database);
            var t := turns[database].(picks := turns[database].picks + [now % |names[database]|]);
            AllRuns(names, counters[database := now + 1], turns[database := t])
  {
    RunGrows(turns[database], |names[database]|, Counter(counters, database));
  }

  lemma NewListKeepsRuns(names: map<string, seq<string>>, counters: map<string, nat>, turns: map<string, Turns>,
                         database: string, replicas: seq<string>)
    requires AllRuns(names, counters, turns)
    ensures var now := Counter(counters, database);
            AllRuns(names[database := replicas], counters[database := now], turns[database := Turns(now, [])])
  {}

  lemma NoListKeepsRuns(names: map<string, seq<string>>, counters: map<string, nat>, turns: map<string, Turns>,
                        database: string)
    requires AllRuns(names, counters, turns)
    ensures AllRuns(names - {database}, counters - {database}, turns[database := Turns(0, [])])
  {}

  lemma KeptCounter(counters: map<string, nat>, database: string)
    ensures counters[database := Counter(counters, database)]
            == if database in counters then counters else counters[database := 0]
  {}

  class RoundRobinReplicaSelector {
    var names: map<string, seq<string>>
    var counters: map<string, nat>
    ghost var turns: map<string, Turns>

    ghost predicate Valid()
      reads this
    {
      AllRuns(names, counters, turns)
    }

    constructor (replicas: map<string, seq<string>>)
      ensures Valid() && names == replicas && forall d :: NamesOf(d) == if d in replicas then replicas[d] else []
    {
      names := replicas;
      counters := map d | d in replicas :: 0;
      turns := map d | d in replicas :: Turns(0, []);
    }

    function NamesOf(database: string): seq<string>
      reads this
    {
      if database in names then names[database] else []
    }

    function CounterOf(database: string): nat
      reads this
    {
      Counter(counters, database)
    }

    /** The positions picked since the database's list was last set. */
    ghost function PickedOf(database: string): seq<nat>
      reads this
    {
      if database in turns then turns[database].picks else []
    }

    method Select(database: string) returns (name: Option<string>)
      requires Valid()
      modifies this`counters, this`turns
      ensures Valid() && (name == None <==> NamesOf(database) == [])
      ensures name.Some? ==>
                var idx := old(CounterOf(database)) % |NamesOf(database)|;
                && name.value == NamesOf(database)[idx]
                && counters == old(counters)[database := old(CounterOf(database)) + 1]
                && PickedOf(database) == old(PickedOf(database)) + [idx]
      ensures forall d :: d != database || name == None ==> PickedOf(d) == old(PickedOf(d))
      ensures name == None ==> counters == old(counters)
    {
      var here := NamesOf(database);
      if here == [] {
        return None;
      }
      SelectKeepsRuns(names, counters, turns, database);
      var idx := CounterOf(database) % |here|;
      turns := turns[database := turns[database].(picks := turns[database].picks + [idx])];
      counters := counters[database := CounterOf(database) + 1];
      name := Some(here[idx]);
    }

    method SetReplicas(database: string, replicas: seq<string>)
      requires Valid()
      modifies this
      ensures Valid() && NamesOf(database) == replicas && PickedOf(database) == []
      ensures forall d :: d != database ==>
                NamesOf(d) == old(NamesOf(d)) && CounterOf(d) == old(CounterOf(d)) && PickedOf(d) == old(PickedOf(d))
      ensures CounterOf(database) == if replicas == [] then 0 else old(CounterOf(database))
    {
      if replicas != [] {
        ghost var now := CounterOf(database);
        NewListKeepsRuns(names, counters, turns, database, replicas);
        KeptCounter(counters, database);
        names, turns := names[database := replicas], turns[database := Turns(now, [])];
        if database !in counters {
          counters := counters[database := 0];
        }
      } else {
        NoListKeepsRuns(names, counters, turns, database);
        names, turns := names - {database}, turns[database := Turns(0, [])];
        counters := counters - {database};
      }
    }

    /** Between changes of the list, any run of selections uses any two positions of it equally often,
        up to one. A name that is listed several times gets as many shares. */
    lemma PickedIsFair(database: string, i: nat, j: nat)
      requires Valid() && i < |NamesOf(database)| && j < |NamesOf(database)|
      ensures -1 <= Occurrences(PickedOf(database), i) - Occurrences(PickedOf(database), j) <= 1
    {
      assert IsRun(turns[database], |names[database]|, CounterOf(database));
      RotationIsFair(turns[database].start, |PickedOf(database)|, |NamesOf(database)|, i, j);
    }
  }

  /** The indices picked by `count` selections in a row, starting from counter value `counter`. */
  function Picks(counter: nat, count: nat, n: nat): seq<nat>
    requires n > 0
    decreases count
  {
    if count == 0 then [] else [counter % n] + Picks(counter + 1, count - 1, n)
  }

  lemma {:induction false} PicksSnoc(counter: nat, count: nat, n: nat)
    requires n > 0
    ensures |Picks(counter, count, n)| == count
    ensures Picks(counter, count + 1, n) == Picks(counter, count, n) + [(counter + count) % n]
    decreases count
  {
    if count > 0 {
      PicksSnoc(counter + 1, count - 1, n);
    }
  }

  function Occurrences(picks: seq<nat>, j: nat): nat {
    if picks == [] then 0 else (if picks[0] == j then 1 else 0) + Occurrences(picks[1..], j)
  }

  /** How often a window of `count` counter values meets residue `j`: as often as full rounds fit,
      and once more if the rest of the window reaches it. */
  lemma {:induction false} PicksCount(counter: nat, count: nat, n: nat, j: nat)
    requires j < n
    ensures var seen := Occurrences(Picks(counter, count, n), j);
            seen == count / n + if (j - counter % n + n) % n < count % n then 1 else 0
    decreases count
  {
    if count > 0 {
      PicksCount(counter + 1, count - 1, n, j);
      var c, r := counter % n, (counter + 1) % n;
      NextResidue(counter, n);
      NextResidue(count - 1, n);
      var gap := (j - c + n) % n;
      RingGap(j, c, n);
      RingGap(j, r, n);
      assert Picks(counter, count, n)[1..] == Picks(counter + 1, count - 1, n);
    }
  }

  lemma NextResidue(x: nat, n: nat)
    requires n > 0
    ensures (x + 1) % n == if x % n == n - 1 then 0 else x % n + 1
    ensures (x + 1) / n == x / n + if x % n == n - 1 then 1 else 0
  {
    var q, r := x / n, x % n;
    assert x == q * n + r;
    if r == n - 1 {
      assert x + 1 == (q + 1) * n;
      DivModUnique(x + 1, n, q + 1, 0);
    } else {
      DivModUnique(x + 1, n, q, r + 1);
    }
  }

  lemma ProductAtLeast(k: int, n: nat)
    requires k >= 1
    ensures k * n >= n
  {
    assert k * n == (k - 1) * n + n;
  }

  lemma SmallMultipleIsZero(k: int, n: nat)
    requires 0 - n < k * n < n
    ensures k == 0
  {
    if k >= 1 {
      ProductAtLeast(k, n);
    } else if k <= -1 {
      ProductAtLeast(-k, n);
    }
  }

  lemma DivModUnique(x: nat, n: nat, q: nat, r: nat)
    requires r < n && x == q * n + r
    ensures x / n == q && x % n == r
  {
    var a, b := x / n, x % n;
    assert x == a * n + b;
    assert (a - q) * n == a * n - q * n;
    SmallMultipleIsZero(a - q, n);
  }

  lemma RingGap(j: nat, c: nat, n: nat)
    requires j < n && c < n
    ensures (j - c + n) % n == if j >= c then j - c else j - c + n
  {
    if j >= c {
      DivModUnique(j - c + n, n, 1, j - c);
    } else {
      DivModUnique(j - c + n, n, 0, j - c + n);
    }
  }

  /** Main result. Between changes of the replica list, any run of selections uses any two
      replicas equally often, up to one. */
  lemma RotationIsFair(counter: nat, count: nat, n: nat, i: nat, j: nat)
    requires i < n && j < n
    ensures -1 <= Occurrences(Picks(counter, count, n), i) - Occurrences(Picks(counter, count, n), j) <= 1
  {
    PicksCount(counter, count, n, i);
    PicksCount(counter, count, n, j);
  }

  // ---- hash sharding ---------------------------------------------------------------------

  /** A shard key: what dictionaries compare, and what `str` makes of it. */
  datatype ShardKey = ShardKey(identity: int, text: string)

  const CACHE_SIZE := 4096

  function Digits(n: nat): string {
    var d := ['0', '1', '2', '3', '4', '5', '6', '7', '8', '9'][n % 10];
    if n < 10 then [d] else Digits(n / 10) + [d]
  }

  function Padded(s: string): string
    decreases 3 - |s|
  {
    if |s| < 3 then Padded("0" + s) else s
  }

  /** The uncached answer: a function of the text alone. `digest` stands for the first eight bytes
      of SHA-256. */
  function Bucket(digest: string -> nat, numShards: nat, prefix: string, text: string): string
    requires numShards > 0
  {
    prefix + "-" + Padded(Digits(digest(text) % numShards))
  }

  // -- what the buckets are called --

  predicate IsDigit(c: char) {
    '0' <= c <= '9'
  }

  predicate AllDigits(s: string) {
    forall i :: 0 <= i < |s| ==> IsDigit(s[i])
  }

  /** Reading a decimal number back. */
  function Value(s: string): int {
    if s == "" then 0 else 10 * Value(s[..|s| - 1]) + (s[|s| - 1] as int - '0' as int)
  }

  lemma {:induction false} ValueOfDigits(n: nat)
    ensures AllDigits(Digits(n)) && Value(Digits(n)) == n
    ensures 1 <= |Digits(n)| && (n < 1000 ==> |Digits(n)| <= 3)
  {
    var digits := Digits(n);
    var last := digits[|digits| - 1];
    assert last as int - '0' as int == n % 10 && IsDigit(last);
    if n < 10 {
      assert digits[..|digits| - 1] == "";
    } else {
      ValueOfDigits(n / 10);
      assert digits[..|digits| - 1] == Digits(n / 10);
      assert n / 10 < 100 ==> |Digits(n / 10)| <= 2 by {
        if n / 10 < 100 {
          ShortDigits(n / 10);
        }
      }
    }
  }

  lemma ShortDigits(n: nat)
    requires n < 100
    ensures |Digits(n)| <= 2
  {
    assert n >= 10 ==> |Digits(n / 10)| == 1;
  }

  lemma {:induction false} ValueOfZero(s: string)
    ensures Value("0" + s) == Value(s)
  {
    if s == "" {
      assert ("0" + s)[..0] == "";
    } else {
      ValueOfZero(s[..|s| - 1]);
      assert ("0" + s)[..|s|] == "0" + s[..|s| - 1];
    }
  }

  lemma {:induction false} ValueOfPadded(s: string)
    requires AllDigits(s)
    ensures AllDigits(Padded(s)) && Value(Padded(s)) == Value(s)
    ensures |Padded(s)| == if |s| < 3 then 3 else |s|
    decreases 3 - |s|
  {
    if |s| < 3 {
      ValueOfZero(s);
      ValueOfPadded("0" + s);
    }
  }

  /** A bucket is the prefix, a dash and a shard number below the number of shards, in at least three
      digits and in exactly three up to 1000 shards. */
  lemma BucketIsNumbered(digest: string -> nat, numShards: nat, prefix: string, text: string)
    requires numShards > 0
    ensures var b := Bucket(digest, numShards, prefix, text);
            && prefix + "-" <= b
            && var number := b[|prefix| + 1..];
               && AllDigits(number) && 3 <= |number| && (numShards <= 1000 ==> |number| == 3)
               && Value(number) == digest(text) % numShards < numShards
  {
    var n := digest(text) % numShards;
    ValueOfDigits(n);
    ValueOfPadded(Digits(n));
    var b := Bucket(digest, numShards, prefix, text);
    assert b[|prefix| + 1..] == Padded(Digits(n));
  }

  /** So texts share a bucket exactly when their digests agree modulo the number of shards. */
  lemma SameBucketExactlyWhen(digest: string -> nat, numShards: nat, prefix: string, a: string, b: string)
    requires numShards > 0
    ensures Bucket(digest, numShards, prefix, a) == Bucket(digest, numShards, prefix, b)
            <==> digest(a) % numShards == digest(b) % numShards
  {
    BucketIsNumbered(digest, numShards, prefix, a);
    BucketIsNumbered(digest, numShards, prefix, b);
  }

  // -- what the memo answers --

  /** The ordered dictionary, oldest first, with the key that filled each entry. */
  datatype Memo = Memo(order: seq<int>, filled: map<int, ShardKey>)

  const EMPTY_MEMO := Memo([], map[])

  /** The key whose bucket is answered: the one that filled the entry, or the key itself. */
  function Source(m: Memo, key: ShardKey): ShardKey {
    if key.identity in m.filled then m.filled[key.identity] else key
  }

  function Answer(digest: string -> nat, numShards: nat, prefix: string, m: Memo, key: ShardKey): string
    requires numShards > 0
  {
    Bucket(digest, numShards, prefix, Source(m, key).text)
  }

  /** One more use: a hit moves the entry to the end, a miss appends one and drops the oldest beyond
      the cap. */
  function Use(m: Memo, key: ShardKey): Memo {
    var id := key.identity;
    var filled := if id in m.order then m.filled
                  else if |m.order| < CACHE_SIZE then m.filled[id := key]
                  else (m.filled - {m.order[0]})[id := key];
    Memo(Reordered(m.order, id), filled)
  }

  function Reordered(order: seq<int>, id: int): seq<int> {
    if id in order then Recency.Without(order, id) + [id]
    else if |order| < CACHE_SIZE then order + [id]
    else order[1..] + [id]
  }

  function MemoAfter(asked: seq<ShardKey>): Memo {
    if asked == [] then EMPTY_MEMO else Use(MemoAfter(asked[..|asked| - 1]), asked[|asked| - 1])
  }

  function Identities(asked: seq<ShardKey>): seq<int> {
    seq(|asked|, i requires 0 <= i < |asked| => asked[i].identity)
  }

  lemma IdentitiesGrow(asked: seq<ShardKey>, key: ShardKey)
    ensures Identities(asked + [key]) == Identities(asked) + [key.identity]
  {}

  /** The entries are those of the most recently used distinct keys, each filled by a key that was
      asked for and compares equal. */
  ghost predicate MemoMatches(m: Memo, asked: seq<ShardKey>) {
    && m.order == Recency.Recent(Identities(asked), CACHE_SIZE) && |m.order| <= CACHE_SIZE
    && m.filled.Keys == Recency.Keys(m.order)
    && forall id :: id in m.filled ==> m.filled[id] in asked && m.filled[id].identity == id
  }

  lemma ReorderedKeys(asked: seq<ShardKey>, key: ShardKey)
    ensures var order := Recency.Recent(Identities(asked), CACHE_SIZE);
            var after := Reordered(order, key.identity);
            && after == Recency.Recent(Identities(asked + [key]), CACHE_SIZE)
            && |order| <= CACHE_SIZE && |after| <= CACHE_SIZE
            && Recency.Keys(after)
               == if key.identity in order || |order| < CACHE_SIZE then Recency.Keys(order) + {key.identity}
                  else Recency.Keys(order) - {order[0]} + {key.identity}
  {
    var ids, id := Identities(asked), key.identity;
    var order := Recency.Recent(ids, CACHE_SIZE);
    IdentitiesGrow(asked, key);
    Recency.RecentAfterUse(ids, id, CACHE_SIZE);
    Recency.RecentIsDistinct(ids, CACHE_SIZE);
    Recency.RecentIsDistinct(ids + [id], CACHE_SIZE);
    Recency.UsedKeys(order, id);
  }

  lemma UseMatches(m: Memo, asked: seq<ShardKey>, key: ShardKey)
    requires MemoMatches(m, asked)
    ensures MemoMatches(Use(m, key), asked + [key])
  {
    ReorderedKeys(asked, key);
    assert key.identity in m.order <==> key.identity in Recency.Keys(m.order);
    var t, longer := Use(m, key), asked + [key];
    assert longer[|asked|] == key;
    forall id | id in t.filled ensures t.filled[id] in longer && t.filled[id].identity == id {
      if id in m.filled && t.filled[id] == m.filled[id] {
        var i :| 0 <= i < |asked| && asked[i] == m.filled[id];
        assert longer[i] == asked[i];
      }
    }
  }

  /** The cache holds the most recently used distinct keys, after every trace. */
  lemma {:induction false} MemoIsRecent(asked: seq<ShardKey>)
    ensures MemoMatches(MemoAfter(asked), asked)
  {
    if asked == [] {
      var none: seq<int> := [];
      assert Identities(asked) == none && Recency.Keys(none) == {};
    } else {
      var front, last := asked[..|asked| - 1], asked[|asked| - 1];
      MemoIsRecent(front);
      UseMatches(MemoAfter(front), front, last);
      assert front + [last] == asked;
    }
  }

  lemma InOrder(order: seq<int>, filled: map<int, ShardKey>, asked: seq<ShardKey>, id: int)
    requires MemoMatches(Memo(order, filled), asked)
    ensures id in order <==> id in filled
  {
    assert id in order <==> id in Recency.Keys(order);
  }

  lemma MemoGrows(asked: seq<ShardKey>, key: ShardKey)
    ensures MemoAfter(asked + [key]) == Use(MemoAfter(asked), key)
  {
    assert (asked + [key])[..|asked|] == asked;
  }

  // -- when it is the uncached answer --

  /** Keys that compare equal have equal text. (In Python, 1, 1.0 and True do not.) */
  predicate Consistent(keys: set<ShardKey>) {
    forall a, b :: a in keys && b in keys && a.identity == b.identity ==> a.text == b.text
  }

  predicate Among(asked: seq<ShardKey>, keys: set<ShardKey>) {
    forall i :: 0 <= i < |asked| ==> asked[i] in keys
  }

  /** After this trace, the next answer is the uncached one. */
  ghost predicate Pure(digest: string -> nat, numShards: nat, prefix: string, asked: seq<ShardKey>, key: ShardKey) {
    numShards > 0 ==>
      Answer(digest, numShards, prefix, MemoAfter(asked), key) == Bucket(digest, numShards, prefix, key.text)
  }

  lemma ConsistentIsPure(keys: set<ShardKey>, asked: seq<ShardKey>, key: ShardKey)
    requires Consistent(keys) && Among(asked, keys) && key in keys
    ensures Source(MemoAfter(asked), key).text == key.text
  {
    MemoIsRecent(asked);
    var m := MemoAfter(asked);
    if key.identity in m.filled {
      var i: nat :| 0 <= i < |asked| && asked[i] == m.filled[key.identity];
      assert asked[i] in keys;
    }
  }

  /** Of two keys that compare equal, whichever is asked first decides the answer for both. */
  lemma FirstAskedDecides(digest: string -> nat, numShards: nat, prefix: string, a: ShardKey, b: ShardKey)
    requires numShards > 0 && a.identity == b.identity
    ensures Answer(digest, numShards, prefix, MemoAfter([a]), b) == Bucket(digest, numShards, prefix, a.text)
    ensures Answer(digest, numShards, prefix, MemoAfter([b]), b) == Bucket(digest, numShards, prefix, b.text)
    ensures Answer(digest, numShards, prefix, MemoAfter([b]), a) == Bucket(digest, numShards, prefix, b.text)
  {
    assert [a][..0] == [] && [b][..0] == [];
    assert MemoAfter([a]) == Use(EMPTY_MEMO, a) && MemoAfter([b]) == Use(EMPTY_MEMO, b);
  }

  /** A digest that tells this text from every other. */
  function Singles(text: string): string -> nat {
    (s: string) => if s == text then 1 else 0
  }

  lemma BucketsDiffer(a: string, b: string)
    requires a != b
    ensures Bucket(Singles(b), 2, "shard", a) != Bucket(Singles(b), 2, "shard", b)
  {
    assert Digits(1) == "1" && Digits(0) == "0";
    PaddedEnds("1");
    PaddedEnds("0");
    var zero, one := Bucket(Singles(b), 2, "shard", a), Bucket(Singles(b), 2, "shard", b);
    assert zero[|zero| - 1] == '0' && one[|one| - 1] == '1';
  }

  lemma {:induction false} PaddedEnds(s: string)
    requires s != ""
    ensures Padded(s) != "" && Padded(s)[|Padded(s)| - 1] == s[|s| - 1]
    decreases 3 - |s|
  {
    if |s| < 3 {
      PaddedEnds("0" + s);
    }
  }

  /** Main result. Over a set of keys every answer of every trace is the uncached one, for every digest
      and every number of shards, exactly when keys of the set that compare equal have equal text. */
  lemma PureExactlyWhen(keys: set<ShardKey>)
    ensures (forall digest: string -> nat, numShards, prefix, asked, key ::
               Among(asked, keys) && key in keys ==> Pure(digest, numShards, prefix, asked, key))
            <==> Consistent(keys)
  {
    if Consistent(keys) {
      forall digest: string -> nat, numShards: nat, prefix, asked, key | Among(asked, keys) && key in keys
        ensures Pure(digest, numShards, prefix, asked, key)
      {
        ConsistentIsPure(keys, asked, key);
      }
    } else {
      var a, b :| a in keys && b in keys && a.identity == b.identity && a.text != b.text;
      FirstAskedDecides(Singles(b.text), 2, "shard", a, b);
      BucketsDiffer(a.text, b.text);
      assert Among([a], keys) && !Pure(Singles(b.text), 2, "shard", [a], b);
    }
  }

  // -- the resolver --

  class HashShardResolver {
    const numShards: nat
    const prefix: string
    const digest: string -> nat
    var order: seq<int>               // the keys of the ordered dictionary, oldest first
    var cache: map<int, string>
    ghost var filled: map<int, ShardKey>
    ghost var asked: seq<ShardKey>    // every key resolved so far

    /** Every entry is the bucket of the key that filled it. */
    ghost predicate Filled()
      requires numShards > 0
      reads this
    {
      && cache.Keys == filled.Keys
      && forall id :: id in cache ==> cache[id] == Bucket(digest, numShards, prefix, filled[id].text)
    }

    ghost predicate Valid()
      reads this
    {
      numShards > 0 && Memo(order, filled) == MemoAfter(asked) && Filled()
    }

    constructor (numShards: nat, prefix: string, digest: string -> nat)
      requires numShards >= 1
      ensures Valid() && asked == []
      ensures this.numShards == numShards && this.prefix == prefix && this.digest == digest
    {
      this.numShards, this.prefix, this.digest := numShards, prefix, digest;
      order, cache, filled, asked := [], map[], map[], [];
    }

    /** None stands for the routing error that a missing key raises. Otherwise the answer is exactly
        the bucket of the key that filled the entry, or of the key itself if there was none. */
    method Resolve(shardKey: Option<ShardKey>) returns (shard: Option<string>)
      requires Valid()
      modifies this
      ensures Valid()
      ensures shardKey == None ==> shard == None && asked == old(asked) && order == old(order)
      ensures shardKey.Some? ==>
                && asked == old(asked) + [shardKey.value]
                && shard == Some(Answer(digest, numShards, prefix, MemoAfter(old(asked)), shardKey.value))
      ensures |order| <= CACHE_SIZE && order == Recency.Recent(Identities(asked), CACHE_SIZE)
    {
      MemoIsRecent(asked);
      if shardKey == None {
        return None;
      }
      var key := shardKey.value;
      MemoGrows(asked, key);
      InOrder(order, filled, asked, key.identity);
      var result := Lookup(key);
      asked := asked + [key];
      MemoIsRecent(asked);
      shard := Some(result);
    }

    /** The cached answer, which becomes the newest, or a new one. */
    method Lookup(key: ShardKey) returns (result: string)
      requires numShards > 0 && Filled() && |order| <= CACHE_SIZE
      requires key.identity in order <==> key.identity in filled
      modifies this`order, this`cache, this`filled
      ensures Filled() && Memo(order, filled) == Use(Memo(old(order), old(filled)), key)
      ensures result == Answer(digest, numShards, prefix, Memo(old(order), old(filled)), key)
    {
      if key.identity in cache {
        result := cache[key.identity];
        order := Recency.Without(order, key.identity) + [key.identity];
      } else {
        result := Bucket(digest, numShards, prefix, key.text);
        Remember(key, result);
      }
    }

    /** Insert as the newest, and drop the oldest beyond the cap. */
    method Remember(key: ShardKey, result: string)
      requires key.identity !in filled && |order| <= CACHE_SIZE && cache.Keys == filled.Keys
      requires key.identity !in order
      modifies this`order, this`cache, this`filled
      ensures Memo(order, filled) == Use(Memo(old(order), old(filled)), key) && cache.Keys == filled.Keys
      ensures forall id :: id in cache ==> cache[id] == if id == key.identity then result else old(cache)[id]
    {
      var id := key.identity;
      cache, filled := cache[id := result], filled[id := key];
      order := order + [id];
      if |order| > CACHE_SIZE {
        assert order[0] == old(order)[0] != id && order[1..] == old(order)[1..] + [id];
        cache, filled := cache - {order[0]}, filled - {order[0]};
        assert filled == (old(filled) - {order[0]})[id := key];
        order := order[1..];
      }
    }
  }
}
