/** Engine keys and their text form (`_core/keys.py`). Every cache of the facade is keyed by the
    text, so the text must not confuse two keys. */
module Keys {

  datatype Role = Primary | Replica(name: string)

  datatype EngineKey = EngineKey(environment: string, database: string, shardId: string, role: Role,
                                 driver: string)

  /** The parts that the text form puts between colons; a replica role is itself "replica:name". */
  function Parts(k: EngineKey): seq<string> {
    [k.environment, k.database, k.shardId]
    + (match k.role
       case Primary => ["primary"]
       case Replica(name) => ["replica", name])
    + [k.driver]
  }

  function Join(parts: seq<string>): string {
    if parts == [] then ""
    else if |parts| == 1 then parts[0]
    else parts[0] + ":" + Join(parts[1..])
  }

  function KeyText(k: EngineKey): string {
    Join(Parts(k))
  }

  /** The prefix by which `forget_database` recognises the breakers of a database. */
  function DatabasePrefix(environment: string, database: string): string {
    environment + ":" + database + ":"
  }

  predicate ColonFree(s: string) {
    forall i :: 0 <= i < |s| ==> s[i] != ':'
  }

  /** No name in the key contains a colon. */
  predicate Plain(k: EngineKey) {
    && ColonFree(k.environment) && ColonFree(k.database) && ColonFree(k.shardId) && ColonFree(k.driver)
    && (k.role.Replica? ==> ColonFree(k.role.name))
  }

  predicate AllColonFree(parts: seq<string>) {
    forall i :: 0 <= i < |parts| ==> ColonFree(parts[i])
  }

  lemma ColonIsAt(x: string, r: string)
    requires ColonFree(x)
    ensures (x + ":" + r)[|x|] == ':'
    ensures forall i :: 0 <= i < |x| ==> (x + ":" + r)[i] != ':'
  {
    assert forall i :: 0 <= i < |x| ==> (x + ":" + r)[i] == x[i];
  }

  /** The first colon separates: the part before it and the part after it are determined. */
  lemma FirstColon(x: string, y: string, r: string, t: string)
    requires ColonFree(x) && ColonFree(y) && x + ":" + r == y + ":" + t
    ensures x == y && r == t
  {
    var u, v := x + ":" + r, y + ":" + t;
    ColonIsAt(x, r);
    ColonIsAt(y, t);
    assert x == u[..|x|] && y == v[..|y|] && r == u[|x| + 1..] && t == v[|y| + 1..];
  }

  /** Joining colon-free parts with colons can be undone. */
  lemma {:induction false} JoinIsInjective(p: seq<string>, q: seq<string>)
    requires p != [] && q != [] && AllColonFree(p) && AllColonFree(q) && Join(p) == Join(q)
    ensures p == q
  {
    if |p| > 1 {
      ColonIsAt(p[0], Join(p[1..]));
    }
    if |q| > 1 {
      ColonIsAt(q[0], Join(q[1..]));
    }
    if |p| > 1 && |q| > 1 {
      FirstColon(p[0], q[0], Join(p[1..]), Join(q[1..]));
      JoinIsInjective(p[1..], q[1..]);
      assert p == [p[0]] + p[1..] && q == [q[0]] + q[1..];
    } else {
      assert ColonFree(p[0]) && ColonFree(q[0]);
      assert |p| == |q| == 1;
    }
  }

  /** Main result. Between keys whose names contain no colon, the text determines the key. */
  lemma KeyTextIsInjective(a: EngineKey, b: EngineKey)
    requires Plain(a) && Plain(b) && KeyText(a) == KeyText(b)
    ensures a == b
  {
    var p, q := Parts(a), Parts(b);
    assert ColonFree("primary") && ColonFree("replica");
    JoinIsInjective(p, q);
    assert |p| == if a.role.Primary? then 5 else 6;
    assert |q| == if b.role.Primary? then 5 else 6;
    assert p[0] == q[0] && p[1] == q[1] && p[2] == q[2] && p[|p| - 1] == q[|q| - 1];
    if a.role.Replica? {
      assert p[4] == q[4];
    }
  }

  lemma KeyTextSplits(k: EngineKey)
    ensures KeyText(k) == k.environment + ":" + (k.database + ":" + Join(Parts(k)[2..]))
    ensures KeyText(k) == DatabasePrefix(k.environment, k.database) + Join(Parts(k)[2..])
  {
    var p := Parts(k);
    assert p[0] == k.environment && p[1] == k.database && p[1..][1..] == p[2..];
    assert Join(p) == p[0] + ":" + Join(p[1..]);
    assert Join(p[1..]) == p[1] + ":" + Join(p[2..]);
  }

  /** A key text starts with a database's prefix for that database's keys, and for no others. */
  lemma PrefixSelectsDatabase(k: EngineKey, environment: string, database: string)
    requires Plain(k) && ColonFree(environment) && ColonFree(database)
    ensures DatabasePrefix(environment, database) <= KeyText(k)
            <==> k.environment == environment && k.database == database
  {
    KeyTextSplits(k);
    var prefix, text, tail := DatabasePrefix(environment, database), KeyText(k), Join(Parts(k)[2..]);
    if prefix <= text {
      var rest := text[|prefix|..];
      assert text == environment + ":" + (database + ":" + rest);
      FirstColon(environment, k.environment, database + ":" + rest, k.database + ":" + tail);
      FirstColon(database, k.database, rest, tail);
    }
  }

  /** Whatever its names, a key's text starts with the prefix of its own database. */
  lemma OwnPrefix(k: EngineKey)
    ensures DatabasePrefix(k.environment, k.database) <= KeyText(k)
  {
    KeyTextSplits(k);
  }

  // ---- names with colons ---------------------------------------------------------------------

  /** One name, followed by a colon, begins the other. */
  predicate Confusable(a: string, b: string) {
    a + ":" <= b || b + ":" <= a
  }

  /** What two texts with different names before a colon have in common. */
  lemma TwoHeads(x: string, y: string, r: string, t: string)
    requires x + ":" + r == y + ":" + t && x != y
    ensures Confusable(x, y)
  {
    if |x| < |y| {
      HeadBegins(x, y, r, t);
    } else if |y| < |x| {
      HeadBegins(y, x, t, r);
    } else {
      SameHead(x, y, r, t);
    }
  }

  lemma SameHead(x: string, y: string, r: string, t: string)
    requires x + ":" + r == y + ":" + t && |x| == |y|
    ensures x == y
  {
    assert x == (x + ":" + r)[..|x|] && y == (y + ":" + t)[..|x|];
  }

  lemma HeadBegins(x: string, y: string, r: string, t: string)
    requires x + ":" + r == y + ":" + t && |x| < |y|
    ensures x + ":" <= y
  {
    var text := x + ":" + r;
    assert x + ":" == text[..|x| + 1] && y == text[..|y|];
    assert text[..|x| + 1] == text[..|y|][..|x| + 1];
  }

  /** Two keys, one of each database, with the same text. */
  predicate SharesText(environment: string, a: string, b: string, k: EngineKey, l: EngineKey) {
    && k.environment == l.environment == environment && k.database == a && l.database == b
    && KeyText(k) == KeyText(l)
  }

  /** What follows the shard in a key's text. */
  function Tail(role: Role, driver: string): string {
    match role
    case Primary => ":primary:" + driver
    case Replica(name) => ":replica:" + name + ":" + driver
  }

  predicate EndsWith(s: string, end: string) {
    |end| <= |s| && s[|s| - |end|..] == end
  }

  predicate TailsFit(s: string, t: string) {
    EndsWith(s, t) || EndsWith(t, s)
  }

  lemma KeyTextEnds(k: EngineKey)
    ensures KeyText(k) == DatabasePrefix(k.environment, k.database) + (k.shardId + Tail(k.role, k.driver))
  {
    KeyTextSplits(k);
    match k.role
    case Primary =>
      assert Parts(k)[2..] == [k.shardId, "primary", k.driver];
      JoinThree(k.shardId, "primary", k.driver);
      assert k.shardId + ":" + "primary" + ":" + k.driver == k.shardId + (":primary:" + k.driver);
    case Replica(name) =>
      var parts := [k.shardId, "replica", name, k.driver];
      assert Parts(k)[2..] == parts && parts[1..] == ["replica", name, k.driver];
      JoinThree("replica", name, k.driver);
      assert k.shardId + ":" + ("replica" + ":" + name + ":" + k.driver)
          == k.shardId + (":replica:" + name + ":" + k.driver);
  }

  lemma JoinThree(x: string, y: string, z: string)
    ensures Join([x, y, z]) == x + ":" + y + ":" + z
  {
    assert [x, y, z][1..] == [y, z] && [y, z][1..] == [z];
    assert Join([y, z]) == y + ":" + Join([z]) == y + ":" + z;
    assert x + ":" + (y + ":" + z) == x + ":" + y + ":" + z;
  }

  /** Shards that make up for what the one name and the one tail have more. */
  lemma ShardsMakeUp(more: string, s: string, t: string) returns (x: string, y: string)
    requires TailsFit(s, t)
    ensures x + s == more + ":" + y + t
  {
    if EndsWith(t, s) {
      var front := t[..|t| - |s|];
      assert t == front + s;
      x, y := more + ":" + front, "";
    } else {
      var front := s[..|s| - |t|];
      assert s == front + t;
      x, y := more + ":", front;
    }
  }

  lemma LongerName(environment: string, a: string, b: string, roleA: Role, driverA: string, roleB: Role,
                   driverB: string) returns (x: string, y: string)
    requires a + ":" <= b && TailsFit(Tail(roleA, driverA), Tail(roleB, driverB))
    ensures KeyText(EngineKey(environment, a, x, roleA, driverA))
         == KeyText(EngineKey(environment, b, y, roleB, driverB))
  {
    var more, s, t := b[|a| + 1..], Tail(roleA, driverA), Tail(roleB, driverB);
    assert b == a + ":" + more;
    x, y := ShardsMakeUp(more, s, t);
    KeyTextEnds(EngineKey(environment, a, x, roleA, driverA));
    KeyTextEnds(EngineKey(environment, b, y, roleB, driverB));
    Regroup(environment, a, more, y, t);
  }

  lemma Regroup(environment: string, a: string, more: string, y: string, t: string)
    ensures DatabasePrefix(environment, a) + (more + ":" + y + t)
         == DatabasePrefix(environment, a + ":" + more) + (y + t)
  {}

  /** Keys of two confusable databases with the same text. */
  lemma ConfusedKeys(environment: string, a: string, b: string, roleA: Role, driverA: string, roleB: Role,
                     driverB: string) returns (k: EngineKey, l: EngineKey)
    requires Confusable(a, b) && TailsFit(Tail(roleA, driverA), Tail(roleB, driverB))
    ensures SharesText(environment, a, b, k, l)
    ensures k.role == roleA && k.driver == driverA && l.role == roleB && l.driver == driverB
  {
    var x, y;
    if a + ":" <= b {
      x, y := LongerName(environment, a, b, roleA, driverA, roleB, driverB);
    } else {
      y, x := LongerName(environment, b, a, roleB, driverB, roleA, driverA);
    }
    k, l := EngineKey(environment, a, x, roleA, driverA), EngineKey(environment, b, y, roleB, driverB);
  }

  lemma EndsFit(x: string, s: string, y: string, t: string)
    requires x + s == y + t
    ensures TailsFit(s, t)
  {
    var text := x + s;
    assert s == text[|text| - |s|..] && t == text[|text| - |t|..];
    if |s| <= |t| {
      assert t[|t| - |s|..] == s;
    } else {
      assert s[|s| - |t|..] == t;
    }
  }

  lemma SharedTailsFit(k: EngineKey, l: EngineKey)
    requires KeyText(k) == KeyText(l)
    ensures TailsFit(Tail(k.role, k.driver), Tail(l.role, l.driver))
  {
    KeyTextEnds(k);
    KeyTextEnds(l);
    var p, q := DatabasePrefix(k.environment, k.database), DatabasePrefix(l.environment, l.database);
    var s, t := Tail(k.role, k.driver), Tail(l.role, l.driver);
    assert p + (k.shardId + s) == (p + k.shardId) + s && q + (l.shardId + t) == (q + l.shardId) + t;
    EndsFit(p + k.shardId, s, q + l.shardId, t);
  }

  /** Two databases of one environment can share an engine text exactly when one name followed by a
      colon begins the other. */
  lemma SharedTextExactlyWhen(environment: string, a: string, b: string)
    requires a != b
    ensures (exists k, l :: SharesText(environment, a, b, k, l)) <==> Confusable(a, b)
  {
    forall k, l | SharesText(environment, a, b, k, l) ensures Confusable(a, b) {
      SharedTextConfuses(environment, a, b, k, l);
    }
    if Confusable(a, b) {
      var k, l := ConfusedKeys(environment, a, b, Primary, "driver", Primary, "driver");
    }
  }

  lemma SharedTextConfuses(environment: string, a: string, b: string, k: EngineKey, l: EngineKey)
    requires a != b && SharesText(environment, a, b, k, l)
    ensures Confusable(a, b)
  {
    KeyTextSplits(k);
    KeyTextSplits(l);
    var head, r, t := environment + ":", Join(Parts(k)[2..]), Join(Parts(l)[2..]);
    assert (head + (a + ":" + r))[|head|..] == a + ":" + r && (head + (b + ":" + t))[|head|..] == b + ":" + t;
    TwoHeads(a, b, r, t);
  }

  /** A key of `other` that the purge of `name` drops. */
  predicate Reaches(environment: string, name: string, other: string, k: EngineKey) {
    k.environment == environment && k.database == other && DatabasePrefix(environment, name) <= KeyText(k)
  }

  /** Over all shards, the purge of one database reaches breakers of another exactly when the two names
      are confusable, and always its own. */
  lemma PurgeReachesExactlyWhen(environment: string, name: string, other: string)
    ensures (exists k :: Reaches(environment, name, other, k)) <==> name == other || Confusable(name, other)
  {
    forall k | Reaches(environment, name, other, k) ensures name == other || Confusable(name, other) {
      ReachedIsConfusable(environment, name, other, k);
    }
    if name == other {
      var k := EngineKey(environment, name, "s", Primary, "driver");
      OwnPrefix(k);
      assert Reaches(environment, name, other, k);
    } else if Confusable(name, other) {
      var k, l := ConfusedKeys(environment, name, other, Primary, "driver", Primary, "driver");
      OwnPrefix(k);
      assert Reaches(environment, name, other, l);
    }
  }

  lemma ReachedIsConfusable(environment: string, name: string, other: string, k: EngineKey)
    requires Reaches(environment, name, other, k)
    ensures name == other || Confusable(name, other)
  {
    KeyTextSplits(k);
    var head, tail, text := environment + ":", Join(Parts(k)[2..]), KeyText(k);
    var prefix := DatabasePrefix(environment, name);
    var rest := text[|prefix|..];
    assert text == head + (name + ":" + rest) && text == head + (other + ":" + tail);
    assert text[|head|..] == name + ":" + rest && text[|head|..] == other + ":" + tail;
    if name != other {
      TwoHeads(name, other, rest, tail);
    }
  }
}
