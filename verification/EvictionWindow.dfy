/** `ensure_database` with an unchanged configuration takes no lock (`_async/database.py:268-270`), so it
    can run while an eviction waits for the disposal of its victim's engines
    (`_async/database.py:334-351`): the victim has left the LRU by then but not the database map. */
module EvictionWindow {
  import opened Wrappers
  import Recency

  /** The registered dynamic databases, and the LRU order. */
  datatype Names = Names(registered: set<string>, lru: seq<string>)

  predicate Matches(s: Names) {
    Recency.Distinct(s.lru) && Recency.Keys(s.lru) == s.registered
  }

  /** Every registered name is in the LRU, which may hold others. */
  predicate Covers(s: Names) {
    Recency.Distinct(s.lru) && s.registered <= Recency.Keys(s.lru)
  }

  /** The names the LRU holds though they are not registered. */
  function Ghosts(s: Names): set<string> {
    Recency.Keys(s.lru) - s.registered
  }

  /** The quick path of `ensure_database`; for any other name the call has to wait. */
  function Touch(s: Names, name: string): Names {
    if name in s.registered then s.(lru := Recency.Without(s.lru, name) + [name]) else s
  }

  function TouchAll(s: Names, window: seq<string>): Names
    decreases |window|
  {
    if window == [] then s else TouchAll(Touch(s, window[0]), window[1..])
  }

  /** One round of the loop: `window` lists what is touched while it waits. */
  function EvictOne(s: Names, window: seq<string>): Names
    requires s.lru != []
  {
    var t := TouchAll(s.(lru := s.lru[1..]), window);
    t.(registered := t.registered - {s.lru[0]})
  }

  /** The whole loop. None: it takes another number of rounds. */
  function Evict(s: Names, cap: nat, windows: seq<seq<string>>): Option<Names>
    decreases |windows|
  {
    if |s.lru| <= cap then if windows == [] then Some(s) else None
    else if windows == [] then None
    else Evict(EvictOne(s, windows[0]), cap, windows[1..])
  }

  // -- what one round does --

  lemma TouchKeeps(s: Names, name: string)
    requires Recency.Distinct(s.lru)
    ensures var t := Touch(s, name);
            && t.registered == s.registered && Recency.Distinct(t.lru) && |t.lru| >= |s.lru|
            && Recency.Keys(t.lru) == Recency.Keys(s.lru) + ({name} * s.registered)
  {
    if name in s.registered {
      Recency.WithoutKeys(s.lru, name);
      Recency.KeysConcat(Recency.Without(s.lru, name), [name]);
      assert name !in Recency.Keys(Recency.Without(s.lru, name));
      Recency.DistinctCount(s.lru);
      Recency.DistinctCount(Touch(s, name).lru);
    }
  }

  lemma {:induction false} TouchAllKeeps(s: Names, window: seq<string>)
    requires Recency.Distinct(s.lru)
    ensures var t := TouchAll(s, window);
            && t.registered == s.registered && Recency.Distinct(t.lru) && |t.lru| >= |s.lru|
            && Recency.Keys(t.lru) == Recency.Keys(s.lru) + (Recency.Keys(window) * s.registered)
    decreases |window|
  {
    if window != [] {
      TouchKeeps(s, window[0]);
      TouchAllKeeps(Touch(s, window[0]), window[1..]);
      assert window == [window[0]] + window[1..];
      Recency.KeysConcat([window[0]], window[1..]);
    }
  }

  lemma {:induction false} TouchAllSnoc(s: Names, window: seq<string>, name: string)
    ensures TouchAll(s, window + [name]) == Touch(TouchAll(s, window), name)
    decreases |window|
  {
    if window == [] {
      assert [name][1..] == [] && window + [name] == [name];
    } else {
      assert (window + [name])[0] == window[0] && (window + [name])[1..] == window[1..] + [name];
      TouchAllSnoc(Touch(s, window[0]), window[1..], name);
    }
  }

  /** A round leaves its victim behind as a ghost exactly when the victim was registered and is touched
      meanwhile. */
  lemma GhostExactlyWhen(s: Names, window: seq<string>)
    requires Covers(s) && s.lru != []
    ensures var t, victim := EvictOne(s, window), s.lru[0];
            && Covers(t) && |t.lru| >= |s.lru| - 1
            && Ghosts(t) == Ghosts(s) - {victim} + (if victim in s.registered && victim in window then {victim} else {})
            && t.registered == s.registered - {victim}
  {
    var victim, popped := s.lru[0], s.(lru := s.lru[1..]);
    Recency.TailKeys(s.lru);
    TouchAllKeeps(popped, window);
    assert victim in window <==> victim in Recency.Keys(window);
  }

  // -- what a whole eviction does --

  lemma Count(s: Names)
    requires Covers(s)
    ensures |s.registered| + |Ghosts(s)| == |s.lru|
  {
    Recency.DistinctCount(s.lru);
    assert s.registered + Ghosts(s) == Recency.Keys(s.lru);
  }

  /** The loop ends: a victim is unregistered, or it was a ghost and leaves the LRU. */
  lemma RoundShrinks(s: Names, window: seq<string>)
    requires Covers(s) && s.lru != []
    ensures var t := EvictOne(s, window);
            Covers(t) && |t.registered| + |t.lru| < |s.registered| + |s.lru|
  {
    var t, victim := EvictOne(s, window), s.lru[0];
    GhostExactlyWhen(s, window);
    Count(s);
    Count(t);
    if victim in s.registered {
      assert |t.registered| == |s.registered| - 1;
      assert Ghosts(t) <= Ghosts(s) + {victim};
    } else {
      assert victim in Ghosts(s) && Ghosts(t) == Ghosts(s) - {victim};
    }
  }

  /** Main result. However other tasks touch names meanwhile, no registered name leaves the LRU, and
      after an eviction there are as many databases fewer than the cap as there are ghosts. */
  lemma {:induction false} EvictionLeaves(s: Names, cap: nat, windows: seq<seq<string>>)
    requires Covers(s) && |s.lru| >= cap && Evict(s, cap, windows).Some?
    ensures var t := Evict(s, cap, windows).value;
            && Covers(t) && t.registered <= s.registered && |t.lru| == cap
            && |t.registered| == cap - |Ghosts(t)|
    decreases |windows|
  {
    if |s.lru| > cap {
      GhostExactlyWhen(s, windows[0]);
      EvictionLeaves(EvictOne(s, windows[0]), cap, windows[1..]);
    } else {
      Count(s);
    }
  }

  lemma NoGhosts(s: Names)
    requires Covers(s)
    ensures Matches(s) <==> Ghosts(s) == {}
  {
    if Ghosts(s) == {} {
      forall x | x in Recency.Keys(s.lru) ensures x in s.registered {
        assert x !in Ghosts(s);
      }
    }
  }

  /** Nobody touches a victim while the eviction waits for it. */
  predicate VictimsLeftAlone(s: Names, cap: nat, windows: seq<seq<string>>)
    requires Evict(s, cap, windows).Some?
    decreases |windows|
  {
    |s.lru| <= cap
    || (s.lru[0] !in windows[0] && VictimsLeftAlone(EvictOne(s, windows[0]), cap, windows[1..]))
  }

  lemma {:induction false} LeftAloneMatches(s: Names, cap: nat, windows: seq<seq<string>>)
    requires Matches(s) && Evict(s, cap, windows).Some? && VictimsLeftAlone(s, cap, windows)
    ensures Matches(Evict(s, cap, windows).value)
    decreases |windows|
  {
    if |s.lru| > cap {
      GhostExactlyWhen(s, windows[0]);
      NoGhosts(EvictOne(s, windows[0]));
      LeftAloneMatches(EvictOne(s, windows[0]), cap, windows[1..]);
    }
  }

  function Quiet(n: nat): (windows: seq<seq<string>>)
    ensures |windows| == n
  {
    seq(n, _ => [])
  }

  lemma {:induction false} QuietEviction(s: Names, cap: nat, n: nat)
    requires |s.lru| == cap + n
    ensures Evict(s, cap, Quiet(n)) == Some(Names(s.registered - Recency.Keys(s.lru[..n]), s.lru[n..]))
    decreases n
  {
    if n == 0 {
      assert s.lru[..0] == [] && s.lru[0..] == s.lru;
      assert Quiet(0) == [] && s.registered - Recency.Keys(s.lru[..0]) == s.registered;
    } else {
      var t := EvictOne(s, []);
      assert Quiet(n)[0] == [] && Quiet(n)[1..] == Quiet(n - 1);
      assert t == Names(s.registered - {s.lru[0]}, s.lru[1..]);
      QuietEviction(t, cap, n - 1);
      assert s.lru[..n] == [s.lru[0]] + s.lru[1..][..n - 1] && s.lru[1..][n - 1..] == s.lru[n..];
      Recency.KeysConcat([s.lru[0]], s.lru[1..][..n - 1]);
      assert Recency.Keys(s.lru[..n]) == {s.lru[0]} + Recency.Keys(t.lru[..n - 1]);
      assert t.registered - Recency.Keys(t.lru[..n - 1]) == s.registered - Recency.Keys(s.lru[..n]);
    }
  }

  /** Its first victim is touched at the wrong moment, and nothing else happens. */
  function Unlucky(s: Names, cap: nat): seq<seq<string>>
    requires |s.lru| > cap
  {
    [[s.lru[0]]] + Quiet(|s.lru| - cap)
  }

  lemma UnluckyRound(s: Names)
    requires Matches(s) && s.lru != []
    ensures EvictOne(s, [s.lru[0]]) == Names(s.registered - {s.lru[0]}, s.lru[1..] + [s.lru[0]])
    ensures Covers(EvictOne(s, [s.lru[0]])) && Ghosts(EvictOne(s, [s.lru[0]])) == {s.lru[0]}
  {
    var victim, popped := s.lru[0], s.(lru := s.lru[1..]);
    GhostExactlyWhen(s, [victim]);
    assert victim in Recency.Keys(s.lru);
    Recency.TailKeys(s.lru);
    assert victim !in Recency.Keys(popped.lru);
    Recency.WithoutAbsent(popped.lru, victim);
    assert [victim][1..] == [];
    assert TouchAll(popped, [victim]) == Touch(popped, victim);
  }

  /** One more database is evicted then than there had to be. */
  lemma GhostTakesAPlace(s: Names, cap: nat)
    requires Matches(s) && |s.lru| > cap >= 1
    ensures var t := Evict(s, cap, Unlucky(s, cap));
            t.Some? && Ghosts(t.value) == {s.lru[0]} && |t.value.registered| == cap - 1
  {
    var victim, n, first := s.lru[0], |s.lru| - cap, EvictOne(s, [s.lru[0]]);
    UnluckyRound(s);
    QuietEviction(first, cap, n);
    AfterFirstRound(s, cap, [victim], Quiet(n));
    EvictionLeaves(s, cap, Unlucky(s, cap));
    OnlyGhost(first, n, victim);
  }

  lemma AfterFirstRound(s: Names, cap: nat, window: seq<string>, windows: seq<seq<string>>)
    requires |s.lru| > cap
    ensures Evict(s, cap, [window] + windows) == Evict(EvictOne(s, window), cap, windows)
  {
    assert ([window] + windows)[1..] == windows;
  }

  /** After these rounds the loop goes on from `now`. */
  ghost predicate GoesOn(s: Names, cap: nat, windows: seq<seq<string>>, now: Names) {
    forall more :: Evict(s, cap, windows + more) == Evict(now, cap, more)
  }

  lemma LoopStarts(s: Names, cap: nat)
    ensures GoesOn(s, cap, [], s)
  {
    var none: seq<seq<string>> := [];
    forall more ensures Evict(s, cap, none + more) == Evict(s, cap, more) {
      assert none + more == more;
    }
  }

  lemma LoopContinues(s: Names, cap: nat, windows: seq<seq<string>>, now: Names, window: seq<string>)
    requires GoesOn(s, cap, windows, now) && |now.lru| > cap
    ensures GoesOn(s, cap, windows + [window], EvictOne(now, window))
  {
    forall more ensures Evict(s, cap, windows + [window] + more) == Evict(EvictOne(now, window), cap, more) {
      assert windows + [window] + more == windows + ([window] + more);
      AfterFirstRound(now, cap, window, more);
    }
  }

  lemma LoopEnds(s: Names, cap: nat, windows: seq<seq<string>>, now: Names)
    requires GoesOn(s, cap, windows, now) && |now.lru| <= cap
    ensures Evict(s, cap, windows) == Some(now)
  {
    assert windows + [] == windows;
  }

  lemma OnlyGhost(s: Names, n: nat, victim: string)
    requires Covers(s) && n < |s.lru| && Ghosts(s) == {victim} && s.lru[|s.lru| - 1] == victim
    ensures Ghosts(Names(s.registered - Recency.Keys(s.lru[..n]), s.lru[n..])) == {victim}
  {
    var t := Names(s.registered - Recency.Keys(s.lru[..n]), s.lru[n..]);
    assert t.lru[|t.lru| - 1] == victim && victim in Recency.Keys(t.lru);
    forall g | g in Ghosts(t) ensures g == victim {
      var i :| 0 <= i < |t.lru| && t.lru[i] == g;
      assert s.lru[n + i] == g && g in Recency.Keys(s.lru);
      if g in s.lru[..n] {
        FrontIsNotTail(s.lru, n, g);
      }
      assert g !in Recency.Keys(s.lru[..n]);
      assert g in Ghosts(s);
    }
  }

  lemma FrontIsNotTail(s: seq<string>, n: nat, x: string)
    requires Recency.Distinct(s) && n <= |s| && x in s[..n]
    ensures x !in s[n..]
  {
    var i :| 0 <= i < n && s[..n][i] == x;
    forall j | 0 <= j < |s[n..]| ensures s[n..][j] != x {
      assert s[n..][j] == s[n + j] && s[i] == x;
    }
  }

  /** Main result. The LRU matches the registered databases after every eviction, whatever is touched
      meanwhile, exactly when there is nothing to evict or the cap is zero. */
  lemma AlwaysMatchesExactlyWhen(s: Names, cap: nat)
    requires Matches(s)
    ensures (forall windows :: Evict(s, cap, windows).Some? ==> Matches(Evict(s, cap, windows).value))
            <==> |s.lru| <= cap || cap == 0
  {
    if |s.lru| <= cap {
    } else if cap == 0 {
      forall windows | Evict(s, cap, windows).Some? ensures Matches(Evict(s, cap, windows).value) {
        EvictionLeaves(s, cap, windows);
      }
    } else {
      GhostTakesAPlace(s, cap);
      assert !Matches(Evict(s, cap, Unlucky(s, cap)).value);
    }
  }
}
