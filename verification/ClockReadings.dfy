/**
 * Which clock readings the login rate limiter of satsa/security.py
 * stands: pruning shows exactly after a rise and a fall.
 */
module ClockReadings {
  import opened Counting
  import opened Limiter = LoginRateLimiter

  /** The readings of the checks, in order. */
  function Readings(es: seq<Event>): seq<real> {
    if es == [] then [] else (if es[0].Check? then [es[0].now] else []) + Readings(es[1..])
  }

  predicate FallsAfterRise(ts: seq<real>, i: nat, j: nat, k: nat) {
    i < j < k < |ts| && ts[i] < ts[j] && ts[k] < ts[j]
  }

  /** No reading falls below a reading that had risen. */
  predicate Steady(ts: seq<real>) {
    forall i, j, k :: 0 <= i < j < k < |ts| ==> !FallsAfterRise(ts, i, j, k)
  }

  // ---- While the clock falls, nothing is pruned ----

  ghost predicate Level(m: Attempts, h: Attempts, t: real) {
    forall key :: Lookup(m, key) == Lookup(h, key) && forall x :: x in Lookup(h, key) ==> x >= t
  }

  lemma {:induction false} RecentAll(ts: seq<real>, start: real)
    requires forall i :: 0 <= i < |ts| ==> ts[i] > start
    ensures Recent(ts, start) == ts
  {
    if ts != [] {
      var n := |ts| - 1;
      RecentAll(ts[..n], start);
      assert ts == ts[..n] + [ts[n]];
    }
  }

  lemma {:induction false} FallingAnswer(c: Limits, m: Attempts, h: Attempts, t: real, e: Event)
    requires Level(m, h, t) && c.window > 0.0 && e.Check? && e.now <= t
    ensures Recent(Lookup(m, e.key), e.now - c.window) == Lookup(h, e.key)
    ensures Step(c, m, e).1 == ReferenceStep(c, h, e).1
  {
    var list := Lookup(h, e.key);
    forall i | 0 <= i < |list| ensures list[i] > e.now - c.window {
      assert list[i] in list;
    }
    assert Lookup(m, e.key) == list;
    RecentAll(list, e.now - c.window);
    RecentCounts(Lookup(h, e.key), e.now - c.window);
  }

  lemma {:induction false} FallingList(c: Limits, m: Attempts, h: Attempts, t: real, e: Event, key: string)
    requires Level(m, h, t) && c.window > 0.0 && (e.Check? ==> e.now <= t)
    ensures Lookup(Step(c, m, e).0, key) == Lookup(ReferenceStep(c, h, e).0, key)
    ensures forall x :: x in Lookup(ReferenceStep(c, h, e).0, key) ==> x >= ClockAfter(t, e)
  {
    StepLookup(c, m, e, key);
    ReferenceLookup(c, h, e, key);
    if e.Check? {
      FallingAnswer(c, m, h, t, e);
    }
  }

  lemma {:induction false} FallingStep(c: Limits, m: Attempts, h: Attempts, t: real, e: Event)
    requires Level(m, h, t) && c.window > 0.0 && (e.Check? ==> e.now <= t)
    ensures Step(c, m, e).1 == ReferenceStep(c, h, e).1
    ensures Level(Step(c, m, e).0, ReferenceStep(c, h, e).0, ClockAfter(t, e))
  {
    if e.Check? {
      FallingAnswer(c, m, h, t, e);
    }
    forall key
      ensures Lookup(Step(c, m, e).0, key) == Lookup(ReferenceStep(c, h, e).0, key)
      ensures forall x :: x in Lookup(ReferenceStep(c, h, e).0, key) ==> x >= ClockAfter(t, e)
    {
      FallingList(c, m, h, t, e, key);
    }
  }

  /** From the reading `t` on the clock falls, and once it rises it falls no more. */
  predicate Valley(t: real, es: seq<Event>)
    decreases es
  {
    es != [] ==>
      match es[0]
      case Reset(_) => Valley(t, es[1..])
      case Check(_, now) => if now <= t then Valley(now, es[1..]) else ClockFrom(now, es[1..])
  }

  lemma {:induction false} ValleyRun(c: Limits, m: Attempts, h: Attempts, t: real, es: seq<Event>)
    requires Level(m, h, t) && c.window > 0.0 && Valley(t, es)
    ensures Run(c, m, es) == ReferenceRun(c, h, es)
    decreases es
  {
    if es != [] {
      if es[0].Check? && es[0].now > t {
        RunRefines(c, m, h, t, es);
      } else {
        FallingStep(c, m, h, t, es[0]);
        ValleyRun(c, Step(c, m, es[0]).0, ReferenceStep(c, h, es[0]).0, ClockAfter(t, es[0]), es[1..]);
      }
    }
  }

  // ---- Steady readings are a valley ----

  lemma {:induction false} SteadyPart(ts: seq<real>, us: seq<real>, d: nat)
    requires Steady(ts) && |us| + d == |ts| && us != []
    requires forall i :: 1 <= i < |us| ==> us[i] == ts[i + d]
    requires us[0] == ts[0] || us[0] == ts[d]
    ensures Steady(us)
  {
    forall i, j, k | 0 <= i < j < k < |us| ensures !FallsAfterRise(us, i, j, k) {
      assert !FallsAfterRise(ts, i + d, j + d, k + d) && !FallsAfterRise(ts, 0, j + d, k + d);
    }
  }

  lemma {:induction false} RisesOnly(t: real, now: real, es: seq<Event>)
    requires t < now && Steady([t, now] + Readings(es))
    ensures ClockFrom(now, es)
    decreases es
  {
    if es != [] {
      var rest := Readings(es[1..]);
      if es[0].Check? {
        var ts := [t, now] + Readings(es);
        assert Readings(es) == [es[0].now] + rest;
        assert ts == [t, now, es[0].now] + rest && !FallsAfterRise(ts, 0, 1, 2);
        SteadyPart(ts, [t, es[0].now] + rest, 1);
        RisesOnly(t, es[0].now, es[1..]);
      } else {
        assert Readings(es) == rest;
        RisesOnly(t, now, es[1..]);
      }
    }
  }

  lemma {:induction false} SteadyIsValley(t: real, es: seq<Event>)
    requires Steady([t] + Readings(es))
    ensures Valley(t, es)
    decreases es
  {
    if es != [] {
      var rest := Readings(es[1..]);
      if es[0].Check? {
        var now := es[0].now;
        assert [t] + Readings(es) == [t, now] + rest;
        if now <= t {
          SteadyPart([t, now] + rest, [now] + rest, 1);
          SteadyIsValley(now, es[1..]);
        } else {
          RisesOnly(t, now, es[1..]);
        }
      } else {
        assert Readings(es) == rest;
        SteadyIsValley(t, es[1..]);
      }
    }
  }

  lemma {:induction false} SteadyIsSafe(c: Limits, es: seq<Event>)
    requires c.window > 0.0 && Steady(Readings(es))
    ensures Run(c, map[], es) == ReferenceRun(c, map[], es)
  {
    var ts := Readings(es);
    var t := if ts == [] then 0.0 else ts[0];
    forall i, j, k | 0 <= i < j < k < |ts| + 1 ensures !FallsAfterRise([t] + ts, i, j, k) {
      if j > 1 {
        assert !FallsAfterRise(ts, if i == 0 then 0 else i - 1, j - 1, k - 1);
      }
    }
    SteadyIsValley(t, es);
    ValleyRun(c, map[], map[], t, es);
  }

  // ---- A fall after a rise shows ----

  /** Checks of one key at the given times. */
  function Checks(key: string, ts: seq<real>): (es: seq<Event>)
    ensures Readings(es) == ts
  {
    if ts == [] then [] else
      var es := [Check(key, ts[0])] + Checks(key, ts[1..]);
      assert es[1..] == Checks(key, ts[1..]);
      es
  }

  lemma {:induction false} ReadingsConcat(a: seq<Event>, b: seq<Event>)
    ensures Readings(a + b) == Readings(a) + Readings(b)
  {
    if a == [] {
      assert a + b == b;
    } else {
      ReadingsConcat(a[1..], b);
      TailConcat(a, b);
      Regroup(if a[0].Check? then [a[0].now] else [], Readings(a[1..]), Readings(b));
    }
  }

  lemma {:induction false} OnlyKeyConcat(a: seq<Event>, b: seq<Event>, key: string)
    ensures OnlyKey(a + b, key) == OnlyKey(a, key) + OnlyKey(b, key)
  {
    if a == [] {
      assert a + b == b;
    } else {
      OnlyKeyConcat(a[1..], b, key);
      TailConcat(a, b);
      Regroup(if a[0].key == key then [a[0]] else [], OnlyKey(a[1..], key), OnlyKey(b, key));
    }
  }

  lemma {:induction false} OtherKey(ts: seq<real>)
    ensures OnlyKey(Checks("other", ts), "key") == []
  {
    if ts != [] {
      OtherKey(ts[1..]);
      assert Checks("other", ts)[1..] == Checks("other", ts[1..]);
    }
  }

  /** The readings of a run, and the checks of the watched key among its events. */
  ghost predicate Plays(es: seq<Event>, ts: seq<real>, watched: seq<Event>) {
    Readings(es) == ts && OnlyKey(es, "key") == watched
  }

  lemma {:induction false} PlaysConcat(a: seq<Event>, x: seq<real>, u: seq<Event>, b: seq<Event>, y: seq<real>,
                                       v: seq<Event>)
    requires Plays(a, x, u) && Plays(b, y, v)
    ensures Plays(a + b, x + y, u + v)
  {
    ReadingsConcat(a, b);
    OnlyKeyConcat(a, b, "key");
  }

  lemma {:induction false} PlaysOther(ts: seq<real>)
    ensures Plays(Checks("other", ts), ts, [])
  {
    OtherKey(ts);
  }

  lemma {:induction false} PlaysOne(t: real)
    ensures Plays([Check("key", t)], [t], [Check("key", t)])
  {
    assert [Check("key", t)][1..] == [];
  }

  /** Checks of another key, then one check of the watched key. */
  function Watched(before: seq<real>, t: real): seq<Event> {
    Checks("other", before) + [Check("key", t)]
  }

  lemma {:induction false} PlaysWatched(before: seq<real>, t: real)
    ensures Plays(Watched(before, t), before + [t], [Check("key", t)])
  {
    PlaysOther(before);
    PlaysOne(t);
    PlaysConcat(Checks("other", before), before, [], [Check("key", t)], [t], [Check("key", t)]);
    assert [] + [Check("key", t)] == [Check("key", t)];
  }

  /** Three checks of the watched key, with checks of another before, between and after. */
  function Scenario(a: seq<real>, x: real, b: seq<real>, y: real, c: seq<real>, z: real, d: seq<real>): seq<Event> {
    Watched(a, x) + Watched(b, y) + Watched(c, z) + Checks("other", d)
  }

  lemma {:induction false} PlaysScenario(a: seq<real>, x: real, b: seq<real>, y: real, c: seq<real>, z: real,
                                         d: seq<real>)
    ensures Plays(Scenario(a, x, b, y, c, z, d), (a + [x]) + (b + [y]) + (c + [z]) + d,
                  [Check("key", x)] + [Check("key", y)] + [Check("key", z)] + [])
  {
    PlaysWatched(a, x);
    PlaysWatched(b, y);
    PlaysWatched(c, z);
    PlaysOther(d);
    var u, v, w := [Check("key", x)], [Check("key", y)], [Check("key", z)];
    PlaysConcat(Watched(a, x), a + [x], u, Watched(b, y), b + [y], v);
    PlaysConcat(Watched(a, x) + Watched(b, y), a + [x] + (b + [y]), u + v, Watched(c, z), c + [z], w);
    PlaysConcat(Watched(a, x) + Watched(b, y) + Watched(c, z), a + [x] + (b + [y]) + (c + [z]), u + v + w,
                Checks("other", d), d, []);
  }

  lemma {:induction false} ThreeParts(ts: seq<real>, i: nat, j: nat, k: nat)
    requires i < j < k < |ts|
    ensures (ts[..i] + [ts[i]]) + (ts[i + 1..j] + [ts[j]]) + (ts[j + 1..k] + [ts[k]]) + ts[k + 1..] == ts
  {
  }

  /** In the reference, too, a key gets the answers of its own events. */
  lemma {:induction false} ReferenceKeysAreIndependent(c: Limits, h: Attempts, n: Attempts, es: seq<Event>, key: string)
    requires Lookup(h, key) == Lookup(n, key)
    ensures AnswersOf(es, ReferenceRun(c, h, es), key) == ReferenceRun(c, n, OnlyKey(es, key))
    decreases es
  {
    if es != [] {
      var e := es[0];
      var h' := ReferenceStep(c, h, e).0;
      ReferenceLookup(c, h, e, key);
      ReferenceLookup(c, n, e, key);
      assert ReferenceRun(c, h, es)[1..] == ReferenceRun(c, h', es[1..]);
      if e.key == key {
        var only := OnlyKey(es, key);
        assert only[0] == e && only[1..] == OnlyKey(es[1..], key);
        ReferenceKeysAreIndependent(c, h', ReferenceStep(c, n, e).0, es[1..], key);
      } else {
        ReferenceKeysAreIndependent(c, h', n, es[1..], key);
        assert OnlyKey(es, key) == OnlyKey(es[1..], key);
      }
    }
  }

  /**
   * Two attempts allowed, the later after the earlier has left
   * the window, and then a reading in which both count again.
   */
  lemma {:induction false} ThreeChecks(a: real, b: real, x: real)
    requires a < b && x < b
    ensures var c, es := Limits(2, b - a), [Check("key", a), Check("key", b), Check("key", x)];
            Run(c, map[], es) == [true, true, true] && ReferenceRun(c, map[], es) == [true, true, false]
  {
    ThreePruned(a, b, x);
    ThreeCounted(a, b, x);
  }

  lemma {:induction false} RecentOne(a: real, start: real)
    ensures Recent([a], start) == if a > start then [a] else []
  {
    assert [a][..0] == [];
  }

  lemma {:induction false} PrunedSteps(c: Limits, a: real, b: real, x: real)
    requires a < b && x < b && c == Limits(2, b - a)
    ensures Step(c, map[], Check("key", a)) == (map["key" := [a]], true)
    ensures Step(c, map["key" := [a]], Check("key", b)) == (map["key" := [b]], true)
    ensures Step(c, map["key" := [b]], Check("key", x)).1
  {
    var m: Attempts := map["key" := [a]];
    RecentOne(a, b - c.window);
    RecentOne(b, x - c.window);
    assert [] + [a] == [a] && [] + [b] == [b] && m["key" := [b]] == map["key" := [b]];
  }

  lemma {:induction false} ThreePruned(a: real, b: real, x: real)
    requires a < b && x < b
    ensures Run(Limits(2, b - a), map[], [Check("key", a), Check("key", b), Check("key", x)]) == [true, true, true]
  {
    var c := Limits(2, b - a);
    var e, f, g := Check("key", a), Check("key", b), Check("key", x);
    PrunedSteps(c, a, b, x);
    assert [e, f, g][1..] == [f, g] && [f, g][1..] == [g] && [g][1..] == [];
    assert Run(c, map["key" := [b]], [g]) == [true];
    assert Run(c, map["key" := [a]], [f, g]) == [true, true];
  }

  lemma {:induction false} CountsNone(a: real, start: real)
    requires a <= start
    ensures CountBy([a], After(start)) == 0
  {
    CountBound([a], After(start));
  }

  lemma {:induction false} CountsBoth(a: real, b: real, start: real)
    requires a > start && b > start
    ensures CountBy([a, b], After(start)) == 2
  {
    CountBound([a, b], After(start));
  }

  lemma {:induction false} CountedSteps(c: Limits, a: real, b: real, x: real)
    requires a < b && x < b && c == Limits(2, b - a)
    ensures ReferenceStep(c, map[], Check("key", a)) == (map["key" := [a]], true)
    ensures ReferenceStep(c, map["key" := [a]], Check("key", b)) == (map["key" := [a, b]], true)
    ensures !ReferenceStep(c, map["key" := [a, b]], Check("key", x)).1
  {
    var h: Attempts := map["key" := [a]];
    CountsNone(a, b - c.window);
    CountsBoth(a, b, x - c.window);
    assert [] + [a] == [a] && [a] + [b] == [a, b] && h["key" := [a, b]] == map["key" := [a, b]];
  }

  lemma {:induction false} ThreeCounted(a: real, b: real, x: real)
    requires a < b && x < b
    ensures ReferenceRun(Limits(2, b - a), map[], [Check("key", a), Check("key", b), Check("key", x)])
            == [true, true, false]
  {
    var c := Limits(2, b - a);
    var e, f, g := Check("key", a), Check("key", b), Check("key", x);
    CountedSteps(c, a, b, x);
    assert [e, f, g][1..] == [f, g] && [f, g][1..] == [g] && [g][1..] == [];
    assert ReferenceRun(c, map["key" := [a, b]], [g]) == [false];
    assert ReferenceRun(c, map["key" := [a]], [f, g]) == [true, false];
  }

  lemma {:induction false} ThreeOf(ts: seq<real>, i: nat, j: nat, k: nat) returns (es: seq<Event>)
    requires i < j < k < |ts|
    ensures Plays(es, ts, [Check("key", ts[i]), Check("key", ts[j]), Check("key", ts[k])])
  {
    var a, b, c, d := ts[..i], ts[i + 1..j], ts[j + 1..k], ts[k + 1..];
    es := Scenario(a, ts[i], b, ts[j], c, ts[k], d);
    PlaysScenario(a, ts[i], b, ts[j], c, ts[k], d);
    ThreeParts(ts, i, j, k);
    assert [Check("key", ts[i])] + [Check("key", ts[j])] + [Check("key", ts[k])] + []
           == [Check("key", ts[i]), Check("key", ts[j]), Check("key", ts[k])];
  }

  lemma {:induction false} FallShows(ts: seq<real>, i: nat, j: nat, k: nat) returns (c: Limits, es: seq<Event>)
    requires FallsAfterRise(ts, i, j, k)
    ensures c.window > 0.0 && Readings(es) == ts && Run(c, map[], es) != ReferenceRun(c, map[], es)
  {
    c := Limits(2, ts[j] - ts[i]);
    es := ThreeOf(ts, i, j, k);
    WatchedDiffer(c, es, [Check("key", ts[i]), Check("key", ts[j]), Check("key", ts[k])]);
    ThreeChecks(ts[i], ts[j], ts[k]);
  }

  /** Runs that differ on the events of one key differ. */
  lemma {:induction false} WatchedDiffer(c: Limits, es: seq<Event>, watched: seq<Event>)
    requires OnlyKey(es, "key") == watched
    ensures Run(c, map[], watched) != ReferenceRun(c, map[], watched) ==>
              Run(c, map[], es) != ReferenceRun(c, map[], es)
  {
    KeysAreIndependent(c, map[], map[], es, "key");
    ReferenceKeysAreIndependent(c, map[], map[], es, "key");
  }

  /**
   * Readings are safe for every limit, every positive window and every run of checks and resets, in that pruning never
   * changes an answer, if and only if none falls after an earlier rise.
   */
  lemma {:induction false} SafeIffSteady(ts: seq<real>)
    ensures (forall c: Limits,
             es :: c.window > 0.0 && Readings(es) == ts ==> Run(c, map[], es) == ReferenceRun(c, map[], es))
            <==> Steady(ts)
  {
    if Steady(ts) {
      forall c: Limits, es | c.window > 0.0 && Readings(es) == ts
        ensures Run(c, map[], es) == ReferenceRun(c, map[], es)
      {
        SteadyIsSafe(c, es);
      }
    } else {
      var i, j, k :| 0 <= i < j < k < |ts| && FallsAfterRise(ts, i, j, k);
      var c, es := FallShows(ts, i, j, k);
    }
  }
}
