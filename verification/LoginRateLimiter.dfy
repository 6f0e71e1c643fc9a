/** The login rate limiter of satsa/security.py: a per-key list of attempt times, pruned on every check. */
module LoginRateLimiter {
  import opened Counting

  datatype Limits = Limits(maxAttempts: int, window: real)
  datatype Event = Check(key: string, now: real) | Reset(key: string)

  type Attempts = map<string, seq<real>>

  function Lookup(m: Attempts, key: string): seq<real> {
    if key in m then m[key] else []
  }

  /** The times strictly after `start`, in order. */
  function Recent(ts: seq<real>, start: real): seq<real> {
    if ts == [] then []
    else
      var last := ts[|ts| - 1];
      Recent(ts[..|ts| - 1], start) + (if last > start then [last] else [])
  }

  function After(start: real): real -> bool {
    t => t > start
  }

  /** Membership in the half-open window (s, s + window]. */
  function Within(s: real, window: real): real -> bool {
    t => s < t <= s + window
  }

  function CheckStep(c: Limits, m: Attempts, key: string, now: real): (Attempts, bool) {
    var recent := Recent(Lookup(m, key), now - c.window);
    if |recent| >= c.maxAttempts then (m[key := recent], false)
    else (m[key := recent + [now]], true)
  }

  class LoginRateLimiter {
    const maxAttempts: int
    const windowSeconds: real
    var attempts: Attempts

    constructor (maxAttempts: int := 5, windowSeconds: real := 60.0)
      ensures this.maxAttempts == maxAttempts && this.windowSeconds == windowSeconds
      ensures attempts == map[]
    {
      this.maxAttempts := maxAttempts;
      this.windowSeconds := windowSeconds;
      attempts := map[];
    }

    method Check(key: string, now: real) returns (allowed: bool)
      modifies this`attempts
      ensures (attempts, allowed) == CheckStep(Limits(maxAttempts, windowSeconds), old(attempts), key, now)
    {
      var windowStart := now - windowSeconds;
      var recent := Recent(if key in attempts then attempts[key] else [], windowStart);
      if |recent| >= maxAttempts {
        attempts := attempts[key := recent];
        return false;
      }
      recent := recent + [now];
      attempts := attempts[key := recent];
      return true;
    }

    method Reset(key: string)
      modifies this`attempts
      ensures attempts == old(attempts) - {key}
    {
      attempts := attempts - {key};
    }
  }

  // ---- Runs of the limiter, and of a reference limiter that never forgets an allowed attempt ----

  function Step(c: Limits, m: Attempts, e: Event): (Attempts, bool) {
    match e
    case Check(key, now) => CheckStep(c, m, key, now)
    case Reset(key) => (m - {key}, true)
  }

  /** The answers of a run; a reset has the answer `true`. */
  function Run(c: Limits, m: Attempts, es: seq<Event>): (answers: seq<bool>)
    ensures |answers| == |es|
    decreases es
  {
    if es == [] then []
    else
      var (m', answer) := Step(c, m, es[0]);
      [answer] + Run(c, m', es[1..])
  }

  /** The reference keeps every allowed attempt of a key since its last reset and counts the recent ones. */
  function ReferenceStep(c: Limits, h: Attempts, e: Event): (Attempts, bool) {
    match e
    case Reset(key) => (h - {key}, true)
    case Check(key, now) =>
      if CountBy(Lookup(h, key), After(now - c.window)) < c.maxAttempts
      then (h[key := Lookup(h, key) + [now]], true)
      else (h, false)
  }

  function ReferenceRun(c: Limits, h: Attempts, es: seq<Event>): (answers: seq<bool>)
    ensures |answers| == |es|
    decreases es
  {
    if es == [] then []
    else
      var (h', answer) := ReferenceStep(c, h, es[0]);
      [answer] + ReferenceRun(c, h', es[1..])
  }

  function ReferenceState(c: Limits, h: Attempts, es: seq<Event>): Attempts
    decreases es
  {
    if es == [] then h else ReferenceState(c, ReferenceStep(c, h, es[0]).0, es[1..])
  }

  /** No check happens before `t`, and the clock never goes back. */
  predicate ClockFrom(t: real, es: seq<Event>)
    decreases es
  {
    es != [] ==>
      match es[0]
      case Check(_, now) => t <= now && ClockFrom(now, es[1..])
      case Reset(_) => ClockFrom(t, es[1..])
  }

  lemma {:induction false} RecentCounts(ts: seq<real>, start: real)
    ensures |Recent(ts, start)| == CountBy(ts, After(start))
  {
    if ts != [] {
      RecentCounts(ts[..|ts| - 1], start);
    }
  }

  lemma {:induction false} RecentConcat(s: seq<real>, t: seq<real>, start: real)
    ensures Recent(s + t, start) == Recent(s, start) + Recent(t, start)
  {
    if t == [] {
      assert s + t == s;
    } else {
      assert (s + t)[..|s + t| - 1] == s + t[..|t| - 1];
      RecentConcat(s, t[..|t| - 1], start);
    }
  }

  /** Pruning with an earlier start loses nothing that a later start would keep. */
  lemma {:induction false} RecentTwice(ts: seq<real>, a: real, b: real)
    requires a <= b
    ensures Recent(Recent(ts, a), b) == Recent(ts, b)
  {
    if ts != [] {
      var init, last := ts[..|ts| - 1], ts[|ts| - 1];
      RecentTwice(init, a, b);
      RecentConcat(Recent(init, a), if last > a then [last] else [], b);
    }
  }

  /** The pruned lists answer every question about windows that start at `start` or later. */
  ghost predicate Prunes(m: Attempts, h: Attempts, start: real) {
    forall key, s :: start <= s ==> Recent(Lookup(m, key), s) == Recent(Lookup(h, key), s)
  }

  /** What one step does to the list of one key. */
  lemma {:induction false} StepLookup(c: Limits, m: Attempts, e: Event, key: string)
    ensures Lookup(Step(c, m, e).0, key) ==
              if key != e.key then Lookup(m, key)
              else if e.Reset? then []
              else Recent(Lookup(m, key), e.now - c.window) + (if Step(c, m, e).1 then [e.now] else [])
  {
  }

  lemma {:induction false} ReferenceLookup(c: Limits, h: Attempts, e: Event, key: string)
    ensures Lookup(ReferenceStep(c, h, e).0, key) ==
              if key != e.key then Lookup(h, key)
              else if e.Reset? then []
              else if ReferenceStep(c, h, e).1 then Lookup(h, key) + [e.now]
              else Lookup(h, key)
  {
  }

  function ClockAfter(t: real, e: Event): real {
    if e.Check? then e.now else t
  }

  lemma {:induction false} AnswerRefines(c: Limits, m: Attempts, h: Attempts, t: real, e: Event)
    requires Prunes(m, h, t - c.window) && t <= ClockAfter(t, e)
    ensures Step(c, m, e).1 == ReferenceStep(c, h, e).1
  {
    if e.Check? {
      RecentCounts(Lookup(h, e.key), e.now - c.window);
    }
  }

  lemma {:induction false} PruneThenAppend(pruned: seq<real>, full: seq<real>, added: seq<real>, start: real, s: real,
                                           pruned': seq<real>, full': seq<real>)
    requires start <= s && Recent(pruned, s) == Recent(full, s)
    requires pruned' == Recent(pruned, start) + added && full' == full + added
    ensures Recent(pruned', s) == Recent(full', s)
  {
    RecentTwice(pruned, start, s);
    RecentConcat(Recent(pruned, start), added, s);
    RecentConcat(full, added, s);
  }

  /** A check appends the same times to both lists of its key. */
  lemma {:induction false} CheckAppends(c: Limits, m: Attempts, h: Attempts, t: real, e: Event)
    returns (added: seq<real>)
    requires Prunes(m, h, t - c.window) && e.Check? && t <= e.now
    ensures Lookup(Step(c, m, e).0, e.key) == Recent(Lookup(m, e.key), e.now - c.window) + added
    ensures Lookup(ReferenceStep(c, h, e).0, e.key) == Lookup(h, e.key) + added
  {
    AnswerRefines(c, m, h, t, e);
    StepLookup(c, m, e, e.key);
    ReferenceLookup(c, h, e, e.key);
    added := if Step(c, m, e).1 then [e.now] else [];
  }

  lemma {:induction false} PrunesAt(m: Attempts, h: Attempts, start: real, key: string, s: real)
    requires Prunes(m, h, start) && start <= s
    ensures Recent(Lookup(m, key), s) == Recent(Lookup(h, key), s)
  {
  }

  lemma {:induction false} CheckRefines(c: Limits, m: Attempts, h: Attempts, t: real, e: Event, s: real)
    requires Prunes(m, h, t - c.window) && e.Check? && t <= e.now && e.now - c.window <= s
    ensures Recent(Lookup(Step(c, m, e).0, e.key), s) == Recent(Lookup(ReferenceStep(c, h, e).0, e.key), s)
  {
    PrunesAt(m, h, t - c.window, e.key, s);
    var added := CheckAppends(c, m, h, t, e);
    PruneThenAppend(Lookup(m, e.key), Lookup(h, e.key), added, e.now - c.window, s,
                    Lookup(Step(c, m, e).0, e.key), Lookup(ReferenceStep(c, h, e).0, e.key));
  }

  lemma {:induction false} ListRefines(c: Limits, m: Attempts, h: Attempts, t: real, e: Event, key: string, s: real)
    requires Prunes(m, h, t - c.window) && t <= ClockAfter(t, e) && ClockAfter(t, e) - c.window <= s
    ensures Recent(Lookup(Step(c, m, e).0, key), s) == Recent(Lookup(ReferenceStep(c, h, e).0, key), s)
  {
    if key == e.key && e.Check? {
      CheckRefines(c, m, h, t, e, s);
    } else {
      StepLookup(c, m, e, key);
      ReferenceLookup(c, h, e, key);
    }
  }

  lemma {:induction false} StepRefines(c: Limits, m: Attempts, h: Attempts, t: real, e: Event)
    requires Prunes(m, h, t - c.window) && t <= ClockAfter(t, e)
    ensures Prunes(Step(c, m, e).0, ReferenceStep(c, h, e).0, ClockAfter(t, e) - c.window)
  {
    forall key, s | ClockAfter(t, e) - c.window <= s
      ensures Recent(Lookup(Step(c, m, e).0, key), s) == Recent(Lookup(ReferenceStep(c, h, e).0, key), s)
    {
      ListRefines(c, m, h, t, e, key, s);
    }
  }

  lemma {:induction false} RunRefines(c: Limits, m: Attempts, h: Attempts, t: real, es: seq<Event>)
    requires Prunes(m, h, t - c.window) && ClockFrom(t, es)
    ensures Run(c, m, es) == ReferenceRun(c, h, es)
    decreases es
  {
    if es != [] {
      AnswerRefines(c, m, h, t, es[0]);
      StepRefines(c, m, h, t, es[0]);
      RunRefines(c, Step(c, m, es[0]).0, ReferenceStep(c, h, es[0]).0, ClockAfter(t, es[0]), es[1..]);
    }
  }

  /** Every answer of a run is the one the unpruned history gives. */
  lemma {:induction false} PruningIsInvisible(c: Limits, t: real, es: seq<Event>)
    requires ClockFrom(t, es)
    ensures Run(c, map[], es) == ReferenceRun(c, map[], es)
  {
    RunRefines(c, map[], map[], t, es);
  }

  // ---- No sliding window holds more than the limit ----

  /** The clock readings of the allowed checks of one key. */
  function AllowedTimes(es: seq<Event>, answers: seq<bool>, key: string): seq<real>
    requires |es| == |answers|
  {
    if es == [] then []
    else
      (if es[0].Check? && es[0].key == key && answers[0] then [es[0].now] else [])
      + AllowedTimes(es[1..], answers[1..], key)
  }

  function InWindow(ts: seq<real>, s: real, window: real): nat {
    CountBy(ts, Within(s, window))
  }

  function Budget(c: Limits): nat {
    if c.maxAttempts < 0 then 0 else c.maxAttempts
  }

  ghost predicate WindowBounded(c: Limits, ts: seq<real>) {
    forall s :: InWindow(ts, s, c.window) <= Budget(c)
  }

  lemma {:induction false} AllowedKeepsBound(c: Limits, ts: seq<real>, now: real)
    requires WindowBounded(c, ts)
    requires CountBy(ts, After(now - c.window)) < c.maxAttempts
    ensures WindowBounded(c, ts + [now])
  {
    forall s ensures InWindow(ts + [now], s, c.window) <= Budget(c) {
      CountAppend(ts, now, Within(s, c.window));
      assert InWindow(ts, s, c.window) <= Budget(c);
      if s < now <= s + c.window {
        CountMonotone(ts, Within(s, c.window), After(now - c.window));
      }
    }
  }

  lemma {:induction false} ReferenceBounded(c: Limits, h: Attempts, es: seq<Event>, key: string)
    requires WindowBounded(c, Lookup(h, key))
    ensures WindowBounded(c, Lookup(ReferenceState(c, h, es), key))
    decreases es
  {
    if es != [] {
      var h' := ReferenceStep(c, h, es[0]).0;
      ReferenceLookup(c, h, es[0], key);
      if es[0].Check? && es[0].key == key && ReferenceStep(c, h, es[0]).1 {
        AllowedKeepsBound(c, Lookup(h, key), es[0].now);
      }
      ReferenceBounded(c, h', es[1..], key);
    }
  }

  /** Without a reset, the history of a key is what it was followed by the newly allowed times. */
  function FirstTime(e: Event, answer: bool, key: string): seq<real> {
    if e.Check? && e.key == key && answer then [e.now] else []
  }

  lemma {:induction false} AllowedFirst(c: Limits, h: Attempts, es: seq<Event>, key: string)
    requires es != []
    ensures var (h', answer) := ReferenceStep(c, h, es[0]);
            AllowedTimes(es, ReferenceRun(c, h, es), key)
            == FirstTime(es[0], answer, key) + AllowedTimes(es[1..], ReferenceRun(c, h', es[1..]), key)
  {
    var h' := ReferenceStep(c, h, es[0]).0;
    assert ReferenceRun(c, h, es)[1..] == ReferenceRun(c, h', es[1..]);
  }

  lemma {:induction false} ReferenceGrows(c: Limits, h: Attempts, e: Event, key: string)
    requires e != Reset(key)
    ensures Lookup(ReferenceStep(c, h, e).0, key) == Lookup(h, key) + FirstTime(e, ReferenceStep(c, h, e).1, key)
  {
    ReferenceLookup(c, h, e, key);
  }

  lemma {:induction false} HistoryGrows(c: Limits, h: Attempts, es: seq<Event>, key: string)
    requires Reset(key) !in es
    ensures Lookup(ReferenceState(c, h, es), key)
         == Lookup(h, key) + AllowedTimes(es, ReferenceRun(c, h, es), key)
    decreases es
  {
    if es != [] {
      assert es[0] in es && forall e :: e in es[1..] ==> e in es;
      HistoryGrows(c, ReferenceStep(c, h, es[0]).0, es[1..], key);
      ReferenceGrows(c, h, es[0], key);
      AllowedFirst(c, h, es, key);
    }
  }

  lemma {:induction false} ReferenceConcat(c: Limits, h: Attempts, pre: seq<Event>, es: seq<Event>)
    ensures ReferenceRun(c, h, pre + es)
         == ReferenceRun(c, h, pre) + ReferenceRun(c, ReferenceState(c, h, pre), es)
    decreases pre
  {
    if pre == [] {
      assert pre + es == es;
    } else {
      assert (pre + es)[1..] == pre[1..] + es;
      ReferenceConcat(c, ReferenceStep(c, h, pre[0]).0, pre[1..], es);
    }
  }

  /**
   * In any stretch `es` of any run, if `key` is not reset in it, no window (s, s + window] holds more
   * than `max_attempts` allowed checks of `key`: the limiter slides its window.
   */
  lemma {:induction false} NoWindowOverLimit(c: Limits, t: real, pre: seq<Event>, es: seq<Event>, key: string, s: real)
    requires ClockFrom(t, pre + es) && Reset(key) !in es
    ensures InWindow(AllowedTimes(es, Run(c, map[], pre + es)[|pre|..], key), s, c.window) <= Budget(c)
  {
    PruningIsInvisible(c, t, pre + es);
    ReferenceConcat(c, map[], pre, es);
    var h := ReferenceState(c, map[], pre);
    ReferenceBounded(c, map[], pre, key);
    ReferenceBounded(c, h, es, key);
    HistoryGrows(c, h, es, key);
    var allowed := AllowedTimes(es, ReferenceRun(c, h, es), key);
    assert Run(c, map[], pre + es)[|pre|..] == ReferenceRun(c, h, es);
    assert InWindow(Lookup(h, key) + allowed, s, c.window) <= Budget(c);
    CountConcat(Lookup(h, key), allowed, Within(s, c.window));
  }

  // ---- Keys do not influence one another ----

  function OnlyKey(es: seq<Event>, key: string): seq<Event> {
    if es == [] then [] else (if es[0].key == key then [es[0]] else []) + OnlyKey(es[1..], key)
  }

  function AnswersOf(es: seq<Event>, answers: seq<bool>, key: string): seq<bool>
    requires |es| == |answers|
  {
    if es == [] then []
    else (if es[0].key == key then [answers[0]] else []) + AnswersOf(es[1..], answers[1..], key)
  }

  /** The answers a key gets are those of the run that has only its own events. */
  lemma {:induction false} KeysAreIndependent(c: Limits, m: Attempts, n: Attempts, es: seq<Event>, key: string)
    requires Lookup(m, key) == Lookup(n, key)
    ensures AnswersOf(es, Run(c, m, es), key) == Run(c, n, OnlyKey(es, key))
    decreases es
  {
    if es != [] {
      var e := es[0];
      var m' := Step(c, m, e).0;
      StepLookup(c, m, e, key);
      StepLookup(c, n, e, key);
      assert Run(c, m, es)[1..] == Run(c, m', es[1..]);
      if e.key == key {
        var only := OnlyKey(es, key);
        assert only[0] == e && only[1..] == OnlyKey(es[1..], key);
        KeysAreIndependent(c, m', Step(c, n, e).0, es[1..], key);
      } else {
        KeysAreIndependent(c, m', n, es[1..], key);
        assert OnlyKey(es, key) == OnlyKey(es[1..], key);
      }
    }
  }
}
