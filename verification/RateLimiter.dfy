/** The login rate limiter: fixed windows per key in a map, emptied now and then by a sweeper. */
module RateLimiter {

  /** A window: how many requests it has admitted, and the last moment it is open. */
  datatype Entry = Entry(count: int, reset: int)

  type Entries = map<string, Entry>

  datatype Config = Config(limit: int, window: nat)
  {
    /** The first request of a window is always admitted, even when the limit is below 1. */
    function Cap(): (c: int)
      ensures c >= 1 && c >= limit && (limit >= 1 ==> c == limit)
    {
      if limit < 1 then 1 else limit
    }
  }

  /** The decision for one request, and the map after it. */
  function Decide(c: Config, entries: Entries, key: string, now: int): (Entries, bool) {
    if key !in entries || now > entries[key].reset then (entries[key := Entry(1, now + c.window)], true)
    else if entries[key].count >= c.limit then (entries, false)
    else (entries[key := entries[key].(count := entries[key].count + 1)], true)
  }

  function Swept(entries: Entries, now: int): Entries {
    map k | k in entries && now <= entries[k].reset :: entries[k]
  }

  class Limiter {
    var entries: Entries
    const config: Config

    constructor (limit: int, window: nat)
      ensures entries == map[] && config == Config(limit, window)
    {
      entries := map[];
      config := Config(limit, window);
    }

    /** Refused exactly while a window is open whose count has reached the limit, and then nothing changes. */
    method Allow(key: string, now: int) returns (ok: bool)
      modifies this
      ensures (entries, ok) == Decide(config, old(entries), key, now)
      ensures !ok <==> key in old(entries) && now <= old(entries)[key].reset && old(entries)[key].count >= config.limit
      ensures !ok ==> entries == old(entries)
      ensures ok && key in old(entries) && now <= old(entries)[key].reset ==>
                entries == old(entries)[key := Entry(old(entries)[key].count + 1, old(entries)[key].reset)]
      ensures ok && !(key in old(entries) && now <= old(entries)[key].reset) ==>
                entries == old(entries)[key := Entry(1, now + config.window)]
    {
      if key !in entries || now > entries[key].reset {
        entries := entries[key := Entry(1, now + config.window)];
        return true;
      }
      var e := entries[key];
      if e.count >= config.limit {
        return false;
      }
      entries := entries[key := e.(count := e.count + 1)];
      return true;
    }

    method Sweep(now: int)
      modifies this
      ensures entries == Swept(old(entries), now)
      ensures forall k :: k in entries <==> k in old(entries) && now <= old(entries)[k].reset
      ensures forall k | k in entries :: entries[k] == old(entries)[k]
    {
      var rest := entries.Keys;
      while rest != {}
        invariant rest <= old(entries).Keys
        invariant forall k | k in old(entries) ::
                    (k in entries <==> k in rest || now <= old(entries)[k].reset)
        invariant forall k | k in entries :: k in old(entries) && entries[k] == old(entries)[k]
      {
        var k :| k in rest;
        if now > entries[k].reset {
          entries := entries - {k};
        }
        rest := rest - {k};
      }
    }
  }

  // ---------- Runs ----------

  datatype Event = Ask(key: string, time: int) | Tidy(time: int)

  function NextEntries(c: Config, entries: Entries, e: Event): Entries {
    match e
    case Ask(key, t) => Decide(c, entries, key, t).0
    case Tidy(t) => Swept(entries, t)
  }

  function FinalEntries(c: Config, entries: Entries, events: seq<Event>): Entries
    decreases |events|
  {
    if events == [] then entries else FinalEntries(c, NextEntries(c, entries, events[0]), events[1..])
  }

  /** The answers given to the requests, in order. */
  function Answers(c: Config, entries: Entries, events: seq<Event>): seq<bool>
    decreases |events|
  {
    if events == [] then []
    else (if events[0].Ask? then [Decide(c, entries, events[0].key, events[0].time).1] else [])
         + Answers(c, NextEntries(c, entries, events[0]), events[1..])
  }

  /** The requests admitted, in order. */
  function Admitted(c: Config, entries: Entries, events: seq<Event>): seq<Event>
    decreases |events|
  {
    if events == [] then []
    else (if events[0].Ask? && Decide(c, entries, events[0].key, events[0].time).1 then [events[0]] else [])
         + Admitted(c, NextEntries(c, entries, events[0]), events[1..])
  }

  function WithoutTidying(events: seq<Event>): seq<Event>
    decreases |events|
  {
    if events == [] then [] else (if events[0].Ask? then [events[0]] else []) + WithoutTidying(events[1..])
  }

  /** No event lies before `start`, and none lies before an earlier one. */
  predicate InTimeFrom(start: int, events: seq<Event>)
    decreases |events|
  {
    events == [] || (start <= events[0].time && InTimeFrom(events[0].time, events[1..]))
  }

  // ---------- The sweeper cannot be noticed ----------

  ghost predicate LiveAgree(e1: Entries, e2: Entries, now: int) {
    forall k :: IsOpen(e1, k, now) == IsOpen(e2, k, now) && (IsOpen(e1, k, now) ==> e1[k] == e2[k])
  }

  predicate IsOpen(entries: Entries, k: string, now: int) {
    k in entries && now <= entries[k].reset
  }

  lemma LaterAgree(e1: Entries, e2: Entries, now: int, later: int)
    requires LiveAgree(e1, e2, now) && now <= later
    ensures LiveAgree(e1, e2, later)
  {
    forall k ensures IsOpen(e1, k, later) == IsOpen(e2, k, later) && (IsOpen(e1, k, later) ==> e1[k] == e2[k]) {
      assert IsOpen(e1, k, now) == IsOpen(e2, k, now);
    }
  }

  lemma DecideAgrees(c: Config, e1: Entries, e2: Entries, key: string, now: int)
    requires LiveAgree(e1, e2, now)
    ensures Decide(c, e1, key, now).1 == Decide(c, e2, key, now).1
    ensures LiveAgree(Decide(c, e1, key, now).0, Decide(c, e2, key, now).0, now)
  {
    assert IsOpen(e1, key, now) == IsOpen(e2, key, now);
    var f1, f2 := Decide(c, e1, key, now).0, Decide(c, e2, key, now).0;
    forall k ensures IsOpen(f1, k, now) == IsOpen(f2, k, now) && (IsOpen(f1, k, now) ==> f1[k] == f2[k]) {
      assert IsOpen(e1, k, now) == IsOpen(e2, k, now);
    }
  }

  lemma {:induction false} TidyingIsUnseenFrom(c: Config, e1: Entries, e2: Entries, start: int, events: seq<Event>)
    requires LiveAgree(e1, e2, start) && InTimeFrom(start, events)
    ensures Answers(c, e1, events) == Answers(c, e2, WithoutTidying(events))
    ensures Admitted(c, e1, events) == Admitted(c, e2, WithoutTidying(events))
    decreases |events|
  {
    if events != [] {
      var e, rest := events[0], events[1..];
      LaterAgree(e1, e2, start, e.time);
      if e.Ask? {
        DecideAgrees(c, e1, e2, e.key, e.time);
        TidyingIsUnseenFrom(c, NextEntries(c, e1, e), NextEntries(c, e2, e), e.time, rest);
        assert WithoutTidying(events)[1..] == WithoutTidying(rest);
      } else {
        assert forall k :: IsOpen(Swept(e1, e.time), k, e.time) == IsOpen(e1, k, e.time);
        TidyingIsUnseenFrom(c, Swept(e1, e.time), e2, e.time, rest);
        assert WithoutTidying(events) == WithoutTidying(rest);
        assert Answers(c, e1, events) == Answers(c, Swept(e1, e.time), rest);
        assert Admitted(c, e1, events) == Admitted(c, Swept(e1, e.time), rest);
      }
    }
  }

  /** Wherever the sweeper runs, every request gets the answer it would get without a sweeper. */
  lemma TidyingIsUnseen(c: Config, entries: Entries, start: int, events: seq<Event>)
    requires InTimeFrom(start, events)
    ensures Answers(c, entries, events) == Answers(c, entries, WithoutTidying(events))
    ensures Admitted(c, entries, events) == Admitted(c, entries, WithoutTidying(events))
  {
    TidyingIsUnseenFrom(c, entries, entries, start, events);
  }

  // ---------- How much gets through ----------

  function CountWithin(admitted: seq<Event>, key: string, first: int, last: int): nat {
    if admitted == [] then 0
    else (if admitted[0].Ask? && admitted[0].key == key && first <= admitted[0].time <= last then 1 else 0)
         + CountWithin(admitted[1..], key, first, last)
  }

  /** Every window in the map admits something, and never more than the cap. */
  ghost predicate Sound(c: Config, entries: Entries) {
    forall k | k in entries :: 1 <= entries[k].count <= c.Cap()
  }

  /** What may still be admitted of `key` in the interval [a, a + window]: the window that is open now
      counts in full only when it ended before the interval. */
  function Budget(c: Config, entries: Entries, key: string, a: int): int {
    if key !in entries || entries[key].reset < a then 2 * c.Cap() - 1
    else var openedAt := entries[key].reset - c.window;
         if openedAt < a then 2 * c.Cap() - entries[key].count
         else if openedAt <= a + c.window then c.Cap() - entries[key].count
         else 0
  }

  ghost predicate OpenedBefore(c: Config, entries: Entries, key: string, now: int) {
    key in entries ==> entries[key].reset - c.window <= now
  }

  lemma BudgetStep(c: Config, entries: Entries, e: Event, key: string, a: int)
    requires e.Ask? && Sound(c, entries) && OpenedBefore(c, entries, key, e.time)
    ensures var after := Decide(c, entries, e.key, e.time).0;
            var ok := Decide(c, entries, e.key, e.time).1;
            && Sound(c, after) && OpenedBefore(c, after, key, e.time)
            && (if ok && e.key == key && a <= e.time <= a + c.window then 1 else 0) + Budget(c, after, key, a)
               <= Budget(c, entries, key, a)
  {
    if e.key == key && key in entries {
      assert 1 <= entries[key].count <= c.Cap();
    }
  }

  lemma {:induction false} BudgetIsEnough(c: Config, entries: Entries, events: seq<Event>, start: int, key: string, a: int)
    requires Sound(c, entries) && OpenedBefore(c, entries, key, start) && InTimeFrom(start, events)
    requires forall i | 0 <= i < |events| :: events[i].Ask?
    ensures CountWithin(Admitted(c, entries, events), key, a, a + c.window) <= Budget(c, entries, key, a)
    decreases |events|
  {
    if events != [] {
      var e, rest := events[0], events[1..];
      BudgetStep(c, entries, e, key, a);
      BudgetIsEnough(c, NextEntries(c, entries, e), rest, e.time, key, a);
      var more := Admitted(c, NextEntries(c, entries, e), rest);
      assert ([e] + more)[1..] == more && [] + more == more;
    } else if key in entries {
      assert 1 <= entries[key].count <= c.Cap();
    }
  }

  lemma {:induction false} OnlyAsks(start: int, events: seq<Event>)
    requires InTimeFrom(start, events)
    ensures InTimeFrom(start, WithoutTidying(events))
    ensures forall i | 0 <= i < |WithoutTidying(events)| :: WithoutTidying(events)[i].Ask?
    decreases |events|
  {
    if events != [] {
      OnlyAsks(events[0].time, events[1..]);
      var rest := WithoutTidying(events[1..]);
      if events[0].Ask? {
        assert WithoutTidying(events) == [events[0]] + rest;
        assert WithoutTidying(events)[1..] == rest;
      } else {
        assert WithoutTidying(events) == rest;
      }
    }
  }

  /** Starting empty, with sweeps anywhere: a closed interval as long as the window sees fewer than two
      full windows of one key. */
  lemma SlidingBound(c: Config, start: int, events: seq<Event>, key: string, a: int)
    requires InTimeFrom(start, events)
    ensures CountWithin(Admitted(c, map[], events), key, a, a + c.window) <= 2 * c.Cap() - 1
  {
    TidyingIsUnseen(c, map[], start, events);
    OnlyAsks(start, events);
    BudgetIsEnough(c, map[], WithoutTidying(events), start, key, a);
  }

  /** From the request that opens a window until the window's last moment, at most the cap is admitted. */
  lemma OpenedWindowBound(c: Config, entries: Entries, key: string, t: int, events: seq<Event>)
    requires Sound(c, entries) && !IsOpen(entries, key, t) && InTimeFrom(t, events)
    ensures CountWithin(Admitted(c, entries, [Ask(key, t)] + events), key, t, t + c.window) <= c.Cap()
  {
    var all := [Ask(key, t)] + events;
    assert all[1..] == events;
    TidyingIsUnseen(c, entries, t, all);
    OnlyAsks(t, events);
    var opening := Decide(c, entries, key, t).0;
    assert Sound(c, opening);
    var rest := WithoutTidying(events);
    BudgetIsEnough(c, opening, rest, t, key, t);
    assert WithoutTidying(all) == [Ask(key, t)] + rest;
    assert ([Ask(key, t)] + rest)[1..] == rest;
    assert Admitted(c, entries, [Ask(key, t)] + rest) == [Ask(key, t)] + Admitted(c, opening, rest);
    assert ([Ask(key, t)] + Admitted(c, opening, rest))[1..] == Admitted(c, opening, rest);
  }

  // ---------- Nobody is refused early ----------

  /** Every count in the map stands for requests of its key that were admitted since the window opened. */
  ghost predicate Counted(c: Config, entries: Entries, prior: seq<Event>, now: int) {
    && (forall k | k in entries ::
          && entries[k].reset - c.window <= now
          && entries[k].count <= CountWithin(prior, k, entries[k].reset - c.window, now))
    && (forall i | 0 <= i < |prior| :: prior[i].time <= now)
  }

  lemma {:induction false} CountParts(xs: seq<Event>, ys: seq<Event>, key: string, first: int, last: int)
    ensures CountWithin(xs + ys, key, first, last) == CountWithin(xs, key, first, last) + CountWithin(ys, key, first, last)
    decreases |xs|
  {
    if xs == [] {
      assert xs + ys == ys;
    } else {
      assert (xs + ys)[1..] == xs[1..] + ys;
      CountParts(xs[1..], ys, key, first, last);
    }
  }

  lemma {:induction false} CountGrows(xs: seq<Event>, key: string, first: int, last: int, first': int, last': int)
    requires first' <= first && last <= last'
    ensures CountWithin(xs, key, first, last) <= CountWithin(xs, key, first', last')
    decreases |xs|
  {
    if xs != [] {
      CountGrows(xs[1..], key, first, last, first', last');
    }
  }

  lemma CountOne(e: Event, key: string, first: int, last: int)
    ensures CountWithin([e], key, first, last) == if e.Ask? && e.key == key && first <= e.time <= last then 1 else 0
  {
    assert [e][1..] == [];
  }

  lemma StepCounts(c: Config, entries: Entries, prior: seq<Event>, start: int, e: Event)
    requires Counted(c, entries, prior, start) && start <= e.time
    ensures var more: seq<Event> := if e.Ask? && Decide(c, entries, e.key, e.time).1 then [e] else [];
      Counted(c, NextEntries(c, entries, e), prior + more, e.time)
  {
    var after := NextEntries(c, entries, e);
    var more: seq<Event> := if e.Ask? && Decide(c, entries, e.key, e.time).1 then [e] else [];
    forall k | k in after
      ensures after[k].reset - c.window <= e.time
      ensures after[k].count <= CountWithin(prior + more, k, after[k].reset - c.window, e.time)
    {
      CountParts(prior, more, k, after[k].reset - c.window, e.time);
      if k in entries && after[k].reset == entries[k].reset {
        CountGrows(prior, k, entries[k].reset - c.window, start, entries[k].reset - c.window, e.time);
      }
      StepCountsKey(c, entries, CountWithin(prior, k, after[k].reset - c.window, e.time), start, e, k, more);
    }
  }

  /** One key: n of its requests have been admitted since its window opened. */
  lemma StepCountsKey(c: Config, entries: Entries, n: nat, start: int, e: Event, k: string, more: seq<Event>)
    requires k in NextEntries(c, entries, e) && start <= e.time
    requires k in entries ==> entries[k].reset - c.window <= start
    requires k in entries && NextEntries(c, entries, e)[k].reset == entries[k].reset ==> entries[k].count <= n
    requires more == if e.Ask? && Decide(c, entries, e.key, e.time).1 then [e] else []
    ensures var after := NextEntries(c, entries, e)[k];
      && after.reset - c.window <= e.time
      && after.count <= n + CountWithin(more, k, after.reset - c.window, e.time)
  {
    if more != [] {
      CountOne(e, k, NextEntries(c, entries, e)[k].reset - c.window, e.time);
    }
  }

  lemma CountedLater(c: Config, entries: Entries, prior: seq<Event>, start: int, now: int)
    requires Counted(c, entries, prior, start) && start <= now
    ensures Counted(c, entries, prior, now)
  {
    forall k | k in entries ensures entries[k].count <= CountWithin(prior, k, entries[k].reset - c.window, now) {
      CountGrows(prior, k, entries[k].reset - c.window, start, entries[k].reset - c.window, now);
    }
  }

  lemma {:induction false} RunCounts(c: Config, entries: Entries, prior: seq<Event>, start: int, events: seq<Event>, now: int)
    requires Counted(c, entries, prior, start) && InTimeFrom(start, events) && start <= now
    requires events != [] ==> events[|events| - 1].time <= now
    ensures Counted(c, FinalEntries(c, entries, events), prior + Admitted(c, entries, events), now)
    decreases |events|
  {
    if events == [] {
      assert prior + [] == prior;
      CountedLater(c, entries, prior, start, now);
    } else {
      var e, rest := events[0], events[1..];
      var more: seq<Event> := if e.Ask? && Decide(c, entries, e.key, e.time).1 then [e] else [];
      var next := NextEntries(c, entries, e);
      var later := Admitted(c, next, rest);
      StepCounts(c, entries, prior, start, e);
      LastIsLate(e.time, rest);
      assert rest != [] ==> rest[|rest| - 1] == events[|events| - 1];
      RunCounts(c, next, prior + more, e.time, rest, now);
      Regroup(prior, more, later);
      assert Admitted(c, entries, events) == more + later;
    }
  }

  lemma Regroup(xs: seq<Event>, ys: seq<Event>, zs: seq<Event>)
    ensures xs + (ys + zs) == (xs + ys) + zs
  {
  }

  lemma {:induction false} LastIsLate(start: int, events: seq<Event>)
    requires InTimeFrom(start, events)
    ensures events != [] ==> start <= events[|events| - 1].time
    decreases |events|
  {
    if events != [] {
      LastIsLate(events[0].time, events[1..]);
    }
  }

  lemma OneAnswer(c: Config, entries: Entries, key: string, t: int)
    ensures Answers(c, entries, [Ask(key, t)]) == [Decide(c, entries, key, t).1]
  {
    var next := NextEntries(c, entries, Ask(key, t));
    assert [Ask(key, t)][1..] == [] && Answers(c, next, []) == [];
    assert [Decide(c, entries, key, t).1] + [] == [Decide(c, entries, key, t).1];
  }

  lemma RefusedIff(c: Config, entries: Entries, key: string, t: int)
    ensures Answers(c, entries, [Ask(key, t)]) == [false] <==>
            key in entries && t <= entries[key].reset && entries[key].count >= c.limit
  {
    OneAnswer(c, entries, key, t);
  }

  /** Starting empty, with sweeps anywhere: a request is refused only if as many requests of its key as the
      limit have been admitted in the window length that ends with it. */
  lemma RefusedOnlyWhenFull(c: Config, start: int, past: seq<Event>, key: string, t: int)
    requires InTimeFrom(start, past) && start <= t && (past != [] ==> past[|past| - 1].time <= t)
    requires Answers(c, FinalEntries(c, map[], past), [Ask(key, t)]) == [false]
    ensures CountWithin(Admitted(c, map[], past), key, t - c.window, t) >= c.limit
  {
    var entries, admitted := FinalEntries(c, map[], past), Admitted(c, map[], past);
    RefusedIff(c, entries, key, t);
    RunCounts(c, map[], [], start, past, t);
    assert [] + admitted == admitted;
    CountGrows(admitted, key, entries[key].reset - c.window, t, t - c.window, t);
  }

  /** A request that is refused changes the answer to no later request. */
  lemma RefusalIsUnseen(c: Config, entries: Entries, key: string, t: int, rest: seq<Event>)
    requires Answers(c, entries, [Ask(key, t)]) == [false]
    ensures Answers(c, entries, [Ask(key, t)] + rest) == [false] + Answers(c, entries, rest)
  {
    OneAnswer(c, entries, key, t);
    assert ([Ask(key, t)] + rest)[1..] == rest;
  }

  /** The same over a whole run: without the requests that are refused every other gets the same answer. */
  lemma {:induction false} RefusalsAreUnseen(c: Config, entries: Entries, events: seq<Event>)
    requires forall i | 0 <= i < |events| :: events[i].Ask?
    ensures Answers(c, entries, Admitted(c, entries, events)) == seq(|Admitted(c, entries, events)|, _ => true)
    ensures FinalEntries(c, entries, Admitted(c, entries, events)) == FinalEntries(c, entries, events)
    decreases |events|
  {
    if events != [] {
      var e, rest := events[0], events[1..];
      var next := NextEntries(c, entries, e);
      RefusalsAreUnseen(c, next, rest);
      var later := Admitted(c, next, rest);
      if Decide(c, entries, e.key, e.time).1 {
        assert Admitted(c, entries, events) == [e] + later && ([e] + later)[1..] == later;
        assert [true] + seq(|later|, _ => true) == seq(|later| + 1, _ => true);
      } else {
        assert Admitted(c, entries, events) == later;
      }
    }
  }

  /** Requests of other keys do not matter either. */
  lemma OtherKeysAreUnseen(c: Config, entries: Entries, other: string, t: int, key: string, now: int)
    requires other != key
    ensures Answers(c, NextEntries(c, entries, Ask(other, t)), [Ask(key, now)]) == Answers(c, entries, [Ask(key, now)])
  {
    OneAnswer(c, entries, key, now);
    OneAnswer(c, NextEntries(c, entries, Ask(other, t)), key, now);
  }

  // ---------- The bound is reached ----------

  function Burst(key: string, t: int, n: nat): seq<Event> {
    seq(n, _ => Ask(key, t))
  }

  lemma BurstStarts(key: string, t: int, n: nat, tail: seq<Event>)
    requires n > 0
    ensures Burst(key, t, n) + tail == [Ask(key, t)] + (Burst(key, t, n - 1) + tail)
  {
    assert Burst(key, t, n) == [Ask(key, t)] + Burst(key, t, n - 1);
  }

  lemma AskPasses(c: Config, entries: Entries, key: string, t: int, rest: seq<Event>)
    requires IsOpen(entries, key, t) && entries[key].count < c.limit
    ensures Admitted(c, entries, [Ask(key, t)] + rest) ==
            [Ask(key, t)] + Admitted(c, entries[key := Entry(entries[key].count + 1, entries[key].reset)], rest)
  {
    assert ([Ask(key, t)] + rest)[1..] == rest;
  }

  lemma {:induction false} BurstPasses(c: Config, entries: Entries, key: string, t: int, n: nat, tail: seq<Event>)
    requires IsOpen(entries, key, t) && entries[key].count + n <= c.limit
    ensures Admitted(c, entries, Burst(key, t, n) + tail) ==
            Burst(key, t, n) + Admitted(c, entries[key := Entry(entries[key].count + n, entries[key].reset)], tail)
    decreases n
  {
    var after := entries[key := Entry(entries[key].count + n, entries[key].reset)];
    if n == 0 {
      assert Burst(key, t, n) + tail == tail && after == entries;
    } else {
      var next := entries[key := Entry(entries[key].count + 1, entries[key].reset)];
      BurstStarts(key, t, n, tail);
      AskPasses(c, entries, key, t, Burst(key, t, n - 1) + tail);
      BurstPasses(c, next, key, t, n - 1, tail);
      assert next[key := Entry(next[key].count + (n - 1), next[key].reset)] == after;
      BurstStarts(key, t, n, Admitted(c, after, tail));
    }
  }

  lemma {:induction false} BurstCount(key: string, t: int, n: nat, tail: seq<Event>, first: int, last: int)
    requires first <= t <= last
    ensures CountWithin(Burst(key, t, n) + tail, key, first, last) == n + CountWithin(tail, key, first, last)
    decreases n
  {
    if n == 0 {
      assert Burst(key, t, n) + tail == tail;
    } else {
      assert (Burst(key, t, n) + tail)[1..] == Burst(key, t, n - 1) + tail;
      BurstCount(key, t, n - 1, tail, first, last);
    }
  }

  lemma {:induction false} BurstInTime(key: string, start: int, t: int, n: nat, tail: seq<Event>)
    requires start <= t && InTimeFrom(t, tail)
    ensures InTimeFrom(start, Burst(key, t, n) + tail)
    decreases n
  {
    if n == 0 {
      assert Burst(key, t, n) + tail == tail;
    } else {
      assert (Burst(key, t, n) + tail)[1..] == Burst(key, t, n - 1) + tail;
      BurstInTime(key, t, t, n - 1, tail);
    }
  }

  /** A full window at time t: the request that opens it and the rest of the limit. */
  lemma FullWindow(c: Config, entries: Entries, key: string, t: int, later: int, tail: seq<Event>) returns (full: Entries)
    requires c.limit >= 1 && !IsOpen(entries, key, t) && t <= later <= t + c.window
    ensures full == entries[key := Entry(c.limit, t + c.window)]
    ensures Admitted(c, entries, [Ask(key, t)] + (Burst(key, later, c.limit - 1) + tail)) ==
            [Ask(key, t)] + (Burst(key, later, c.limit - 1) + Admitted(c, full, tail))
  {
    full := entries[key := Entry(c.limit, t + c.window)];
    var opening := entries[key := Entry(1, t + c.window)];
    var rest := Burst(key, later, c.limit - 1) + tail;
    assert opening[key := Entry(1 + (c.limit - 1), t + c.window)] == full;
    BurstPasses(c, opening, key, later, c.limit - 1, tail);
    AskOpens(c, entries, key, t, rest);
  }

  lemma AskOpens(c: Config, entries: Entries, key: string, t: int, rest: seq<Event>)
    requires c.limit >= 1 && !IsOpen(entries, key, t)
    ensures Admitted(c, entries, [Ask(key, t)] + rest) ==
            [Ask(key, t)] + Admitted(c, entries[key := Entry(1, t + c.window)], rest)
  {
    assert ([Ask(key, t)] + rest)[1..] == rest;
  }

  function LatePart(c: Config, key: string): seq<Event>
    requires c.limit >= 1
  {
    [Ask(key, c.window + 1)] + (Burst(key, c.window + 1, c.limit - 1) + [])
  }

  /** One request at 0, the rest of the limit at the window's last moment, a full window right after. */
  function WorstCase(c: Config, key: string): seq<Event>
    requires c.limit >= 1
  {
    [Ask(key, 0)] + (Burst(key, c.window, c.limit - 1) + LatePart(c, key))
  }

  lemma WorstCaseIsInTime(c: Config, key: string)
    requires c.limit >= 1
    ensures InTimeFrom(0, WorstCase(c, key))
  {
    var w, m := c.window, c.limit - 1;
    BurstInTime(key, w + 1, w + 1, m, []);
    assert LatePart(c, key)[1..] == Burst(key, w + 1, m) + [];
    BurstInTime(key, 0, w, m, LatePart(c, key));
    assert WorstCase(c, key)[1..] == Burst(key, w, m) + LatePart(c, key);
  }

  lemma WorstCaseCount(c: Config, key: string)
    requires c.limit >= 1 && c.window >= 1
    ensures CountWithin(WorstCase(c, key), key, 1, 1 + c.window) == 2 * c.limit - 1
  {
    var w, m := c.window, c.limit - 1;
    BurstCount(key, w + 1, m, [], 1, 1 + w);
    assert LatePart(c, key)[1..] == Burst(key, w + 1, m) + [];
    BurstCount(key, w, m, LatePart(c, key), 1, 1 + w);
    assert WorstCase(c, key)[1..] == Burst(key, w, m) + LatePart(c, key);
  }

  /** For every limit and window there is a run that reaches the sliding bound. */
  lemma SlidingBoundIsReached(c: Config, key: string)
    requires c.limit >= 1 && c.window >= 1
    ensures InTimeFrom(0, WorstCase(c, key))
    ensures CountWithin(Admitted(c, map[], WorstCase(c, key)), key, 1, 1 + c.window) == 2 * c.Cap() - 1
  {
    WorstCaseIsInTime(c, key);
    WorstCaseCount(c, key);
    var full := FullWindow(c, map[], key, 0, c.window, LatePart(c, key));
    var again := FullWindow(c, full, key, c.window + 1, c.window + 1, []);
    assert Admitted(c, full, LatePart(c, key)) == LatePart(c, key);
  }
}
