// The hot-key tracker (cache/hotkey.go).  The clock is a parameter.
module HotKeys {
  import opened Basics

  const SAMPLE := 64   // the threshold is looked at on every 64th access

  // ----- One caller at a time -----

  datatype Tracker = Tracker(counters: map<string, nat>, hot: map<string, int>)

  datatype Config = Config(threshold: int, cooldown: int)

  datatype Op = Record(key: string, now: int) | Prune(now: int)

  function Count(s: Tracker, key: string): nat {
    if key in s.counters then s.counters[key] else 0
  }

  predicate Due(c: Config, n: nat) {
    n % SAMPLE == 0 && n >= c.threshold
  }

  // The key just became hot.
  predicate JustHot(c: Config, s: Tracker, key: string) {
    Due(c, Count(s, key) + 1) && key !in s.hot
  }

  function Do(c: Config, s: Tracker, op: Op): Tracker {
    match op
    case Record(key, now) =>
      var n := Count(s, key) + 1;
      Tracker(s.counters[key := n], if Due(c, n) then s.hot[key := now] else s.hot)
    case Prune(now) =>
      Tracker(map k | k in s.counters && k in s.hot :: 0,
              map k | k in s.hot && now - s.hot[k] <= c.cooldown :: s.hot[k])
  }

  function After(c: Config, ops: seq<Op>): Tracker {
    if ops == [] then Tracker(map[], map[]) else Do(c, After(c, Front(ops)), Last(ops))
  }

  // How often the key was accessed since the last prune.
  function Accesses(ops: seq<Op>, key: string): nat {
    if ops == [] then 0
    else
      match Last(ops)
      case Record(k, _) => Accesses(Front(ops), key) + if k == key then 1 else 0
      case Prune(_) => 0
  }

  // The first positive multiple of 64 that reaches the threshold.
  function Trip(threshold: int): (n: nat)
    ensures 0 < n && n % SAMPLE == 0 && n >= threshold
    ensures forall k :: 0 < k < n && k % SAMPLE == 0 ==> k < threshold
  {
    if threshold <= SAMPLE then SAMPLE else (threshold + SAMPLE - 1) / SAMPLE * SAMPLE
  }

  // Hot keys are counted, counts are accesses since the last prune, and a key
  // that is not hot has not reached the trip point.
  ghost predicate Inv(c: Config, ops: seq<Op>, key: string) {
    var s := After(c, ops);
    && (key in s.hot ==> key in s.counters)
    && Count(s, key) == Accesses(ops, key)
    && (key !in s.hot ==> Accesses(ops, key) < Trip(c.threshold))
  }

  lemma {:induction false} RunInv(c: Config, ops: seq<Op>, key: string)
    ensures Inv(c, ops, key)
  {
    if ops != [] { RunInv(c, Front(ops), key); }
  }

  // In every run, a key that is not hot becomes hot exactly on the access that
  // makes the accesses since the last prune reach the trip point.
  lemma BecomesHotAtTrip(c: Config, ops: seq<Op>, key: string)
    requires key !in After(c, ops).hot
    ensures JustHot(c, After(c, ops), key) <==> Accesses(ops, key) + 1 == Trip(c.threshold)
  {
    RunInv(c, ops, key);
  }

  // When the key was last found busy, unless a prune came too long after that.
  function HotSince(c: Config, ops: seq<Op>, key: string): Option<int> {
    if ops == [] then None
    else
      var before := HotSince(c, Front(ops), key);
      match Last(ops)
      case Record(k, now) => if k == key && Due(c, Accesses(ops, key)) then Some(now) else before
      case Prune(now) => if before.Some? && now - before.value > c.cooldown then None else before
  }

  // In every run exactly the keys found busy, and not since forgotten, are hot, with
  // the time they were last found busy.
  lemma {:induction false} HotExactlyWhenBusy(c: Config, ops: seq<Op>, key: string)
    ensures HotSince(c, ops, key) ==
            if key in After(c, ops).hot then Some(After(c, ops).hot[key]) else None
  {
    if ops != [] {
      HotExactlyWhenBusy(c, Front(ops), key);
      RunInv(c, Front(ops), key);
    }
  }

  ghost predicate Idle(ops: seq<Op>, key: string) {
    forall i :: 0 <= i < |ops| ==> !(ops[i].Record? && ops[i].key == key)
  }

  lemma {:induction false} IdleStaysCold(c: Config, ops: seq<Op>, rest: seq<Op>, key: string)
    requires key !in After(c, ops).hot && Idle(rest, key)
    ensures key !in After(c, ops + rest).hot
  {
    if rest == [] {
      assert ops + rest == ops;
    } else {
      IdleStaysCold(c, ops, Front(rest), key);
      assert Front(ops + rest) == ops + Front(rest);
    }
  }

  // A key that has been idle longer than the cooldown when a prune runs is gone
  // from both maps after the next prune, if it stays idle.
  lemma IdleKeysAreForgotten(c: Config, ops: seq<Op>, key: string, now: int, rest: seq<Op>, now': int)
    requires key in After(c, ops).hot ==> now - After(c, ops).hot[key] > c.cooldown
    requires Idle(rest, key)
    ensures var s := After(c, ops + [Prune(now)] + rest + [Prune(now')]);
            key !in s.counters && key !in s.hot
  {
    var pruned := ops + [Prune(now)];
    assert Front(pruned) == ops;
    IdleStaysCold(c, pruned, rest, key);
    assert Front(pruned + rest + [Prune(now')]) == pruned + rest;
  }

  // ----- The tracker object -----

  class HotKeyTracker {
    const config: Config
    var counters: map<string, nat>
    var hotKeys: map<string, int>

    ghost function State(): Tracker
      reads this
    {
      Tracker(counters, hotKeys)
    }

    constructor (config: Config)
      ensures this.config == config && State() == Tracker(map[], map[])
    {
      this.config := config;
      counters, hotKeys := map[], map[];
    }

    method Record(key: string, now: int) returns (justHot: bool)
      modifies this
      ensures State() == Do(config, old(State()), Op.Record(key, now))
      ensures justHot == JustHot(config, old(State()), key)
    {
      if key !in counters {
        counters := counters[key := 0];
      }
      var n := counters[key] + 1;
      counters := counters[key := n];
      if n % SAMPLE != 0 {
        return false;
      }
      justHot := CheckHot(key, n, now);
    }

    method CheckHot(key: string, count: int, now: int) returns (justHot: bool)
      modifies this`hotKeys
      ensures justHot <==> key in counters && count >= config.threshold && key !in old(hotKeys)
      ensures hotKeys == if key in counters && count >= config.threshold then old(hotKeys)[key := now] else old(hotKeys)
    {
      if key !in counters {
        return false;
      }
      if count >= config.threshold {
        if key !in hotKeys {
          hotKeys := hotKeys[key := now];
          return true;
        }
        hotKeys := hotKeys[key := now];
      }
      return false;
    }

    method Prune(now: int)
      modifies this
      ensures State() == Do(config, old(State()), Op.Prune(now))
    {
      ResetCounters();
      DropStale(now);
    }

    // The first loop of prune.
    method ResetCounters()
      modifies this`counters
      ensures counters == map k | k in old(counters) && k in hotKeys :: 0
    {
      ghost var before := counters;
      var todo := counters.Keys;
      while todo != {}
        invariant todo <= before.Keys
        invariant counters == map k | k in before && (k in todo || k in hotKeys) :: if k in todo then before[k] else 0
      {
        var k :| k in todo;
        counters := counters[k := 0];
        if k !in hotKeys {
          counters := counters - {k};
        }
        todo := todo - {k};
      }
    }

    // The second loop of prune.
    method DropStale(now: int)
      modifies this`hotKeys
      ensures hotKeys == map k | k in old(hotKeys) && now - old(hotKeys)[k] <= config.cooldown :: old(hotKeys)[k]
    {
      ghost var before := hotKeys;
      var todo := hotKeys.Keys;
      while todo != {}
        invariant todo <= before.Keys
        invariant hotKeys == map k | k in before && (k in todo || now - before[k] <= config.cooldown) :: before[k]
      {
        var k :| k in todo;
        if now - hotKeys[k] > config.cooldown {
          hotKeys := hotKeys - {k};
        }
        todo := todo - {k};
      }
    }
  }
}
