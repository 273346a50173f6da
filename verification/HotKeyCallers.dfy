// Many callers of the hot-key tracker (cache/hotkey.go): the atomic sections of Record
// and prune interleave.
module HotKeyCallers {
  import opened Basics
  import opened HotKeys

  // A caller between the sections of Record.  attached: the counter it holds is still
  // the one in the map; prune drops the counter of a key that is not hot, and whoever
  // holds it goes on counting there.
  datatype Caller = Entered(key: string, attached: bool) | Counted(key: string, n: nat)

  datatype Shared = Shared(counts: map<string, nat>, hot: map<string, int>, callers: map<nat, Caller>)

  // n is what a dropped counter shows, which can be any number.
  datatype Section =
    | Enter(id: nat, key: string)
    | Add(id: nat, n: nat)
    | Check(id: nat, now: int)
    | PruneAll(now: int)

  function Shown(s: Shared, key: string): nat {
    if key in s.counts then s.counts[key] else 0
  }

  function Detach(caller: Caller, hot: set<string>): Caller {
    match caller
    case Entered(key, attached) => Entered(key, attached && key in hot)
    case Counted(_, _) => caller
  }

  function Enact(c: Config, s: Shared, a: Section): Shared {
    match a
    case Enter(id, key) =>
      if id in s.callers then s
      else s.(counts := s.counts[key := Shown(s, key)], callers := s.callers[id := Entered(key, true)])
    case Add(id, n) =>
      if id !in s.callers || !s.callers[id].Entered? then s
      else
        var Entered(key, attached) := s.callers[id];
        var count := if attached then Shown(s, key) + 1 else n;
        s.(counts := if attached then s.counts[key := count] else s.counts,
           callers := if count % SAMPLE != 0 then s.callers - {id} else s.callers[id := Counted(key, count)])
    case Check(id, now) =>
      if id !in s.callers || !s.callers[id].Counted? then s
      else
        var Counted(key, n) := s.callers[id];
        s.(hot := if key in s.counts && n >= c.threshold then s.hot[key := now] else s.hot,
           callers := s.callers - {id})
    case PruneAll(now) =>
      Shared(map k | k in s.counts && k in s.hot :: 0,
             map k | k in s.hot && now - s.hot[k] <= c.cooldown :: s.hot[k],
             map id | id in s.callers :: Detach(s.callers[id], s.hot.Keys))
  }

  function EnactAll(c: Config, sections: seq<Section>): Shared {
    if sections == [] then Shared(map[], map[], map[])
    else Enact(c, EnactAll(c, Front(sections)), Last(sections))
  }

  // In every interleaving every hot key has a counter, so that a later prune can
  // forget it.
  lemma {:induction false} HotKeysAreCounted(c: Config, sections: seq<Section>)
    ensures EnactAll(c, sections).hot.Keys <= EnactAll(c, sections).counts.Keys
  {
    if sections != [] {
      HotKeysAreCounted(c, Front(sections));
      var s := EnactAll(c, Front(sections));
      assert forall k :: k in s.hot ==> k in s.counts;
    }
  }

  // The callers that hold a counter of the key and have not counted yet; those among
  // them whose counter was dropped.
  function Waiting(s: Shared, key: string): set<nat> {
    set id | id in s.callers && s.callers[id].Entered? && s.callers[id].key == key
  }

  function Detached(s: Shared, key: string): set<nat> {
    set id | id in Waiting(s, key) && !s.callers[id].attached
  }

  // The section counts an access to the key.
  predicate Counts(s: Shared, a: Section, key: string) {
    a.Add? && a.id in Waiting(s, key)
  }

  // How many accesses to the key were counted since the last prune, on any counter.
  function Accessed(c: Config, sections: seq<Section>, key: string): nat {
    if sections == [] || Last(sections).PruneAll? then 0
    else
      Accessed(c, Front(sections), key) +
      if Counts(EnactAll(c, Front(sections)), Last(sections), key) then 1 else 0
  }

  // How many callers were about to count an access to the key when that prune came.
  function Surprised(c: Config, sections: seq<Section>, key: string): nat {
    if sections == [] then 0
    else if Last(sections).PruneAll? then |Waiting(EnactAll(c, Front(sections)), key)|
    else Surprised(c, Front(sections), key)
  }

  // Every access that went to a dropped counter used up one of the surprised callers.
  ghost predicate Tally(s: Shared, key: string, accessed: nat, surprised: nat) {
    Shown(s, key) <= accessed && accessed + |Detached(s, key)| <= Shown(s, key) + surprised
  }

  lemma SectionTally(c: Config, s: Shared, a: Section, key: string, accessed: nat, surprised: nat)
    requires Tally(s, key, accessed, surprised) && !a.PruneAll?
    ensures Tally(Enact(c, s, a), key, accessed + if Counts(s, a, key) then 1 else 0, surprised)
  {
    var s' := Enact(c, s, a);
    if Counts(s, a, key) {
      if s.callers[a.id].attached {
        assert Detached(s', key) == Detached(s, key);
      } else {
        assert Detached(s', key) == Detached(s, key) - {a.id};
      }
    } else {
      assert Detached(s', key) == Detached(s, key);
    }
  }

  lemma PruneTally(c: Config, s: Shared, now: int, key: string)
    ensures Tally(Enact(c, s, PruneAll(now)), key, 0, |Waiting(s, key)|)
  {
    var s' := Enact(c, s, PruneAll(now));
    assert Detached(s', key) <= Waiting(s, key);
    SubsetAtMost(Detached(s', key), Waiting(s, key));
  }

  lemma {:induction false} AllTally(c: Config, sections: seq<Section>, key: string)
    ensures Tally(EnactAll(c, sections), key, Accessed(c, sections, key), Surprised(c, sections, key))
  {
    if sections != [] {
      var s := EnactAll(c, Front(sections));
      if Last(sections).PruneAll? {
        PruneTally(c, s, Last(sections).now, key);
      } else {
        AllTally(c, Front(sections), key);
        SectionTally(c, s, Last(sections), key, Accessed(c, Front(sections), key), Surprised(c, Front(sections), key));
      }
    }
  }

  // In every interleaving a counter shows at most the accesses since the last prune,
  // and misses at most one for each caller that prune came between.
  lemma AccessesMissed(c: Config, sections: seq<Section>, key: string)
    ensures var count := Shown(EnactAll(c, sections), key);
            count <= Accessed(c, sections, key) <= count + Surprised(c, sections, key)
  {
    AllTally(c, sections, key);
  }

  lemma OneMore(c: Config, sections: seq<Section>, a: Section, key: string)
    ensures EnactAll(c, sections + [a]) == Enact(c, EnactAll(c, sections), a)
    ensures a.Enter? ==> Accessed(c, sections + [a], key) == Accessed(c, sections, key)
    ensures Accessed(c, sections + [PruneAll(0)], key) == 0
  {
    assert Front(sections + [a]) == sections;
  }

  // And it can miss one: here a caller counts on a counter that was dropped.
  lemma AccessIsMissed(c: Config, key: string)
    ensures var sections := [Enter(0, key)] + [PruneAll(0)] + [Enter(1, key)] + [Add(0, 1)];
            Accessed(c, sections, key) == 1 && Shown(EnactAll(c, sections), key) == 0
  {
    var one := [Enter(0, key)];
    var two := one + [PruneAll(0)];
    var three := two + [Enter(1, key)];
    assert [] + one == one;
    OneMore(c, [], Enter(0, key), key);
    OneMore(c, one, PruneAll(0), key);
    OneMore(c, two, Enter(1, key), key);
    OneMore(c, three, Add(0, 1), key);
    assert EnactAll(c, two).callers[0] == Entered(key, false) && EnactAll(c, two).counts == map[];
    assert Front(three + [Add(0, 1)]) == three;
  }
}
