// A cache group (cache/geecache.go) and the slot invalidator (cache/invalidator.go).
// Replies of peers and of the Getter are parameters; None is a failure.
module CacheGroup {
  import opened Basics
  import opened ExpiringCache
  import Lru = LruCache
  import SlotPlanner

  // ----- Values -----

  datatype GroupState = GroupState(contents: Contents, dirty: bool)

  // A lookup with the replies of the candidate peers, in order, and of the Getter;
  // a replica pushed by a peer; a removal; the mark left by a slot migration.
  datatype GroupOp =
    | Get(key: string, now: int, replies: seq<Option<ByteView>>, loaded: Option<ByteView>)
    | StoreReplica(key: string, value: ByteView)
    | Delete(key: string)
    | MarkSlotMigrated

  // The first peer that answers, else the Getter.
  function Fetched(replies: seq<Option<ByteView>>, loaded: Option<ByteView>): Option<ByteView> {
    if replies == [] then loaded
    else if replies[0].Some? then replies[0]
    else Fetched(replies[1..], loaded)
  }

  // What is left of the cache when a lookup starts.
  function Base(g: GroupState): Contents {
    if g.dirty then [] else g.contents
  }

  function Put(max: nat, s: Contents, key: string, value: ByteView): Contents {
    ExpiringCache.Do(max, s, Stored(key, CacheEntry(value, NEVER)))
  }

  predicate LocalHit(g: GroupState, op: GroupOp) {
    op.Get? && op.key != "" && Answer(Base(g), op.key, op.now).Some?
  }

  // What an operation stores, if anything.
  function Stores(g: GroupState, op: GroupOp): Option<ByteView> {
    match op
    case Get(key, now, replies, loaded) =>
      if key == "" || LocalHit(g, op) then None else Fetched(replies, loaded)
    case StoreReplica(_, value) => Some(value)
    case Delete(_) => None
    case MarkSlotMigrated => None
  }

  function GroupDo(max: nat, g: GroupState, op: GroupOp): GroupState {
    match op
    case Get(key, now, _, _) =>
      if key == "" then g
      else
        var looked := ExpiringCache.Do(max, Base(g), Got(key, now));
        GroupState(match Stores(g, op)
                   case None => looked
                   case Some(v) => Put(max, looked, key, v),
                   false)
    case StoreReplica(key, value) => g.(contents := Put(max, g.contents, key, value))
    case Delete(key) => g.(contents := ExpiringCache.Do(max, g.contents, Deleted(key)))
    case MarkSlotMigrated => g.(dirty := true)
  }

  // None is an error.
  function GroupAnswer(g: GroupState, op: GroupOp): Option<ByteView> {
    if !op.Get? || op.key == "" then None
    else if LocalHit(g, op) then Answer(Base(g), op.key, op.now)
    else Fetched(op.replies, op.loaded)
  }

  function GroupAfter(max: nat, ops: seq<GroupOp>): GroupState {
    if ops == [] then GroupState([], false)
    else GroupDo(max, GroupAfter(max, Front(ops)), Last(ops))
  }

  // ----- Freshness after a migration -----

  // How many migrations have been marked.
  function Epoch(ops: seq<GroupOp>): nat {
    if ops == [] then 0 else Epoch(Front(ops)) + if Last(ops).MarkSlotMigrated? then 1 else 0
  }

  datatype Given = Given(epoch: nat, value: ByteView)

  // The value last stored for a key, and after how many migrations.
  function LastGiven(max: nat, ops: seq<GroupOp>, key: string): Option<Given> {
    if ops == [] then None
    else
      var op, stored := Last(ops), Stores(GroupAfter(max, Front(ops)), Last(ops));
      if stored.Some? && op.key == key then Some(Given(Epoch(ops), stored.value))
      else LastGiven(max, Front(ops), key)
  }

  // What the cache holds was given last and never expires; unless it is marked
  // dirty, it was given after the last migration.
  ghost predicate HoldsFresh(max: nat, ops: seq<GroupOp>, key: string) {
    var g := GroupAfter(max, ops);
    match Lru.Lookup(g.contents, key)
    case None => true
    case Some(e) =>
      var given := LastGiven(max, ops, key);
      && e.expiresAt == NEVER
      && given.Some? && given.value.value == e.value
      && (!g.dirty ==> given.value.epoch == Epoch(ops))
  }

  lemma {:induction false} RunHoldsFresh(max: nat, ops: seq<GroupOp>, key: string)
    ensures HoldsFresh(max, ops, key)
  {
    if ops != [] {
      var g, op := GroupAfter(max, Front(ops)), Last(ops);
      RunHoldsFresh(max, Front(ops), key);
      match op
      case Get(k, now, _, _) =>
        if k != "" {
          LookupTouch(Base(g), key, k);
          LookupDrop(Lru.Touch(Base(g), k), key, k);
          if Stores(g, op).Some? {
            LookupPut(EntryLen(), ExpiringCache.Do(max, Base(g), Got(k, now)), max, k,
                      CacheEntry(Stores(g, op).value, NEVER), key);
          }
        }
      case StoreReplica(k, v) => LookupPut(EntryLen(), g.contents, max, k, CacheEntry(v, NEVER), key);
      case Delete(k) => LookupDrop(g.contents, key, k);
      case MarkSlotMigrated =>
    }
  }

  // In every run, a local hit returns the value last stored for the key, and that
  // was stored after the last slot migration.
  lemma LocalHitsAreFresh(max: nat, ops: seq<GroupOp>, op: GroupOp)
    requires LocalHit(GroupAfter(max, ops), op)
    ensures GroupAnswer(GroupAfter(max, ops), op).Some?
    ensures LastGiven(max, ops, op.key)
            == Some(Given(Epoch(ops), GroupAnswer(GroupAfter(max, ops), op).value))
  {
    RunHoldsFresh(max, ops, op.key);
  }

  // The answer of a load is the first reply that is not a failure, and the Getter's if
  // all peers fail.
  lemma {:induction false} FirstReplyWins(replies: seq<Option<ByteView>>, loaded: Option<ByteView>, i: nat)
    requires i <= |replies| && forall j :: 0 <= j < i ==> replies[j].None?
    ensures i < |replies| && replies[i].Some? ==> Fetched(replies, loaded) == replies[i]
    ensures i == |replies| ==> Fetched(replies, loaded) == loaded
  {
    if i > 0 { FirstReplyWins(replies[1..], loaded, i - 1); }
  }

  // ----- Without a limit a group is exactly a map that forgets at migrations -----

  // A migration was marked and no key was looked up since.
  predicate Forgets(ops: seq<GroupOp>) {
    ops != [] && (Last(ops).MarkSlotMigrated? || (!(Last(ops).Get? && Last(ops).key != "") && Forgets(Front(ops))))
  }

  // What a lookup of the key finds: the value last loaded or pushed, unless it was
  // deleted or a migration was marked since.
  function Visible(ops: seq<GroupOp>, key: string): Option<ByteView> {
    if ops == [] then None
    else
      var before := Visible(Front(ops), key);
      match Last(ops)
      case Get(k, _, replies, loaded) =>
        if k != "" && k == key && before.None? then Fetched(replies, loaded) else before
      case StoreReplica(k, value) => if Forgets(Front(ops)) then None else if k == key then Some(value) else before
      case Delete(k) => if k == key then None else before
      case MarkSlotMigrated => None
  }

  function Forever(value: Option<ByteView>): Option<CacheEntry> {
    match value
    case None => None
    case Some(v) => Some(CacheEntry(v, NEVER))
  }

  lemma {:induction false} DirtyIsForgets(max: nat, ops: seq<GroupOp>)
    ensures GroupAfter(max, ops).dirty == Forgets(ops)
  {
    if ops != [] { DirtyIsForgets(max, Front(ops)); }
  }

  // One lookup, of k, in a group whose cache holds the visible values.
  lemma GetVisible(g: GroupState, k: string, now: int, replies: seq<Option<ByteView>>, loaded: Option<ByteView>,
                   key: string, v: Option<ByteView>, own: Option<ByteView>)
    requires k != "" && Lru.Lookup(Base(g), key) == Forever(v) && Lru.Lookup(Base(g), k) == Forever(own)
    ensures var g' := GroupDo(0, g, Get(k, now, replies, loaded));
            Lru.Lookup(Base(g'), key) == Forever(if k == key && own.None? then Fetched(replies, loaded) else v)
  {
    var op := Get(k, now, replies, loaded);
    var looked := ExpiringCache.Do(0, Base(g), Got(k, now));
    LookupTouch(Base(g), key, k);
    LookupDrop(Lru.Touch(Base(g), k), key, k);
    if Stores(g, op).Some? { LookupPut(EntryLen(), looked, 0, k, CacheEntry(Stores(g, op).value, NEVER), key); }
  }

  lemma {:induction false} ForgetsHides(ops: seq<GroupOp>, key: string)
    requires Forgets(ops)
    ensures Visible(ops, key) == None
  {
    if !Last(ops).MarkSlotMigrated? { ForgetsHides(Front(ops), key); }
  }

  lemma {:induction false} HoldsVisible(ops: seq<GroupOp>, key: string)
    ensures Lru.Lookup(Base(GroupAfter(0, ops)), key) == Forever(Visible(ops, key))
  {
    if ops != [] {
      var g, before := GroupAfter(0, Front(ops)), Front(ops);
      HoldsVisible(before, key);
      DirtyIsForgets(0, before);
      match Last(ops)
      case Get(k, now, replies, loaded) =>
        if k != "" {
          HoldsVisible(before, k);
          GetVisible(g, k, now, replies, loaded, key, Visible(before, key), Visible(before, k));
        }
      case StoreReplica(k, v) =>
        LookupPut(EntryLen(), g.contents, 0, k, CacheEntry(v, NEVER), key);
        if Forgets(before) { ForgetsHides(before, key); }
      case Delete(k) =>
        LookupDrop(g.contents, key, k);
        if Forgets(before) { ForgetsHides(before, key); }
      case MarkSlotMigrated =>
    }
  }

  // So a lookup is a local hit exactly when the value is visible, whatever the time,
  // and then answers it; otherwise it answers what is loaded, which is visible then.
  lemma UnlimitedGroupIsExact(ops: seq<GroupOp>, op: GroupOp)
    requires op.Get? && op.key != ""
    ensures var v := Visible(ops, op.key);
            && (LocalHit(GroupAfter(0, ops), op) <==> v.Some?)
            && GroupAnswer(GroupAfter(0, ops), op) == (if v.Some? then v else Fetched(op.replies, op.loaded))
            && Visible(ops + [op], op.key) == GroupAnswer(GroupAfter(0, ops), op)
  {
    HoldsVisible(ops, op.key);
    assert Front(ops + [op]) == ops;
  }

  // A lookup of the empty key is an error and changes nothing, not even a mark.
  lemma EmptyKeyIsRefused(max: nat, g: GroupState, op: GroupOp)
    requires op.Get? && op.key == ""
    ensures GroupAnswer(g, op) == None && GroupDo(max, g, op) == g
  {
  }

  // ----- Any number of nodes that share a Getter -----

  type Getter = string -> Option<ByteView>

  // sent are the values that some node has answered or pushed for a key.
  datatype Network = Network(nodes: map<string, GroupState>, sent: set<(string, ByteView)>)

  // A node is told only what another has sent, or what the Getter says.
  ghost predicate Authentic(getter: Getter, net: Network, op: GroupOp) {
    match op
    case Get(key, _, replies, loaded) =>
      && (forall i :: 0 <= i < |replies| && replies[i].Some? ==> (key, replies[i].value) in net.sent)
      && (loaded.Some? ==> loaded == getter(key))
    case StoreReplica(key, value) => (key, value) in net.sent
    case _ => true
  }

  function NetDo(max: nat, net: Network, node: string, op: GroupOp): Network
    requires node in net.nodes
  {
    var g := net.nodes[node];
    var answer := GroupAnswer(g, op);
    Network(net.nodes[node := GroupDo(max, g, op)],
            net.sent + if answer.Some? then {(op.key, answer.value)} else {})
  }

  ghost predicate Truthful(getter: Getter, net: Network) {
    && (forall m :: m in net.sent ==> getter(m.0) == Some(m.1))
    && (forall node, key :: node in net.nodes && Lru.Lookup(net.nodes[node].contents, key).Some? ==>
          getter(key) == Some(Lru.Lookup(net.nodes[node].contents, key).value.value))
  }

  lemma {:induction false} FetchedComesFrom(replies: seq<Option<ByteView>>, loaded: Option<ByteView>)
    ensures Fetched(replies, loaded).Some? ==>
              Fetched(replies, loaded) == loaded || Fetched(replies, loaded) in replies
  {
    if replies != [] { FetchedComesFrom(replies[1..], loaded); }
  }

  lemma StoredIsTruthful(getter: Getter, net: Network, node: string, op: GroupOp)
    requires Truthful(getter, net) && Authentic(getter, net, op) && node in net.nodes
    ensures Stores(net.nodes[node], op).Some? ==> getter(op.key) == Stores(net.nodes[node], op)
    ensures GroupAnswer(net.nodes[node], op).Some? ==> getter(op.key) == GroupAnswer(net.nodes[node], op)
  {
    if op.Get? { FetchedComesFrom(op.replies, op.loaded); }
  }

  lemma NodeStaysTruthful(getter: Getter, max: nat, net: Network, node: string, op: GroupOp, key: string)
    requires Truthful(getter, net) && Authentic(getter, net, op) && node in net.nodes
    requires Lru.Lookup(GroupDo(max, net.nodes[node], op).contents, key).Some?
    ensures getter(key) == Some(Lru.Lookup(GroupDo(max, net.nodes[node], op).contents, key).value.value)
  {
    var g := net.nodes[node];
    StoredIsTruthful(getter, net, node, op);
    match op
    case Get(k, now, _, _) =>
      if k != "" {
        LookupTouch(Base(g), key, k);
        LookupDrop(Lru.Touch(Base(g), k), key, k);
        if Stores(g, op).Some? {
          LookupPut(EntryLen(), ExpiringCache.Do(max, Base(g), Got(k, now)), max, k,
                    CacheEntry(Stores(g, op).value, NEVER), key);
        }
      }
    case StoreReplica(k, v) => LookupPut(EntryLen(), g.contents, max, k, CacheEntry(v, NEVER), key);
    case Delete(k) => LookupDrop(g.contents, key, k);
    case MarkSlotMigrated =>
  }

  lemma NetDoTruthful(getter: Getter, max: nat, net: Network, node: string, op: GroupOp)
    requires Truthful(getter, net) && Authentic(getter, net, op) && node in net.nodes
    ensures Truthful(getter, NetDo(max, net, node, op))
  {
    StoredIsTruthful(getter, net, node, op);
    var net' := NetDo(max, net, node, op);
    forall n, key | n in net'.nodes && Lru.Lookup(net'.nodes[n].contents, key).Some?
      ensures getter(key) == Some(Lru.Lookup(net'.nodes[n].contents, key).value.value)
    {
      if n == node { NodeStaysTruthful(getter, max, net, node, op, key); }
    }
  }

  datatype Event = Event(node: string, op: GroupOp)

  ghost predicate IsRun(getter: Getter, max: nat, trace: seq<Network>, events: seq<Event>) {
    && |trace| == |events| + 1 && trace[0].sent == {}
    && (forall n :: n in trace[0].nodes ==> trace[0].nodes[n] == GroupState([], false))
    && (forall i :: 0 <= i < |events| ==>
          && events[i].node in trace[i].nodes
          && Authentic(getter, trace[i], events[i].op)
          && trace[i + 1] == NetDo(max, trace[i], events[i].node, events[i].op))
  }

  // In every run over any number of nodes, every value stored anywhere and every
  // value any node answers, directly or through peers and replicas, is the
  // Getter's value for the key.
  lemma {:induction false} RunIsTruthful(getter: Getter, max: nat, trace: seq<Network>, events: seq<Event>, n: nat)
    requires IsRun(getter, max, trace, events) && n <= |events|
    ensures Truthful(getter, trace[n])
    ensures n < |events| ==>
              var answer := GroupAnswer(trace[n].nodes[events[n].node], events[n].op);
              answer.Some? ==> answer == getter(events[n].op.key)
  {
    if n > 0 {
      RunIsTruthful(getter, max, trace, events, n - 1);
      NetDoTruthful(getter, max, trace[n - 1], events[n - 1].node, events[n - 1].op);
    }
    if n < |events| {
      StoredIsTruthful(getter, trace[n], events[n].node, events[n].op);
    }
  }

  // ----- The group object -----

  class Group {
    const mainCache: Cache
    var cacheDirty: bool

    ghost predicate Valid()
      reads this, mainCache, mainCache.lru
    {
      mainCache.Valid()
    }

    ghost function State(): GroupState
      requires Valid()
      reads this, mainCache, mainCache.lru
    {
      GroupState(mainCache.View(), cacheDirty)
    }

    constructor (cacheBytes: int)
      requires 0 <= cacheBytes
      ensures Valid() && State() == GroupState([], false) && mainCache.cacheBytes == cacheBytes
      ensures fresh(mainCache) && mainCache.lru == null
    {
      mainCache := new Cache(cacheBytes);
      cacheDirty := false;
    }

    method MarkSlotMigrated()
      modifies this`cacheDirty
      ensures cacheDirty
    {
      cacheDirty := true;
    }

    method StoreReplica(key: string, value: ByteView)
      requires Valid()
      modifies mainCache, mainCache.lru
      ensures Valid()
      ensures State() == GroupDo(mainCache.cacheBytes, old(State()), GroupOp.StoreReplica(key, value))
    {
      mainCache.Add(key, value);
    }

    method DeleteLocal(key: string)
      requires Valid()
      modifies mainCache.lru
      ensures Valid() && State() == GroupDo(mainCache.cacheBytes, old(State()), Delete(key))
    {
      mainCache.Delete(key);
    }

    method Lookup(key: string, now: int, replies: seq<Option<ByteView>>, loaded: Option<ByteView>)
        returns (value: Option<ByteView>)
      requires Valid()
      modifies this, mainCache, mainCache.lru
      ensures Valid()
      ensures value == GroupAnswer(old(State()), Get(key, now, replies, loaded))
      ensures State() == GroupDo(mainCache.cacheBytes, old(State()), Get(key, now, replies, loaded))
    {
      if key == "" {
        return None;
      }
      if cacheDirty {
        cacheDirty := false;
        mainCache.Purge();
      }
      value := mainCache.Get(key, now);
      if value.Some? {
        return;
      }
      value := Load(key, replies, loaded);
    }

    // load: the candidates in order, then the Getter.
    method Load(key: string, replies: seq<Option<ByteView>>, loaded: Option<ByteView>)
        returns (value: Option<ByteView>)
      requires Valid()
      modifies mainCache, mainCache.lru
      ensures Valid() && value == Fetched(replies, loaded) && cacheDirty == old(cacheDirty)
      ensures mainCache.View() == match value
                                  case None => old(mainCache.View())
                                  case Some(v) => Put(mainCache.cacheBytes, old(mainCache.View()), key, v)
    {
      for i := 0 to |replies|
        invariant Fetched(replies[i..], loaded) == Fetched(replies, loaded)
        invariant mainCache.Valid() && mainCache.lru == old(mainCache.lru) && mainCache.View() == old(mainCache.View())
      {
        match replies[i]
        case Some(v) =>
          mainCache.Add(key, v);
          return replies[i];
        case None =>
          assert replies[i..][1..] == replies[i + 1..];
      }
      match loaded
      case None => return None;
      case Some(v) =>
        mainCache.Add(key, v);
        return loaded;
    }
  }

  // ----- Invalidation -----

  class SlotInvalidator {
    const groups: seq<Group>

    constructor (groups: seq<Group>)
      ensures this.groups == groups
    {
      this.groups := groups;
    }

    // Every group is marked when the interval is not empty, and none otherwise.
    method InvalidateSlots(start: int, end: int)
      modifies (set g | g in groups)`cacheDirty
      ensures forall g :: g in groups ==> g.cacheDirty == (old(g.cacheDirty) || start <= end)
    {
      for i := 0 to |groups|
        invariant forall g :: g in groups[..i] ==> g.cacheDirty == (old(g.cacheDirty) || start <= end)
        invariant forall g :: g in groups && g !in groups[..i] ==> g.cacheDirty == old(g.cacheDirty)
      {
        assert groups[..i + 1] == groups[..i] + [groups[i]];
        MarkRange(groups[i], start, end);
      }
      assert groups[..|groups|] == groups;
    }

    // The inner loop: one mark per slot.
    method MarkRange(g: Group, start: int, end: int)
      modifies g`cacheDirty
      ensures g.cacheDirty == (old(g.cacheDirty) || start <= end)
    {
      var slot := start;
      while slot <= end
        invariant start <= slot && (slot == start || start <= end)
        invariant g.cacheDirty == (old(g.cacheDirty) || start < slot)
      {
        g.MarkSlotMigrated();
        slot := slot + 1;
      }
    }
  }

  // invalidateCacheAfterMigration: the interval spans every migrated slot.
  method MigratedInterval(tasks: seq<SlotPlanner.Task>) returns (minSlot: int, maxSlot: int)
    requires tasks != []
    ensures forall i :: 0 <= i < |tasks| ==> minSlot <= tasks[i].slot <= maxSlot
    ensures exists i :: 0 <= i < |tasks| && tasks[i].slot == minSlot
    ensures exists i :: 0 <= i < |tasks| && tasks[i].slot == maxSlot
  {
    minSlot, maxSlot := tasks[0].slot, tasks[0].slot;
    for i := 0 to |tasks|
      invariant forall j :: 0 <= j < i ==> minSlot <= tasks[j].slot <= maxSlot
      invariant exists j :: 0 <= j < |tasks| && tasks[j].slot == minSlot
      invariant exists j :: 0 <= j < |tasks| && tasks[j].slot == maxSlot
    {
      if tasks[i].slot < minSlot {
        minSlot := tasks[i].slot;
      }
      if tasks[i].slot > maxSlot {
        maxSlot := tasks[i].slot;
      }
    }
  }

  // After any migration that moved something, every group is dirty.
  method InvalidateCacheAfterMigration(tasks: seq<SlotPlanner.Task>, invalidator: SlotInvalidator)
    requires tasks != []
    modifies (set g | g in invalidator.groups)`cacheDirty
    ensures forall g :: g in invalidator.groups ==> g.cacheDirty
  {
    var minSlot, maxSlot := MigratedInterval(tasks);
    invalidator.InvalidateSlots(minSlot, maxSlot);
  }
}
