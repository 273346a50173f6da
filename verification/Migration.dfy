// Live slot migration (cluster/model/manager.go, groupSlotTasks,
// executeSlotMigration and migrateSlotShared) as a state machine: every step is
// one command of one task, any task may go next, and any command may fail.
module SlotMigration {
  import opened Basics
  import opened SlotPlanner
  import opened KeyMoves
  import opened SlotAllocation
  import opened Rebalance

  // One slot: the nodes that claim it, and where its keys are.
  datatype SlotState = SlotState(claims: set<string>, source: set<Key>, dest: set<Key>)

  // How far a task has come.  fetched are the keys that GETKEYSINSLOT returned.
  datatype Phase =
    | Start
    | Imported
    | Opened
    | Moving(fetched: set<Key>, work: seq<KeyCommand>)
    | DestClosed(fetched: set<Key>)
    | Done(fetched: set<Key>)
    | Failed

  // MIGRATE and DEL as Redis documents them: a key leaves the source only once
  // the destination has it, and a failed command may have been carried out in part.
  ghost predicate KeyStep(work: seq<KeyCommand>, s: SlotState, work': seq<KeyCommand>, s': SlotState, ok: bool)
    requires work != []
  {
    var rest := work[1..];
    && s'.claims == s.claims
    && match work[0]
       case Copy(k) =>
         && s'.source == s.source
         && (s'.dest == s.dest + s.source * {k} || (!ok && s'.dest == s.dest))
         && work' == if ok then [Delete(k)] + rest else rest
       case Delete(k) =>
         && (s'.source == s.source - {k} || (!ok && s'.source == s.source))
         && s'.dest == s.dest
         && work' == rest
       case Batch(_) =>
         var keys := Handled(work[0]) * s.source;
         && s.source - keys <= s'.source <= s.source
         && s.dest + (s.source - s'.source) <= s'.dest <= s.dest + keys
         && (ok ==> s'.source == s.source - keys)
         && work' == rest
  }

  ghost predicate Fetches(s: SlotState, keys: seq<Key>, size: Sizes, fetched: set<Key>,
                          work: seq<KeyCommand>, ok: bool)
  {
    && Distinct(keys) && fetched == (set k | k in keys) && fetched <= s.source
    && |fetched| <= FETCH_LIMIT
    && work == Commands(keys, size)
    && (ok ==> fetched == s.source || |fetched| == FETCH_LIMIT)
    && (ok ==> forall k :: k in keys ==> size(k).Some?)
  }

  // GETKEYSINSLOT returns at most 1000 keys; a failed call, or failed size
  // queries, make the worker go on with fewer.
  ghost predicate FetchStep(s: SlotState, fetched: set<Key>, work: seq<KeyCommand>, ok: bool) {
    exists keys: seq<Key>, size: Sizes :: Fetches(s, keys, size, fetched, work, ok)
  }

  // One command of migrateSlotShared.
  ghost predicate TaskStep(t: Task, p: Phase, s: SlotState, p': Phase, s': SlotState, ok: bool) {
    match p
    case Start =>    // SETSLOT IMPORTING on the destination
      s' == s && p' == if ok then Imported else Failed
    case Imported => // SETSLOT MIGRATING on the source
      s' == s && p' == if ok then Opened else Failed
    case Opened =>   // GETKEYSINSLOT and MEMORY USAGE
      s' == s && p'.Moving? && FetchStep(s, p'.fetched, p'.work, ok)
    case Moving(fetched, work) =>
      if work != [] then
        p'.Moving? && p'.fetched == fetched && KeyStep(work, s, p'.work, s', ok)
      else           // SETSLOT NODE on the destination
        && (s' == s.(claims := s.claims + {t.toId}) || (!ok && s' == s))
        && p' == if ok then DestClosed(fetched) else Failed
    case DestClosed(fetched) => // SETSLOT NODE on the source
      && (s' == s.(claims := s.claims - {t.fromId}) || (!ok && s' == s))
      && p' == if ok then Done(fetched) else Failed
    case Done(_) => false
    case Failed => false
  }

  // ----- What every step of a task keeps -----

  // Some node claims the slot: the source until it is handed over.
  ghost predicate Claimed(t: Task, p: Phase, s: SlotState) {
    match p
    case DestClosed(_) => s.claims == {t.fromId, t.toId}
    case Done(_) => s.claims == {t.toId}
    case Failed => s.claims != {} && s.claims <= {t.fromId, t.toId}
    case _ => s.claims == {t.fromId}
  }

  // No key is lost: all are on one side or the other, and a key is deleted only
  // when it has been copied.
  ghost predicate KeysSafe(keys: set<Key>, p: Phase, s: SlotState) {
    && s.source + s.dest == keys
    && (p.Start? || p.Imported? || p.Opened? ==> s.source == keys && s.dest == {})
    && (p.Moving? ==> forall i :: 0 <= i < |p.work| && p.work[i].Delete? ==>
                        i == 0 && (p.work[i].key in s.source ==> p.work[i].key in s.dest))
  }

  function FetchedBy(p: Phase): set<Key> {
    match p
    case Moving(fetched, _) => fetched
    case DestClosed(fetched) => fetched
    case Done(fetched) => fetched
    case _ => {}
  }

  function WorkOf(p: Phase): seq<KeyCommand> {
    if p.Moving? then p.work else []
  }

  // Only fetched keys move, at most 1000 of them.
  ghost predicate OnlyFetched(keys: set<Key>, p: Phase, s: SlotState) {
    && FetchedBy(p) <= keys && |FetchedBy(p)| <= FETCH_LIMIT
    && Pending(WorkOf(p)) <= FetchedBy(p)
    && (!p.Failed? ==> s.dest <= FetchedBy(p))
  }

  // When nothing failed, what is not pending has moved.
  ghost predicate OnSchedule(keys: set<Key>, p: Phase, s: SlotState) {
    && !p.Failed?
    && (p.Moving? || p.DestClosed? || p.Done? ==>
          && (FetchedBy(p) == keys || |FetchedBy(p)| == FETCH_LIMIT)
          && s.source <= (keys - FetchedBy(p)) + Pending(WorkOf(p)))
  }

  ghost predicate TaskInv(t: Task, keys: set<Key>, p: Phase, s: SlotState) {
    Claimed(t, p, s) && KeysSafe(keys, p, s) && OnlyFetched(keys, p, s) && |s.dest| <= FETCH_LIMIT
  }

  lemma ClaimedStep(t: Task, p: Phase, s: SlotState, p': Phase, s': SlotState, ok: bool)
    requires t.fromId != t.toId && Claimed(t, p, s) && TaskStep(t, p, s, p', s', ok)
    ensures Claimed(t, p', s')
  {
    assert {t.fromId} != {} by { assert t.fromId in {t.fromId}; }
    assert t.toId in {t.fromId, t.toId} - {t.fromId};
  }

  lemma FetchedCommands(keys: seq<Key>, size: Sizes)
    ensures Pending(Commands(keys, size)) <= (set k | k in keys)
    ensures (forall k :: k in keys ==> size(k).Some?) ==>
              Pending(Commands(keys, size)) == (set k | k in keys)
    ensures forall i :: 0 <= i < |Commands(keys, size)| ==> !Commands(keys, size)[i].Delete?
  {
    CommandsHandle(keys, size);
  }

  lemma WorkStep(keys: set<Key>, fetched: set<Key>, work: seq<KeyCommand>, s: SlotState,
                 work': seq<KeyCommand>, s': SlotState, ok: bool)
    requires work != [] && KeyStep(work, s, work', s', ok)
    requires KeysSafe(keys, Moving(fetched, work), s) && OnlyFetched(keys, Moving(fetched, work), s)
    ensures KeysSafe(keys, Moving(fetched, work'), s') && OnlyFetched(keys, Moving(fetched, work'), s')
    ensures ok && OnSchedule(keys, Moving(fetched, work), s) ==> OnSchedule(keys, Moving(fetched, work'), s')
  {
    var rest := work[1..];
    assert Pending(work) == Handled(work[0]) + Pending(rest);
    assert forall i :: 0 <= i < |rest| ==> rest[i] == work[i + 1];
    if work[0].Copy? && ok {
      assert work'[1..] == rest;
      assert Pending(work') == {work[0].key} + Pending(rest);
    }
  }

  lemma KeysStep(t: Task, keys: set<Key>, p: Phase, s: SlotState, p': Phase, s': SlotState, ok: bool)
    requires KeysSafe(keys, p, s) && OnlyFetched(keys, p, s) && TaskStep(t, p, s, p', s', ok)
    ensures KeysSafe(keys, p', s') && OnlyFetched(keys, p', s')
    ensures ok && OnSchedule(keys, p, s) ==> OnSchedule(keys, p', s')
  {
    if p.Opened? {
      var ks, size :| Fetches(s, ks, size, p'.fetched, p'.work, ok);
      FetchedCommands(ks, size);
    } else if p.Moving? && p.work != [] {
      WorkStep(keys, p.fetched, p.work, s, p'.work, s', ok);
    }
  }

  // At most 1000 keys ever move, even when the task fails.
  lemma SizeStep(t: Task, keys: set<Key>, p: Phase, s: SlotState, p': Phase, s': SlotState, ok: bool)
    requires TaskStep(t, p, s, p', s', ok) && OnlyFetched(keys, p', s') && |s.dest| <= FETCH_LIMIT
    ensures |s'.dest| <= FETCH_LIMIT
  {
    if !p'.Failed? { SubsetAtMost(s'.dest, FetchedBy(p')); }
  }

  // ----- All tasks at once -----

  datatype World = World(slots: map<int, SlotState>, phases: seq<Phase>)

  // Task i takes one step; no other task or slot is touched.
  ghost predicate Step(tasks: seq<Task>, w: World, w': World, i: nat, ok: bool) {
    && i < |tasks| == |w.phases| == |w'.phases|
    && tasks[i].slot in w.slots && tasks[i].slot in w'.slots
    && TaskStep(tasks[i], w.phases[i], w.slots[tasks[i].slot], w'.phases[i], w'.slots[tasks[i].slot], ok)
    && w' == World(w.slots[tasks[i].slot := w'.slots[tasks[i].slot]], w.phases[i := w'.phases[i]])
  }

  // Before the migration every slot is claimed by its owner, who has its keys.
  function Initially(own: map<int, string>, keys: map<int, set<Key>>, n: nat): World
    requires keys.Keys == own.Keys
  {
    World(map x | x in own :: SlotState({own[x]}, keys[x], {}), seq(n, _ => Start))
  }

  // A plan as the planner makes them: distinct slots, each taken from its owner.
  ghost predicate WellPlanned(tasks: seq<Task>, own: map<int, string>) {
    && (forall i, j :: 0 <= i < j < |tasks| ==> tasks[i].slot != tasks[j].slot)
    && (forall i :: 0 <= i < |tasks| ==>
          tasks[i].slot in own && own[tasks[i].slot] == tasks[i].fromId && tasks[i].fromId != tasks[i].toId)
  }

  ghost predicate TaskGood(t: Task, keys: map<int, set<Key>>, p: Phase, slots: map<int, SlotState>, allOk: bool) {
    && t.slot in keys && t.slot in slots
    && TaskInv(t, keys[t.slot], p, slots[t.slot])
    && (allOk ==> OnSchedule(keys[t.slot], p, slots[t.slot]))
  }

  ghost predicate WorldInv(tasks: seq<Task>, own: map<int, string>, keys: map<int, set<Key>>, w: World, allOk: bool)
    requires keys.Keys == own.Keys && WellPlanned(tasks, own)
  {
    && w.slots.Keys == own.Keys && |w.phases| == |tasks|
    && (forall i :: 0 <= i < |tasks| ==> TaskGood(tasks[i], keys, w.phases[i], w.slots, allOk))
    && (forall x :: x in own && (forall i :: 0 <= i < |tasks| ==> tasks[i].slot != x) ==>
          w.slots[x] == SlotState({own[x]}, keys[x], {}))
  }

  lemma InitialInv(tasks: seq<Task>, own: map<int, string>, keys: map<int, set<Key>>, allOk: bool)
    requires keys.Keys == own.Keys && WellPlanned(tasks, own)
    ensures WorldInv(tasks, own, keys, Initially(own, keys, |tasks|), allOk)
  {
  }

  lemma StepInv(tasks: seq<Task>, own: map<int, string>, keys: map<int, set<Key>>, w: World, w': World,
                i: nat, ok: bool, allOk: bool)
    requires keys.Keys == own.Keys && WellPlanned(tasks, own)
    requires WorldInv(tasks, own, keys, w, allOk) && Step(tasks, w, w', i, ok) && (allOk ==> ok)
    ensures WorldInv(tasks, own, keys, w', allOk)
  {
    var x := tasks[i].slot;
    assert TaskGood(tasks[i], keys, w.phases[i], w.slots, allOk);
    ClaimedStep(tasks[i], w.phases[i], w.slots[x], w'.phases[i], w'.slots[x], ok);
    KeysStep(tasks[i], keys[x], w.phases[i], w.slots[x], w'.phases[i], w'.slots[x], ok);
    SizeStep(tasks[i], keys[x], w.phases[i], w.slots[x], w'.phases[i], w'.slots[x], ok);
    forall j | 0 <= j < |tasks| ensures TaskGood(tasks[j], keys, w'.phases[j], w'.slots, allOk) {
      if j != i {
        assert TaskGood(tasks[j], keys, w.phases[j], w.slots, allOk);
        assert tasks[j].slot != tasks[i].slot;
      }
    }
  }

  // Some node claims the slot, its keys are on one side or the other, and at most
  // 1000 have moved.
  lemma SlotIsSafe(tasks: seq<Task>, own: map<int, string>, keys: map<int, set<Key>>, w: World, allOk: bool, x: int)
    requires keys.Keys == own.Keys && WellPlanned(tasks, own)
    requires WorldInv(tasks, own, keys, w, allOk) && x in own
    ensures w.slots[x].claims != {} && w.slots[x].source + w.slots[x].dest == keys[x]
    ensures |w.slots[x].dest| <= FETCH_LIMIT
  {
    if i :| 0 <= i < |tasks| && tasks[i].slot == x {
      assert TaskGood(tasks[i], keys, w.phases[i], w.slots, allOk);
    }
  }

  lemma {:induction false} ApplyAtTask(own: map<int, string>, tasks: seq<Task>, i: nat)
    requires i < |tasks| && forall j, k :: 0 <= j < k < |tasks| ==> tasks[j].slot != tasks[k].slot
    ensures tasks[i].slot in Apply(own, tasks) && Apply(own, tasks)[tasks[i].slot] == tasks[i].toId
  {
    if i < |tasks| - 1 { ApplyAtTask(own, Front(tasks), i); }
  }

  lemma DoneState(t: Task, keys: set<Key>, p: Phase, s: SlotState)
    requires TaskInv(t, keys, p, s) && OnSchedule(keys, p, s) && p.Done?
    ensures s.claims == {t.toId} && s.dest == p.fetched && s.source == keys - s.dest
    ensures s.source == {} <==> |keys| <= FETCH_LIMIT
  {
    assert s.source == keys - p.fetched;
    assert s.dest == p.fetched;
    if p.fetched != keys {
      SubsetSize(p.fetched, keys);
      assert keys - p.fetched != {};
    }
  }

  // ----- Groups and workers -----

  datatype Group = Group(tasks: seq<Task>, fromIp: string, fromHostPort: nat)

  function FromIp(ip: string): Task -> bool { (t: Task) => t.fromIp == ip }

  // A task joins the group of its source; the first one brings the port.
  function Join(groups: map<string, Group>, t: Task): map<string, Group> {
    if t.fromIp in groups
    then groups[t.fromIp := groups[t.fromIp].(tasks := groups[t.fromIp].tasks + [t])]
    else groups[t.fromIp := Group([t], t.fromIp, t.fromHostPort)]
  }

  function Grouped(tasks: seq<Task>): map<string, Group> {
    if tasks == [] then map[] else Join(Grouped(Front(tasks)), Last(tasks))
  }

  method GroupSlotTasks(tasks: seq<Task>) returns (groups: map<string, Group>)
    ensures groups == Grouped(tasks)
  {
    groups := map[];
    for i := 0 to |tasks|
      invariant groups == Grouped(tasks[..i])
    {
      var t := tasks[i];
      ghost var before := groups;
      assert Front(tasks[..i + 1]) == tasks[..i];
      if t.fromIp !in groups {
        groups := groups[t.fromIp := Group([], t.fromIp, t.fromHostPort)];
      }
      var g := groups[t.fromIp];
      groups := groups[t.fromIp := g.(tasks := g.tasks + [t])];
      assert [] + [t] == [t];
      assert groups == Join(before, t);
    }
    assert tasks[..|tasks|] == tasks;
  }

  // A group holds exactly the tasks of its source, in order, and there is a group
  // for every source that has any.
  lemma {:induction false} GroupIsFilter(tasks: seq<Task>, ip: string)
    ensures ip in Grouped(tasks) <==> Filter(FromIp(ip), tasks) != []
    ensures ip in Grouped(tasks) ==>
              var ts := Filter(FromIp(ip), tasks);
              Grouped(tasks)[ip] == Group(ts, ip, ts[0].fromHostPort)
  {
    if tasks != [] { GroupIsFilter(Front(tasks), ip); }
  }

  // The groups partition the tasks: a task is in the group of its source as often
  // as in the plan, and in no other.
  lemma GroupsPartition(tasks: seq<Task>, ip: string, t: Task)
    ensures multiset(Filter(FromIp(ip), tasks))[t] == if t.fromIp == ip then multiset(tasks)[t] else 0
  {
    FilterCount(FromIp(ip), tasks, t);
  }

  // One connection per group serves all its tasks: the planner looks the source
  // port up by the address, so the ports in a group agree.
  lemma OnePortPerGroup(t: Topology, own: map<int, string>, s: Progress, ip: string, i: nat)
    requires Sound(t, own, s) && i < |Filter(FromIp(ip), s.tasks)|
    ensures Filter(FromIp(ip), s.tasks)[i].fromHostPort == Filter(FromIp(ip), s.tasks)[0].fromHostPort
  {
    var ts := Filter(FromIp(ip), s.tasks);
    FilterMember(FromIp(ip), s.tasks, ts[i]);
    FilterMember(FromIp(ip), s.tasks, ts[0]);
    var j :| 0 <= j < |s.tasks| && s.tasks[j] == ts[i];
    var k :| 0 <= k < |s.tasks| && s.tasks[k] == ts[0];
    assert s.tasks[j] == BuildTask(t, s.tasks[j].slot, s.tasks[j].fromId, s.tasks[j].toId);
    assert s.tasks[k] == BuildTask(t, s.tasks[k].slot, s.tasks[k].fromId, s.tasks[k].toId);
  }

  const WORKERS := 16

  // The tasks of one source that wait in the channel, and those a worker has.
  datatype Pool = Pool(queue: seq<nat>, busy: set<nat>)

  datatype Execution = Execution(pools: map<string, Pool>, world: World)

  predicate Finished(p: Phase) {
    p.Done? || p.Failed?
  }

  // A worker takes the next task, executes one command of its task, or is done.
  ghost predicate WorkerStep(tasks: seq<Task>, e: Execution, e': Execution, ip: string, i: nat, ok: bool) {
    && ip in e.pools
    && var pool := e.pools[ip];
       || (&& pool.queue != [] && |pool.busy| < WORKERS && i == pool.queue[0]
           && e' == Execution(e.pools[ip := Pool(pool.queue[1..], pool.busy + {i})], e.world))
       || (&& i in pool.busy && Step(tasks, e.world, e'.world, i, ok) && e'.pools == e.pools)
       || (&& i in pool.busy && i < |e.world.phases| && Finished(e.world.phases[i])
           && e' == Execution(e.pools[ip := pool.(busy := pool.busy - {i})], e.world))
  }

  // Every task is in the pool of its source, waiting untouched or with a worker,
  // or else it is finished; at most sixteen tasks of a source are under way.
  ghost predicate Staffed(tasks: seq<Task>, e: Execution) {
    && |e.world.phases| == |tasks|
    && (forall i :: 0 <= i < |tasks| ==> tasks[i].fromIp in e.pools)
    && (forall i :: 0 <= i < |tasks| ==>
          var pool := e.pools[tasks[i].fromIp];
          || (i in pool.queue && i !in pool.busy && e.world.phases[i].Start?)
          || (i !in pool.queue && i in pool.busy)
          || (i !in pool.queue && i !in pool.busy && Finished(e.world.phases[i])))
    && (forall ip :: ip in e.pools ==>
          && Distinct(e.pools[ip].queue) && |e.pools[ip].busy| <= WORKERS
          && (forall i :: i in e.pools[ip].queue || i in e.pools[ip].busy ==>
                i < |tasks| && tasks[i].fromIp == ip))
  }

  lemma TakeStaffed(tasks: seq<Task>, e: Execution, e': Execution, ip: string)
    requires Staffed(tasks, e) && ip in e.pools && e.pools[ip].queue != [] && |e.pools[ip].busy| < WORKERS
    requires var pool := e.pools[ip];
             e' == Execution(e.pools[ip := Pool(pool.queue[1..], pool.busy + {pool.queue[0]})], e.world)
    ensures Staffed(tasks, e')
  {
    var pool := e.pools[ip];
    var i, rest := pool.queue[0], pool.queue[1..];
    assert pool.queue == [i] + rest;
    assert i !in rest && Distinct(rest);
    assert forall j :: j in pool.queue <==> j == i || j in rest;
    assert i !in pool.busy;
  }

  lemma WorkerStepStaffed(tasks: seq<Task>, e: Execution, e': Execution, ip: string, i: nat, ok: bool)
    requires Staffed(tasks, e) && WorkerStep(tasks, e, e', ip, i, ok)
    ensures Staffed(tasks, e')
    ensures e'.world == e.world || Step(tasks, e.world, e'.world, i, ok)
  {
    var pool := e.pools[ip];
    if i in pool.busy {
    } else {
      TakeStaffed(tasks, e, e', ip);
    }
  }

  ghost predicate Drained(e: Execution) {
    forall ip :: ip in e.pools ==> e.pools[ip] == Pool([], {})
  }

  // When the channels are drained and all workers idle, every task is finished.
  lemma DrainedMeansFinished(tasks: seq<Task>, e: Execution, i: nat)
    requires Staffed(tasks, e) && i < |tasks|
    requires Drained(e)
    ensures Finished(e.world.phases[i])
  {
    assert tasks[i].fromIp in e.pools;
  }

  // ----- Whole executions -----

  // Which worker pool moves, on which task, and whether its command succeeds.
  datatype Choice = Choice(ip: string, task: nat, ok: bool)

  ghost predicate StepAt(tasks: seq<Task>, trace: seq<Execution>, choices: seq<Choice>, k: nat)
    requires |trace| == |choices| + 1 && k < |choices|
  {
    WorkerStep(tasks, trace[k], trace[k + 1], choices[k].ip, choices[k].task, choices[k].ok)
  }

  ghost predicate IsExecution(tasks: seq<Task>, trace: seq<Execution>, choices: seq<Choice>) {
    |trace| == |choices| + 1 && forall k :: 0 <= k < |choices| ==> StepAt(tasks, trace, choices, k)
  }

  // The positions of the tasks of one source among the first n.
  function Positions(tasks: seq<Task>, ip: string, n: nat): (ps: seq<nat>)
    requires n <= |tasks|
    ensures Distinct(ps) && forall i :: i in ps <==> 0 <= i < n && tasks[i].fromIp == ip
  {
    if n == 0 then []
    else Positions(tasks, ip, n - 1) + if tasks[n - 1].fromIp == ip then [n - 1] else []
  }

  // The channels are filled with the groups before any worker starts.
  function Queues(tasks: seq<Task>): map<string, Pool> {
    map ip | ip in Grouped(tasks) :: Pool(Positions(tasks, ip, |tasks|), {})
  }

  ghost predicate Begins(tasks: seq<Task>, own: map<int, string>, keys: map<int, set<Key>>, e: Execution)
    requires keys.Keys == own.Keys
  {
    e == Execution(Queues(tasks), Initially(own, keys, |tasks|))
  }

  // What is queued for a source is its group, task by task.
  lemma {:induction false} QueueIsGroup(tasks: seq<Task>, ip: string, n: nat)
    requires n <= |tasks|
    ensures var ps, ts := Positions(tasks, ip, n), Filter(FromIp(ip), tasks[..n]);
            |ps| == |ts| && forall j :: 0 <= j < |ps| ==> ps[j] < |tasks| && tasks[ps[j]] == ts[j]
  {
    if n > 0 {
      QueueIsGroup(tasks, ip, n - 1);
      assert Front(tasks[..n]) == tasks[..n - 1];
    }
  }

  lemma StartsStaffed(tasks: seq<Task>, own: map<int, string>, keys: map<int, set<Key>>)
    requires keys.Keys == own.Keys
    ensures Staffed(tasks, Execution(Queues(tasks), Initially(own, keys, |tasks|)))
  {
    forall i | 0 <= i < |tasks| ensures tasks[i].fromIp in Queues(tasks) {
      GroupIsFilter(tasks, tasks[i].fromIp);
      FilterMember(FromIp(tasks[i].fromIp), tasks, tasks[i]);
    }
  }

  lemma {:induction false} StaffedThroughout(tasks: seq<Task>, own: map<int, string>, keys: map<int, set<Key>>,
                                             trace: seq<Execution>, choices: seq<Choice>, n: nat)
    requires keys.Keys == own.Keys
    requires IsExecution(tasks, trace, choices) && Begins(tasks, own, keys, trace[0]) && n <= |choices|
    ensures Staffed(tasks, trace[n])
  {
    if n == 0 {
      StartsStaffed(tasks, own, keys);
    } else {
      StaffedThroughout(tasks, own, keys, trace, choices, n - 1);
      assert StepAt(tasks, trace, choices, n - 1);
      WorkerStepStaffed(tasks, trace[n - 1], trace[n], choices[n - 1].ip, choices[n - 1].task, choices[n - 1].ok);
    }
  }

  lemma WorkerStepInv(tasks: seq<Task>, own: map<int, string>, keys: map<int, set<Key>>,
                      e: Execution, e': Execution, c: Choice, allOk: bool)
    requires keys.Keys == own.Keys && WellPlanned(tasks, own)
    requires WorldInv(tasks, own, keys, e.world, allOk)
    requires WorkerStep(tasks, e, e', c.ip, c.task, c.ok) && (allOk ==> c.ok)
    ensures WorldInv(tasks, own, keys, e'.world, allOk)
  {
    if e'.world != e.world {
      StepInv(tasks, own, keys, e.world, e'.world, c.task, c.ok, allOk);
    }
  }

  lemma ExecutionNext(tasks: seq<Task>, own: map<int, string>, keys: map<int, set<Key>>,
                      trace: seq<Execution>, choices: seq<Choice>, n: nat, allOk: bool)
    requires keys.Keys == own.Keys && WellPlanned(tasks, own)
    requires IsExecution(tasks, trace, choices) && 0 < n <= |choices|
    requires (allOk ==> choices[n - 1].ok) && WorldInv(tasks, own, keys, trace[n - 1].world, allOk)
    ensures WorldInv(tasks, own, keys, trace[n].world, allOk)
  {
    assert StepAt(tasks, trace, choices, n - 1);
    WorkerStepInv(tasks, own, keys, trace[n - 1], trace[n], choices[n - 1], allOk);
  }

  lemma {:induction false} ExecutionInv(tasks: seq<Task>, own: map<int, string>, keys: map<int, set<Key>>,
                                        trace: seq<Execution>, choices: seq<Choice>, n: nat, allOk: bool)
    requires keys.Keys == own.Keys && WellPlanned(tasks, own)
    requires IsExecution(tasks, trace, choices) && Begins(tasks, own, keys, trace[0]) && n <= |choices|
    requires allOk ==> forall k :: 0 <= k < |choices| ==> choices[k].ok
    ensures WorldInv(tasks, own, keys, trace[n].world, allOk)
  {
    if n == 0 {
      InitialInv(tasks, own, keys, allOk);
    } else {
      ExecutionInv(tasks, own, keys, trace, choices, n - 1, allOk);
      ExecutionNext(tasks, own, keys, trace, choices, n, allOk);
    }
  }

  // In every state of every execution, whatever commands fail, every slot is
  // claimed by some node and no key of it is lost.
  lemma NothingIsLost(tasks: seq<Task>, own: map<int, string>, keys: map<int, set<Key>>,
                      trace: seq<Execution>, choices: seq<Choice>, n: nat, x: int)
    requires keys.Keys == own.Keys && WellPlanned(tasks, own)
    requires IsExecution(tasks, trace, choices) && Begins(tasks, own, keys, trace[0])
    requires n < |trace| && x in own
    ensures x in trace[n].world.slots && trace[n].world.slots[x].claims != {}
    ensures trace[n].world.slots[x].source + trace[n].world.slots[x].dest == keys[x]
  {
    ExecutionInv(tasks, own, keys, trace, choices, n, false);
    SlotIsSafe(tasks, own, keys, trace[n].world, false, x);
  }

  // In every state of every execution, whatever commands fail, at least as many keys
  // are still on the source as the slot has above 1000.
  lemma LargeSlotsKeepKeys(tasks: seq<Task>, own: map<int, string>, keys: map<int, set<Key>>,
                           trace: seq<Execution>, choices: seq<Choice>, n: nat, x: int)
    requires keys.Keys == own.Keys && WellPlanned(tasks, own)
    requires IsExecution(tasks, trace, choices) && Begins(tasks, own, keys, trace[0])
    requires n < |trace| && x in own
    ensures x in trace[n].world.slots && |trace[n].world.slots[x].source| >= |keys[x]| - FETCH_LIMIT
  {
    ExecutionInv(tasks, own, keys, trace, choices, n, false);
    SlotIsSafe(tasks, own, keys, trace[n].world, false, x);
    var s := trace[n].world.slots[x];
    assert |s.source + s.dest| <= |s.source| + |s.dest|;
  }

  // A slot with 1001 keys is never empty on its source.
  lemma OneKeyTooMany(tasks: seq<Task>, own: map<int, string>, keys: map<int, set<Key>>,
                      trace: seq<Execution>, choices: seq<Choice>, n: nat, x: int)
    requires keys.Keys == own.Keys && WellPlanned(tasks, own)
    requires IsExecution(tasks, trace, choices) && Begins(tasks, own, keys, trace[0])
    requires n < |trace| && x in own && |keys[x]| == 1001
    ensures x in trace[n].world.slots && trace[n].world.slots[x].source != {}
  {
    LargeSlotsKeepKeys(tasks, own, keys, trace, choices, n, x);
  }

  // When no command failed and the workers are done, every task is done.
  lemma TaskAtEnd(tasks: seq<Task>, own: map<int, string>, keys: map<int, set<Key>>,
                  trace: seq<Execution>, choices: seq<Choice>, i: nat)
    requires keys.Keys == own.Keys && WellPlanned(tasks, own) && i < |tasks|
    requires IsExecution(tasks, trace, choices) && Begins(tasks, own, keys, trace[0])
    requires forall k :: 0 <= k < |choices| ==> choices[k].ok
    requires Drained(Last(trace))
    ensures var w := Last(trace).world;
            && |w.phases| == |tasks| && w.phases[i].Done?
            && TaskGood(tasks[i], keys, w.phases[i], w.slots, true)
  {
    ExecutionInv(tasks, own, keys, trace, choices, |choices|, true);
    StaffedThroughout(tasks, own, keys, trace, choices, |choices|);
    DrainedMeansFinished(tasks, Last(trace), i);
  }

  // When no command failed and the workers are done, every slot has the one owner
  // the plan gives it, whatever the schedule was.
  lemma ScheduleDoesNotMatter(tasks: seq<Task>, own: map<int, string>, keys: map<int, set<Key>>,
                              trace: seq<Execution>, choices: seq<Choice>, x: int)
    requires keys.Keys == own.Keys && WellPlanned(tasks, own)
    requires IsExecution(tasks, trace, choices) && Begins(tasks, own, keys, trace[0])
    requires forall k :: 0 <= k < |choices| ==> choices[k].ok
    requires Drained(Last(trace)) && x in own
    ensures x in Last(trace).world.slots && x in Apply(own, tasks)
    ensures Last(trace).world.slots[x].claims == {Apply(own, tasks)[x]}
  {
    var w := Last(trace).world;
    if i :| 0 <= i < |tasks| && tasks[i].slot == x {
      TaskAtEnd(tasks, own, keys, trace, choices, i);
      DoneState(tasks[i], keys[x], w.phases[i], w.slots[x]);
      ApplyAtTask(own, tasks, i);
    } else {
      ExecutionInv(tasks, own, keys, trace, choices, |choices|, true);
      PlannedMember(tasks, x);
      ApplyUnplanned(own, tasks, x);
    }
  }

  // The keys of a migrated slot are then all on the destination, exactly when the
  // slot had at most 1000; otherwise the rest stays on the source.
  lemma AllKeysArrive(tasks: seq<Task>, own: map<int, string>, keys: map<int, set<Key>>,
                      trace: seq<Execution>, choices: seq<Choice>, i: nat)
    requires keys.Keys == own.Keys && WellPlanned(tasks, own) && i < |tasks|
    requires IsExecution(tasks, trace, choices) && Begins(tasks, own, keys, trace[0])
    requires forall k :: 0 <= k < |choices| ==> choices[k].ok
    requires Drained(Last(trace))
    ensures tasks[i].slot in Last(trace).world.slots
    ensures var s := Last(trace).world.slots[tasks[i].slot];
            && s.source == keys[tasks[i].slot] - s.dest && s.dest <= keys[tasks[i].slot]
            && (s.source == {} <==> |keys[tasks[i].slot]| <= FETCH_LIMIT)
  {
    TaskAtEnd(tasks, own, keys, trace, choices, i);
    var w := Last(trace).world;
    DoneState(tasks[i], keys[tasks[i].slot], w.phases[i], w.slots[tasks[i].slot]);
  }

  lemma PlanIsWellPlanned(t: Topology, cluster: string, olds: seq<string>)
    requires ScaledOut(t, cluster, olds)
    ensures WellPlanned(Plan(t, cluster, Counts(t)).tasks, Created(olds))
  {
    CreatedComplete(t, cluster, olds);
    PlanSound(t, cluster, Created(olds), Counts(t));
  }

  // End to end: a cluster is created, scaled out, planned and migrated.  If no
  // command fails then, whatever the schedule, every slot x ends claimed by exactly
  // one node, the owner after the plan, and these owners are balanced.
  lemma ScaleOutReachesBalance(t: Topology, cluster: string, olds: seq<string>, keys: map<int, set<Key>>,
                               trace: seq<Execution>, choices: seq<Choice>, x: int)
    requires ScaledOut(t, cluster, olds) && keys.Keys == Created(olds).Keys
    requires var tasks := Plan(t, cluster, Counts(t)).tasks;
             IsExecution(tasks, trace, choices) && Begins(tasks, Created(olds), keys, trace[0])
    requires (forall k :: 0 <= k < |choices| ==> choices[k].ok) && Drained(Last(trace))
    requires x in Created(olds)
    ensures Balanced(t, Created(olds), Plan(t, cluster, Counts(t)))
    ensures var after := Apply(Created(olds), Plan(t, cluster, Counts(t)).tasks);
            x in after && x in Last(trace).world.slots && Last(trace).world.slots[x].claims == {after[x]}
  {
    RebalanceAfterCreate(t, cluster, olds);
    PlanIsWellPlanned(t, cluster, olds);
    ScheduleDoesNotMatter(Plan(t, cluster, Counts(t)).tasks, Created(olds), keys, trace, choices, x);
  }
}
