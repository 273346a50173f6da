// Every migration comes to an end, and when it can succeed
// (cluster/model/manager.go, executeSlotMigration and migrateSlotShared).
module MigrationProgress {
  import opened Basics
  import opened SlotPlanner
  import opened KeyMoves
  import opened SlotMigration
  import opened SlotAllocation
  import opened Rebalance

  // ----- Every step brings the end nearer -----

  function Cost(c: KeyCommand): nat {
    if c.Copy? then 2 else 1
  }

  function WorkCost(work: seq<KeyCommand>): nat {
    if work == [] then 0 else Cost(work[0]) + WorkCost(work[1..])
  }

  // Up to 1000 copies with their deletes, and eleven batches.
  const MOST_WORK := 2 * FETCH_LIMIT + 11

  function PhaseCost(p: Phase): nat {
    match p
    case Start => MOST_WORK + 5
    case Imported => MOST_WORK + 4
    case Opened => MOST_WORK + 3
    case Moving(_, work) => WorkCost(work) + 2
    case DestClosed(_) => 1
    case Done(_) => 0
    case Failed => 0
  }

  // What task i still costs: its commands, being taken and being released.
  function TaskCost(tasks: seq<Task>, e: Execution, i: nat): nat
    requires i < |tasks| && i < |e.world.phases|
  {
    var ip := tasks[i].fromIp;
    PhaseCost(e.world.phases[i])
    + if ip !in e.pools then 0 else if i in e.pools[ip].queue then 2 else if i in e.pools[ip].busy then 1 else 0
  }

  function CostOfFirst(tasks: seq<Task>, e: Execution, n: nat): nat
    requires n <= |tasks| && n <= |e.world.phases|
  {
    if n == 0 then 0 else CostOfFirst(tasks, e, n - 1) + TaskCost(tasks, e, n - 1)
  }

  lemma {:induction false} WorkCostConcat(a: seq<KeyCommand>, b: seq<KeyCommand>)
    ensures WorkCost(a + b) == WorkCost(a) + WorkCost(b)
  {
    if a == [] {
      assert a + b == b;
    } else {
      assert (a + b)[1..] == a[1..] + b;
      WorkCostConcat(a[1..], b);
    }
  }

  lemma {:induction false} CopiesCost(big: seq<Key>)
    ensures WorkCost(Copies(big)) == 2 * |big|
  {
    if big != [] { CopiesCost(big[1..]); }
  }

  lemma {:induction false} BatchesCost(chunks: seq<seq<Key>>)
    ensures WorkCost(Batches(chunks)) == |chunks|
  {
    if chunks != [] { BatchesCost(chunks[1..]); }
  }

  lemma CommandsCost(keys: seq<Key>, size: Sizes)
    requires |keys| <= FETCH_LIMIT
    ensures WorkCost(Commands(keys, size)) <= MOST_WORK
  {
    if |keys| > SMALL_KEY_BATCH {
      var normal, big := Filter(IsNormal(size), keys), Filter(IsBig(size), keys);
      var chunks := ChunksOf(normal, ChunkSize(|normal|));
      WorkCostConcat(Copies(big), Batches(chunks));
      CopiesCost(big);
      BatchesCost(chunks);
      AtMostElevenChunks(normal);
      FilterLength(IsBig(size), keys);
    } else if keys != [] {
      assert WorkCost([Batch(keys)]) == 1 + WorkCost([]);
    }
  }

  lemma TaskStepCosts(t: Task, p: Phase, s: SlotState, p': Phase, s': SlotState, ok: bool)
    requires TaskStep(t, p, s, p', s', ok)
    ensures PhaseCost(p') < PhaseCost(p)
  {
    if p.Opened? {
      var keys, size :| Fetches(s, keys, size, p'.fetched, p'.work, ok);
      SetOfDistinct(keys);
      CommandsCost(keys, size);
    } else if p.Moving? && p.work != [] && p.work[0].Copy? && ok {
      assert ([Delete(p.work[0].key)] + p.work[1..])[1..] == p.work[1..];
    }
  }

  lemma {:induction false} OthersCostTheSame(tasks: seq<Task>, e: Execution, e': Execution, i: nat, n: nat)
    requires n <= |tasks| == |e.world.phases| == |e'.world.phases|
    requires forall j :: 0 <= j < |tasks| && j != i ==> TaskCost(tasks, e', j) == TaskCost(tasks, e, j)
    requires i < |tasks| && TaskCost(tasks, e', i) < TaskCost(tasks, e, i)
    ensures CostOfFirst(tasks, e', n) <= CostOfFirst(tasks, e, n)
    ensures i < n ==> CostOfFirst(tasks, e', n) < CostOfFirst(tasks, e, n)
  {
    if n > 0 { OthersCostTheSame(tasks, e, e', i, n - 1); }
  }

  // Only task i gets cheaper.
  ghost predicate Cheaper(tasks: seq<Task>, e: Execution, e': Execution, i: nat) {
    && i < |tasks| == |e.world.phases| == |e'.world.phases|
    && TaskCost(tasks, e', i) < TaskCost(tasks, e, i)
    && forall j :: 0 <= j < |tasks| && j != i ==> TaskCost(tasks, e', j) == TaskCost(tasks, e, j)
  }

  lemma TakeCosts(tasks: seq<Task>, e: Execution, e': Execution, ip: string)
    requires Staffed(tasks, e) && ip in e.pools && e.pools[ip].queue != []
    requires var pool := e.pools[ip];
             e' == Execution(e.pools[ip := Pool(pool.queue[1..], pool.busy + {pool.queue[0]})], e.world)
    ensures Cheaper(tasks, e, e', e.pools[ip].queue[0])
  {
    var pool := e.pools[ip];
    var i, rest := pool.queue[0], pool.queue[1..];
    assert pool.queue == [i] + rest;
    assert i in pool.queue && Distinct(pool.queue);
    assert i !in rest;
    assert forall j :: j in pool.queue <==> j == i || j in rest;
  }

  lemma ReleaseCosts(tasks: seq<Task>, e: Execution, e': Execution, ip: string, i: nat)
    requires Staffed(tasks, e) && ip in e.pools && i in e.pools[ip].busy
    requires e' == Execution(e.pools[ip := e.pools[ip].(busy := e.pools[ip].busy - {i})], e.world)
    ensures Cheaper(tasks, e, e', i)
  {
    assert i !in e.pools[ip].queue;
  }

  lemma CommandCosts(tasks: seq<Task>, e: Execution, e': Execution, i: nat, ok: bool)
    requires Staffed(tasks, e) && Step(tasks, e.world, e'.world, i, ok) && e'.pools == e.pools
    ensures Cheaper(tasks, e, e', i)
  {
    var x := tasks[i].slot;
    TaskStepCosts(tasks[i], e.world.phases[i], e.world.slots[x], e'.world.phases[i], e'.world.slots[x], ok);
  }

  lemma StepCosts(tasks: seq<Task>, e: Execution, e': Execution, ip: string, i: nat, ok: bool)
    requires Staffed(tasks, e) && WorkerStep(tasks, e, e', ip, i, ok)
    ensures |e'.world.phases| == |tasks| && CostOfFirst(tasks, e', |tasks|) < CostOfFirst(tasks, e, |tasks|)
  {
    var pool := e.pools[ip];
    if pool.queue != [] && i == pool.queue[0]
       && e' == Execution(e.pools[ip := Pool(pool.queue[1..], pool.busy + {i})], e.world) {
      TakeCosts(tasks, e, e', ip);
    } else if Step(tasks, e.world, e'.world, i, ok) && e'.pools == e.pools {
      CommandCosts(tasks, e, e', i, ok);
    } else {
      ReleaseCosts(tasks, e, e', ip, i);
    }
    OthersCostTheSame(tasks, e, e', i, |tasks|);
  }

  lemma {:induction false} StartCost(tasks: seq<Task>, e: Execution, n: nat)
    requires n <= |tasks| == |e.world.phases| && forall i :: 0 <= i < |tasks| ==> e.world.phases[i] == Start
    ensures CostOfFirst(tasks, e, n) <= n * (MOST_WORK + 7)
  {
    if n > 0 {
      StartCost(tasks, e, n - 1);
      assert n * (MOST_WORK + 7) == (n - 1) * (MOST_WORK + 7) + (MOST_WORK + 7);
    }
  }

  lemma StepCostsAt(tasks: seq<Task>, own: map<int, string>, keys: map<int, set<Key>>,
                    trace: seq<Execution>, choices: seq<Choice>, k: nat)
    requires keys.Keys == own.Keys
    requires IsExecution(tasks, trace, choices) && Begins(tasks, own, keys, trace[0]) && k < |choices|
    ensures |trace[k].world.phases| == |tasks| == |trace[k + 1].world.phases|
    ensures CostOfFirst(tasks, trace[k + 1], |tasks|) < CostOfFirst(tasks, trace[k], |tasks|)
  {
    StaffedThroughout(tasks, own, keys, trace, choices, k);
    assert StepAt(tasks, trace, choices, k);
    StepCosts(tasks, trace[k], trace[k + 1], choices[k].ip, choices[k].task, choices[k].ok);
  }

  lemma {:induction false} StepsAreBounded(tasks: seq<Task>, own: map<int, string>, keys: map<int, set<Key>>,
                                           trace: seq<Execution>, choices: seq<Choice>, n: nat)
    requires keys.Keys == own.Keys
    requires IsExecution(tasks, trace, choices) && Begins(tasks, own, keys, trace[0]) && n <= |choices|
    ensures |trace[n].world.phases| == |tasks| == |trace[0].world.phases|
    ensures CostOfFirst(tasks, trace[n], |tasks|) + n <= CostOfFirst(tasks, trace[0], |tasks|)
  {
    if n > 0 {
      StepsAreBounded(tasks, own, keys, trace, choices, n - 1);
      StepCostsAt(tasks, own, keys, trace, choices, n - 1);
    }
  }

  // No execution has more than 2018 steps per task, whatever fails.
  lemma MigrationEnds(tasks: seq<Task>, own: map<int, string>, keys: map<int, set<Key>>,
                      trace: seq<Execution>, choices: seq<Choice>)
    requires keys.Keys == own.Keys
    requires IsExecution(tasks, trace, choices) && Begins(tasks, own, keys, trace[0])
    ensures |choices| <= |tasks| * 2018
  {
    StepsAreBounded(tasks, own, keys, trace, choices, |choices|);
    StartCost(tasks, trace[0], |tasks|);
  }

  // ----- A state that is not the end has a next step -----

  lemma {:induction false} SomeOrder(keys: set<Key>, most: nat) returns (ks: seq<Key>)
    ensures Distinct(ks) && (forall k :: k in ks ==> k in keys)
    ensures |ks| <= most && (|ks| == most || forall k :: k in keys ==> k in ks)
  {
    if keys == {} || most == 0 {
      ks := [];
    } else {
      var k :| k in keys;
      var rest := SomeOrder(keys - {k}, most - 1);
      ks := rest + [k];
      assert forall x :: x in ks <==> x in rest || x == k;
    }
  }

  lemma SomeFetch(s: SlotState) returns (ks: seq<Key>, size: Sizes, fetched: set<Key>)
    ensures Fetches(s, ks, size, fetched, Commands(ks, size), true)
  {
    ks := SomeOrder(s.source, FETCH_LIMIT);
    size := _ => Some(0);
    SetOfDistinct(ks);
    fetched := set k | k in ks;
    if |ks| < FETCH_LIMIT { assert fetched == s.source; }
  }

  lemma FetchCanGoOn(s: SlotState) returns (fetched: set<Key>, work: seq<KeyCommand>)
    ensures FetchStep(s, fetched, work, true)
  {
    var ks, size, all := SomeFetch(s);
    fetched, work := all, Commands(ks, size);
  }

  lemma KeysCanGoOn(work: seq<KeyCommand>, s: SlotState) returns (work': seq<KeyCommand>, s': SlotState)
    requires work != []
    ensures KeyStep(work, s, work', s', true)
  {
    match work[0]
    case Copy(k) => work', s' := [Delete(k)] + work[1..], s.(dest := s.dest + s.source * {k});
    case Delete(k) => work', s' := work[1..], s.(source := s.source - {k});
    case Batch(_) =>
      var ks := Handled(work[0]) * s.source;
      work', s' := work[1..], s.(source := s.source - ks, dest := s.dest + ks);
  }

  // A task that is not finished can go on, without a failure.
  lemma TaskCanGoOn(t: Task, p: Phase, s: SlotState) returns (p': Phase, s': SlotState)
    requires !Finished(p)
    ensures TaskStep(t, p, s, p', s', true)
  {
    p', s' := Start, s;
    match p
    case Start => p' := Imported;
    case Imported => p' := Opened;
    case Opened =>
      var fetched, work := FetchCanGoOn(s);
      p' := Moving(fetched, work);
    case Moving(fetched, work) =>
      if work == [] {
        p', s' := DestClosed(fetched), s.(claims := s.claims + {t.toId});
      } else {
        var work', next := KeysCanGoOn(work, s);
        p', s' := Moving(fetched, work'), next;
      }
    case DestClosed(fetched) =>
      p', s' := Done(fetched), s.(claims := s.claims - {t.fromId});
  }

  // Unless all channels are drained and all workers idle, some worker has a next
  // step that succeeds.
  lemma SomeWorkerCanGoOn(tasks: seq<Task>, e: Execution) returns (e': Execution, c: Choice)
    requires Staffed(tasks, e) && !Drained(e)
    requires forall i :: 0 <= i < |tasks| ==> tasks[i].slot in e.world.slots
    ensures c.ok && WorkerStep(tasks, e, e', c.ip, c.task, c.ok)
  {
    var ip :| ip in e.pools && e.pools[ip] != Pool([], {});
    var pool := e.pools[ip];
    if pool.busy == {} {
      c := Choice(ip, pool.queue[0], true);
      e' := Execution(e.pools[ip := Pool(pool.queue[1..], pool.busy + {pool.queue[0]})], e.world);
    } else {
      var i :| i in pool.busy;
      c := Choice(ip, i, true);
      var w, x := e.world, tasks[i].slot;
      if Finished(w.phases[i]) {
        e' := Execution(e.pools[ip := pool.(busy := pool.busy - {i})], w);
      } else {
        var p', s' := TaskCanGoOn(tasks[i], w.phases[i], w.slots[x]);
        e' := Execution(e.pools, World(w.slots[x := s'], w.phases[i := p']));
        assert Step(tasks, w, e'.world, i, true);
      }
    }
  }

  // ----- A server that keeps a slot as long as it has keys of it -----

  // SETSLOT NODE is refused by a source that still has keys of the slot.
  ghost predicate KeepsUntilEmpty(tasks: seq<Task>, e: Execution, e': Execution) {
    |e.world.phases| == |tasks| == |e'.world.phases| ==>
      forall i :: 0 <= i < |tasks| && tasks[i].slot in e.world.slots
                  && e'.world.phases[i].Done? && !e.world.phases[i].Done? ==>
        e.world.slots[tasks[i].slot].source == {}
  }

  ghost predicate StrictRun(tasks: seq<Task>, own: map<int, string>, keys: map<int, set<Key>>,
                            trace: seq<Execution>, choices: seq<Choice>)
    requires keys.Keys == own.Keys
  {
    && IsExecution(tasks, trace, choices) && Begins(tasks, own, keys, trace[0])
    && forall k :: 0 < k < |trace| ==> KeepsUntilEmpty(tasks, trace[k - 1], trace[k])
  }

  // With such servers a slot with more than 1000 keys is never handed over.
  lemma {:induction false} LargeSlotsStay(tasks: seq<Task>, own: map<int, string>, keys: map<int, set<Key>>,
                                          trace: seq<Execution>, choices: seq<Choice>, n: nat, i: nat)
    requires keys.Keys == own.Keys && WellPlanned(tasks, own) && i < |tasks|
    requires StrictRun(tasks, own, keys, trace, choices) && n < |trace|
    requires |keys[tasks[i].slot]| > FETCH_LIMIT
    ensures |trace[n].world.phases| == |tasks| && !trace[n].world.phases[i].Done?
  {
    StaffedThroughout(tasks, own, keys, trace, choices, n);
    if n > 0 {
      LargeSlotsStay(tasks, own, keys, trace, choices, n - 1, i);
      LargeSlotsKeepKeys(tasks, own, keys, trace, choices, n - 1, tasks[i].slot);
      assert KeepsUntilEmpty(tasks, trace[n - 1], trace[n]);
    }
  }

  ghost predicate Succeeds(tasks: seq<Task>, own: map<int, string>, keys: map<int, set<Key>>,
                           trace: seq<Execution>, choices: seq<Choice>)
    requires keys.Keys == own.Keys
  {
    && StrictRun(tasks, own, keys, trace, choices)
    && (forall k :: 0 <= k < |choices| ==> choices[k].ok)
    && Drained(Last(trace))
  }

  ghost predicate AllSmall(tasks: seq<Task>, keys: map<int, set<Key>>) {
    forall i :: 0 <= i < |tasks| ==> tasks[i].slot in keys && |keys[tasks[i].slot]| <= FETCH_LIMIT
  }

  // A small slot is empty on its source by the time the source is asked to let go.
  lemma SmallSlotsEmpty(t: Task, keys: map<int, set<Key>>, p: Phase, slots: map<int, SlotState>)
    requires TaskGood(t, keys, p, slots, true) && p.DestClosed? && |keys[t.slot]| <= FETCH_LIMIT
    ensures slots[t.slot].source == {}
  {
    if p.fetched < keys[t.slot] { SubsetSize(p.fetched, keys[t.slot]); }
  }

  lemma NextIsStrict(tasks: seq<Task>, own: map<int, string>, keys: map<int, set<Key>>,
                     e: Execution, e': Execution, c: Choice)
    requires keys.Keys == own.Keys && WellPlanned(tasks, own) && AllSmall(tasks, keys)
    requires WorldInv(tasks, own, keys, e.world, true) && WorkerStep(tasks, e, e', c.ip, c.task, c.ok)
    ensures KeepsUntilEmpty(tasks, e, e')
  {
    var i := c.task;
    if e'.world != e.world && e'.world.phases[i].Done? {
      assert TaskGood(tasks[i], keys, e.world.phases[i], e.world.slots, true);
      SmallSlotsEmpty(tasks[i], keys, e.world.phases[i], e.world.slots);
    }
  }

  lemma Extend(tasks: seq<Task>, own: map<int, string>, keys: map<int, set<Key>>,
               trace: seq<Execution>, choices: seq<Choice>, e': Execution, c: Choice)
    requires keys.Keys == own.Keys && StrictRun(tasks, own, keys, trace, choices)
    requires WorkerStep(tasks, Last(trace), e', c.ip, c.task, c.ok) && KeepsUntilEmpty(tasks, Last(trace), e')
    ensures StrictRun(tasks, own, keys, trace + [e'], choices + [c])
  {
    var t, cs := trace + [e'], choices + [c];
    forall k | 0 <= k < |cs| ensures StepAt(tasks, t, cs, k) {
      if k < |choices| { assert StepAt(tasks, trace, choices, k); }
    }
    forall k | 0 < k < |t| ensures KeepsUntilEmpty(tasks, t[k - 1], t[k]) {
      if k < |trace| { assert KeepsUntilEmpty(tasks, trace[k - 1], trace[k]); }
    }
  }

  lemma {:induction false} OneMoreStep(tasks: seq<Task>, own: map<int, string>, keys: map<int, set<Key>>,
                                       trace: seq<Execution>, choices: seq<Choice>)
      returns (e': Execution, c: Choice)
    requires keys.Keys == own.Keys && WellPlanned(tasks, own) && AllSmall(tasks, keys)
    requires StrictRun(tasks, own, keys, trace, choices) && forall k :: 0 <= k < |choices| ==> choices[k].ok
    requires !Drained(Last(trace))
    ensures c.ok && StrictRun(tasks, own, keys, trace + [e'], choices + [c])
    ensures |Last(trace).world.phases| == |tasks| == |e'.world.phases|
    ensures CostOfFirst(tasks, e', |tasks|) < CostOfFirst(tasks, Last(trace), |tasks|)
  {
    ExecutionInv(tasks, own, keys, trace, choices, |choices|, true);
    StaffedThroughout(tasks, own, keys, trace, choices, |choices|);
    e', c := SomeWorkerCanGoOn(tasks, Last(trace));
    NextIsStrict(tasks, own, keys, Last(trace), e', c);
    Extend(tasks, own, keys, trace, choices, e', c);
    StepCosts(tasks, Last(trace), e', c.ip, c.task, c.ok);
  }

  // Any run without failures so far can be continued to the end without failures.
  lemma {:induction false} CanFinish(tasks: seq<Task>, own: map<int, string>, keys: map<int, set<Key>>,
                                     trace: seq<Execution>, choices: seq<Choice>)
      returns (trace': seq<Execution>, choices': seq<Choice>)
    requires keys.Keys == own.Keys && WellPlanned(tasks, own) && AllSmall(tasks, keys)
    requires StrictRun(tasks, own, keys, trace, choices) && forall k :: 0 <= k < |choices| ==> choices[k].ok
    requires |Last(trace).world.phases| == |tasks|
    ensures Succeeds(tasks, own, keys, trace', choices')
    ensures trace <= trace' && choices <= choices'
    decreases CostOfFirst(tasks, Last(trace), |tasks|)
  {
    if Drained(Last(trace)) {
      return trace, choices;
    }
    var e', c := OneMoreStep(tasks, own, keys, trace, choices);
    trace', choices' := CanFinish(tasks, own, keys, trace + [e'], choices + [c]);
  }

  // A migration can end with every command successful exactly when no planned slot
  // has more than 1000 keys.
  lemma CanSucceed(tasks: seq<Task>, own: map<int, string>, keys: map<int, set<Key>>)
    requires keys.Keys == own.Keys && WellPlanned(tasks, own)
    ensures (exists trace, choices :: Succeeds(tasks, own, keys, trace, choices)) <==> AllSmall(tasks, keys)
  {
    if AllSmall(tasks, keys) {
      var first := Execution(Queues(tasks), Initially(own, keys, |tasks|));
      var trace, choices := CanFinish(tasks, own, keys, [first], []);
    }
    if trace, choices :| Succeeds(tasks, own, keys, trace, choices) {
      forall i | 0 <= i < |tasks| ensures tasks[i].slot in keys && |keys[tasks[i].slot]| <= FETCH_LIMIT {
        TaskAtEnd(tasks, own, keys, trace, choices, i);
        if |keys[tasks[i].slot]| > FETCH_LIMIT {
          LargeSlotsStay(tasks, own, keys, trace, choices, |choices|, i);
        }
      }
    }
  }

  // At the end of the execution every slot is claimed by exactly its planned owner.
  ghost predicate ReachesPlan(own: map<int, string>, tasks: seq<Task>, e: Execution) {
    var after := Apply(own, tasks);
    forall x :: x in own ==> x in after && x in e.world.slots && e.world.slots[x].claims == {after[x]}
  }

  lemma SuccessReachesPlan(t: Topology, cluster: string, olds: seq<string>, keys: map<int, set<Key>>,
                           trace: seq<Execution>, choices: seq<Choice>)
    requires ScaledOut(t, cluster, olds) && keys.Keys == Created(olds).Keys
    requires Succeeds(Plan(t, cluster, Counts(t)).tasks, Created(olds), keys, trace, choices)
    ensures ReachesPlan(Created(olds), Plan(t, cluster, Counts(t)).tasks, Last(trace))
  {
    forall x | x in Created(olds)
      ensures var after := Apply(Created(olds), Plan(t, cluster, Counts(t)).tasks);
              x in after && x in Last(trace).world.slots && Last(trace).world.slots[x].claims == {after[x]}
    {
      ScaleOutReachesBalance(t, cluster, olds, keys, trace, choices, x);
    }
  }

  // End to end: after create and scale-out some execution succeeds, with every slot
  // claimed by exactly its owner after the plan and these owners balanced, exactly when
  // no planned slot has more than 1000 keys.
  lemma ScaleOutCanSucceed(t: Topology, cluster: string, olds: seq<string>, keys: map<int, set<Key>>)
    requires ScaledOut(t, cluster, olds) && keys.Keys == Created(olds).Keys
    ensures var tasks := Plan(t, cluster, Counts(t)).tasks;
            (exists trace, choices ::
               Succeeds(tasks, Created(olds), keys, trace, choices) && ReachesPlan(Created(olds), tasks, Last(trace)))
            <==> AllSmall(tasks, keys)
    ensures Balanced(t, Created(olds), Plan(t, cluster, Counts(t)))
  {
    var tasks := Plan(t, cluster, Counts(t)).tasks;
    RebalanceAfterCreate(t, cluster, olds);
    PlanIsWellPlanned(t, cluster, olds);
    CanSucceed(tasks, Created(olds), keys);
    if trace, choices :| Succeeds(tasks, Created(olds), keys, trace, choices) {
      SuccessReachesPlan(t, cluster, olds, keys, trace, choices);
    }
  }
}
