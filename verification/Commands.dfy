// The Redis commands a migration issues, task by task (cluster/model/manager.go,
// migrateSlotShared, setupSlotMigration, migrateSlotKeys and finalizeSlotMigration).
module MigrationCommands {
  import opened Basics
  import opened SlotPlanner
  import opened KeyMoves
  import opened SlotMigration

  datatype Mode = Importing | Migrating | Owner

  // port is the one of the server that gets the command.
  datatype Command =
    | SetSlot(port: nat, slot: int, mode: Mode, node: string)
    | GetKeys(port: nat, slot: int, count: nat)
    | KeyWork(port: nat, work: KeyCommand, toIp: string, toPort: nat)

  // ----- What the task should issue -----

  // First the slot is opened on both sides, the destination first, and the keys fetched.
  function Opening(t: Task): seq<Command> {
    [SetSlot(t.destHostPort, t.slot, Importing, t.fromId), SetSlot(t.fromHostPort, t.slot, Migrating, t.toId),
     GetKeys(t.fromHostPort, t.slot, 1000)]
  }

  // Then the source is told to move the keys.
  function Sent(t: Task, work: seq<KeyCommand>): seq<Command> {
    if work == [] then []
    else Sent(t, Front(work)) + [KeyWork(t.fromHostPort, Last(work), t.toIp, t.containerPort)]
  }

  // And last the slot is given to the destination, there first.
  function Closing(t: Task): seq<Command> {
    [SetSlot(t.destHostPort, t.slot, Owner, t.toId), SetSlot(t.fromHostPort, t.slot, Owner, t.toId)]
  }

  function Script(t: Task, work: seq<KeyCommand>): seq<Command> {
    Opening(t) + Sent(t, work) + Closing(t)
  }

  // The key commands, with the Delete that follows every successful Copy.
  function Expand(work: seq<KeyCommand>): seq<KeyCommand> {
    if work == [] then []
    else (if work[0].Copy? then [work[0], Delete(work[0].key)] else [work[0]]) + Expand(work[1..])
  }

  // all are the commands for the fetched keys, when every size was found.
  ghost predicate CommandsFor(fetched: set<Key>, all: seq<KeyCommand>, ks: seq<Key>, size: Sizes) {
    && Distinct(ks) && fetched == (set k | k in ks) && (forall k :: k in ks ==> size(k).Some?)
    && all == Expand(Commands(ks, size))
  }

  ghost predicate Complete(fetched: set<Key>, all: seq<KeyCommand>) {
    exists ks: seq<Key>, size: Sizes :: CommandsFor(fetched, all, ks, size)
  }

  // ----- What it issues -----

  // The command of a task in phase p.
  function Issued(t: Task, p: Phase): Command
    requires !Finished(p)
  {
    match p
    case Start => SetSlot(t.destHostPort, t.slot, Importing, t.fromId)
    case Imported => SetSlot(t.fromHostPort, t.slot, Migrating, t.toId)
    case Opened => GetKeys(t.fromHostPort, t.slot, FETCH_LIMIT)
    case Moving(_, work) =>
      if work == [] then SetSlot(t.destHostPort, t.slot, Owner, t.toId)
      else KeyWork(t.fromHostPort, work[0], t.toIp, t.containerPort)
    case DestClosed(_) => SetSlot(t.fromHostPort, t.slot, Owner, t.toId)
  }

  // The commands of task i in the first n steps of an execution.
  ghost function Log(tasks: seq<Task>, trace: seq<Execution>, choices: seq<Choice>, i: nat, n: nat): seq<Command>
    requires |trace| == |choices| + 1 && n <= |choices| && i < |tasks|
  {
    if n == 0 then []
    else
      var before, after := trace[n - 1].world, trace[n].world;
      Log(tasks, trace, choices, i, n - 1) +
      if after != before && choices[n - 1].task == i && i < |before.phases| && !Finished(before.phases[i])
      then [Issued(tasks[i], before.phases[i])] else []
  }

  // The log of a task in phase p, when done are the key commands issued so far, and all
  // are those it issues if none fails.
  ghost predicate LogIs(t: Task, p: Phase, done: seq<KeyCommand>, all: seq<KeyCommand>, log: seq<Command>,
                        allOk: bool)
  {
    match p
    case Start => log == []
    case Imported => log == Opening(t)[..1]
    case Opened => log == Opening(t)[..2]
    case Moving(_, work) => log == Opening(t) + Sent(t, done) && (allOk ==> done + Expand(work) == all)
    case DestClosed(_) => log == Opening(t) + Sent(t, done) + Closing(t)[..1] && (allOk ==> done == all)
    case Done(_) => log == Script(t, done) && (allOk ==> done == all)
    case Failed => log <= Script(t, done)
  }

  // all are the commands for what was fetched.
  ghost predicate FetchedAll(p: Phase, all: seq<KeyCommand>, allOk: bool) {
    allOk && (p.Moving? || p.DestClosed? || p.Done?) ==> Complete(p.fetched, all)
  }

  lemma OpeningStep(t: Task, p: Phase, s: SlotState, p': Phase, s': SlotState, ok: bool, log: seq<Command>, allOk: bool)
    requires (p.Start? || p.Imported?) && TaskStep(t, p, s, p', s', ok) && LogIs(t, p, [], [], log, allOk)
    ensures LogIs(t, p', [], [], log + [Issued(t, p)], allOk)
  {
    assert Opening(t)[..2] == Opening(t)[..1] + [Opening(t)[1]];
  }

  lemma FetchLogs(t: Task, p: Phase, p': Phase, log: seq<Command>, allOk: bool)
    requires p.Opened? && p'.Moving? && LogIs(t, p, [], [], log, allOk)
    ensures LogIs(t, p', [], Expand(p'.work), log + [Issued(t, p)], allOk)
  {
    assert Opening(t) == Opening(t)[..2] + [Opening(t)[2]];
    assert Opening(t) + [] == Opening(t);
    assert [] + Expand(p'.work) == Expand(p'.work);
  }

  lemma FetchIsComplete(s: SlotState, fetched: set<Key>, work: seq<KeyCommand>)
    requires FetchStep(s, fetched, work, true)
    ensures Complete(fetched, Expand(work))
  {
    var ks: seq<Key>, size: Sizes :| Fetches(s, ks, size, fetched, work, true);
    assert CommandsFor(fetched, Expand(work), ks, size);
  }

  lemma SentSnoc(t: Task, done: seq<KeyCommand>, c: KeyCommand)
    ensures var next := KeyWork(t.fromHostPort, c, t.toIp, t.containerPort);
            Opening(t) + Sent(t, done) + [next] == Opening(t) + Sent(t, done + [c])
  {
    assert Front(done + [c]) == done;
  }

  // The first command is taken off; a Copy leaves its Delete.
  lemma ExpandNext(done: seq<KeyCommand>, work: seq<KeyCommand>, work': seq<KeyCommand>, s: SlotState, s': SlotState)
    requires work != [] && KeyStep(work, s, work', s', true)
    ensures done + [work[0]] + Expand(work') == done + Expand(work)
  {
    if work[0].Copy? {
      assert ([Delete(work[0].key)] + work[1..])[1..] == work[1..];
    }
  }

  lemma KeyStepLogs(t: Task, p: Phase, s: SlotState, p': Phase, s': SlotState, ok: bool, done: seq<KeyCommand>,
                    all: seq<KeyCommand>, log: seq<Command>, allOk: bool)
    requires p.Moving? && p.work != [] && TaskStep(t, p, s, p', s', ok) && LogIs(t, p, done, all, log, allOk)
    requires allOk ==> ok
    ensures LogIs(t, p', done + [p.work[0]], all, log + [Issued(t, p)], allOk)
  {
    SentSnoc(t, done, p.work[0]);
    if allOk { ExpandNext(done, p.work, p'.work, s, s'); }
  }

  lemma ClosingStep(t: Task, p: Phase, s: SlotState, p': Phase, s': SlotState, ok: bool, done: seq<KeyCommand>,
                    all: seq<KeyCommand>, log: seq<Command>, allOk: bool)
    requires ((p.Moving? && p.work == []) || p.DestClosed?) && TaskStep(t, p, s, p', s', ok)
    requires LogIs(t, p, done, all, log, allOk) && (allOk ==> ok)
    ensures LogIs(t, p', done, all, log + [Issued(t, p)], allOk)
  {
    var sofar := Opening(t) + Sent(t, done);
    assert Closing(t) == [Closing(t)[0]] + [Closing(t)[1]] && Closing(t)[..1] == [Closing(t)[0]];
    assert sofar + [Closing(t)[0]] + [Closing(t)[1]] == Script(t, done);
    assert done + [] == done;
  }

  lemma StepLogs(t: Task, p: Phase, s: SlotState, p': Phase, s': SlotState, ok: bool, done: seq<KeyCommand>,
                 all: seq<KeyCommand>, log: seq<Command>, allOk: bool)
      returns (done': seq<KeyCommand>, all': seq<KeyCommand>)
    requires TaskStep(t, p, s, p', s', ok) && LogIs(t, p, done, all, log, allOk) && (allOk ==> ok)
    requires FetchedAll(p, all, allOk)
    ensures LogIs(t, p', done', all', log + [Issued(t, p)], allOk) && FetchedAll(p', all', allOk)
  {
    match p
    case Start =>
      done', all' := [], [];
      OpeningStep(t, p, s, p', s', ok, log, allOk);
    case Imported =>
      done', all' := [], [];
      OpeningStep(t, p, s, p', s', ok, log, allOk);
    case Opened =>
      done', all' := [], Expand(p'.work);
      FetchLogs(t, p, p', log, allOk);
      if allOk { FetchIsComplete(s, p'.fetched, p'.work); }
    case Moving(_, work) =>
      all' := all;
      if work == [] {
        done' := done;
        ClosingStep(t, p, s, p', s', ok, done, all, log, allOk);
      } else {
        done' := done + [work[0]];
        KeyStepLogs(t, p, s, p', s', ok, done, all, log, allOk);
      }
    case DestClosed(_) =>
      done', all' := done, all;
      ClosingStep(t, p, s, p', s', ok, done, all, log, allOk);
  }

  ghost predicate TaskLogged(tasks: seq<Task>, trace: seq<Execution>, choices: seq<Choice>, i: nat, n: nat,
                             done: seq<KeyCommand>, all: seq<KeyCommand>, allOk: bool)
    requires |trace| == |choices| + 1 && n <= |choices| && i < |tasks|
  {
    && |trace[n].world.phases| == |tasks|
    && LogIs(tasks[i], trace[n].world.phases[i], done, all, Log(tasks, trace, choices, i, n), allOk)
    && FetchedAll(trace[n].world.phases[i], all, allOk)
  }

  // One step of the execution, as task i sees it.
  lemma TaskSees(tasks: seq<Task>, trace: seq<Execution>, choices: seq<Choice>, i: nat, n: nat, done: seq<KeyCommand>,
                 all: seq<KeyCommand>, allOk: bool) returns (done': seq<KeyCommand>, all': seq<KeyCommand>)
    requires IsExecution(tasks, trace, choices) && 0 < n <= |choices| && i < |tasks| && (allOk ==> choices[n - 1].ok)
    requires TaskLogged(tasks, trace, choices, i, n - 1, done, all, allOk)
    ensures TaskLogged(tasks, trace, choices, i, n, done', all', allOk)
  {
    var w, w', c := trace[n - 1].world, trace[n].world, choices[n - 1];
    assert StepAt(tasks, trace, choices, n - 1);
    done', all' := done, all;
    if w' != w {
      assert Step(tasks, w, w', c.task, c.ok);
      if c.task == i {
        var x := tasks[i].slot;
        done', all' := StepLogs(tasks[i], w.phases[i], w.slots[x], w'.phases[i], w'.slots[x], c.ok, done, all,
                                Log(tasks, trace, choices, i, n - 1), allOk);
      }
    }
  }

  lemma {:induction false} LogInv(tasks: seq<Task>, own: map<int, string>, keys: map<int, set<Key>>,
                                  trace: seq<Execution>, choices: seq<Choice>, i: nat, n: nat, allOk: bool)
      returns (done: seq<KeyCommand>, all: seq<KeyCommand>)
    requires keys.Keys == own.Keys && i < |tasks|
    requires IsExecution(tasks, trace, choices) && Begins(tasks, own, keys, trace[0]) && n <= |choices|
    requires allOk ==> forall k :: 0 <= k < |choices| ==> choices[k].ok
    ensures TaskLogged(tasks, trace, choices, i, n, done, all, allOk)
  {
    if n == 0 {
      done, all := [], [];
    } else {
      done, all := LogInv(tasks, own, keys, trace, choices, i, n - 1, allOk);
      done, all := TaskSees(tasks, trace, choices, i, n, done, all, allOk);
    }
  }

  lemma LogWithinScript(t: Task, p: Phase, done: seq<KeyCommand>, all: seq<KeyCommand>, log: seq<Command>, allOk: bool)
    requires LogIs(t, p, done, all, log, allOk)
    ensures log <= Script(t, done)
  {
    assert Script(t, done)[..1] == Opening(t)[..1] && Script(t, done)[..2] == Opening(t)[..2];
  }

  // In every state of every execution, whatever commands fail, a task has issued the
  // beginning of its script: IMPORTING on the destination, MIGRATING on the source, the
  // fetch, key commands on the source, NODE on the destination, NODE on the source.
  lemma CommandsInOrder(tasks: seq<Task>, own: map<int, string>, keys: map<int, set<Key>>,
                        trace: seq<Execution>, choices: seq<Choice>, i: nat, n: nat) returns (work: seq<KeyCommand>)
    requires keys.Keys == own.Keys && i < |tasks|
    requires IsExecution(tasks, trace, choices) && Begins(tasks, own, keys, trace[0]) && n <= |choices|
    ensures Log(tasks, trace, choices, i, n) <= Script(tasks[i], work)
  {
    var done, all := LogInv(tasks, own, keys, trace, choices, i, n, false);
    LogWithinScript(tasks[i], trace[n].world.phases[i], done, all, Log(tasks, trace, choices, i, n), false);
    work := done;
  }

  // If every command succeeds and all workers finish, every task has issued exactly its
  // script, each command once, with the key commands for the keys it fetched.
  lemma CommandsOfSuccess(tasks: seq<Task>, own: map<int, string>, keys: map<int, set<Key>>,
                          trace: seq<Execution>, choices: seq<Choice>, i: nat) returns (work: seq<KeyCommand>)
    requires keys.Keys == own.Keys && WellPlanned(tasks, own) && i < |tasks|
    requires IsExecution(tasks, trace, choices) && Begins(tasks, own, keys, trace[0])
    requires (forall k :: 0 <= k < |choices| ==> choices[k].ok) && Drained(Last(trace))
    ensures Log(tasks, trace, choices, i, |choices|) == Script(tasks[i], work)
    ensures |Last(trace).world.phases| == |tasks| && Last(trace).world.phases[i].Done?
    ensures Complete(Last(trace).world.phases[i].fetched, work)
  {
    TaskAtEnd(tasks, own, keys, trace, choices, i);
    var done, all := LogInv(tasks, own, keys, trace, choices, i, |choices|, true);
    work := done;
  }
}
