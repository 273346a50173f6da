// The pipeline engine (cluster/pipeline/pipeline.go) and the pipeline_runs table
// (cluster/data/store/store.go).  Step callbacks act on a world W; the outcome of
// every callback and of every table write may depend on when it happens.
module PipelineEngine {
  import opened Basics

  // ----- The table -----

  datatype Status = Running | Completed | Failed

  type Rows = map<(string, string), Status>

  // SavePipelineStep: upsert.
  function Save(rows: Rows, pipeline: string, step: string): Rows {
    rows[(pipeline, step) := Completed]
  }

  // StartPipelineStep: insert or ignore.
  function Start(rows: Rows, pipeline: string, step: string): Rows {
    if (pipeline, step) in rows then rows else rows[(pipeline, step) := Running]
  }

  // FailPipelineStep: upsert.
  function Fail(rows: Rows, pipeline: string, step: string): Rows {
    rows[(pipeline, step) := Failed]
  }

  function DeletePipeline(rows: Rows, pipeline: string): Rows {
    map k | k in rows && k.0 != pipeline :: rows[k]
  }

  // LoadPipelineSteps: the completed steps.
  ghost predicate Loaded(rows: Rows, pipeline: string, step: string) {
    (pipeline, step) in rows && rows[(pipeline, step)] == Completed
  }

  // ----- Pipelines -----

  // A callback maps the world and the time to the world after it and success.
  type Callback<!W> = (W, nat) -> (W, bool)

  datatype Step<!W> = Step(name: string, do: Callback<W>, undo: Option<Callback<W>>, retry: nat)

  // applied says whether the table write made at a time takes effect; without a
  // persister none does.
  datatype Pipeline<!W> = Pipeline(name: string, steps: seq<Step<W>>, applied: nat -> bool)

  datatype Call = Did(step: nat, ok: bool) | Undid(step: nat)

  // What a crash leaves behind: the calls made and the table.
  datatype Point = Point(calls: seq<Call>, rows: Rows)

  datatype Machine<W> = Machine(world: W, completed: set<string>, rows: Rows, time: nat,
                                calls: seq<Call>, points: seq<Point>)

  function Note<W>(m: Machine<W>): Machine<W> {
    m.(points := m.points + [Point(m.calls, m.rows)])
  }

  function Write<W>(p: Pipeline<W>, m: Machine<W>, rows: Rows): Machine<W> {
    Note(m.(rows := if p.applied(m.time) then rows else m.rows, time := m.time + 1))
  }

  function CallDo<W>(p: Pipeline<W>, i: nat, m: Machine<W>): (Machine<W>, bool)
    requires i < |p.steps|
  {
    var (w, ok) := p.steps[i].do(m.world, m.time);
    (Note(m.(world := w, time := m.time + 1, calls := m.calls + [Did(i, ok)])), ok)
  }

  // executeStep: up to k attempts, until one succeeds.
  function Attempt<W>(p: Pipeline<W>, i: nat, k: nat, m: Machine<W>): (Machine<W>, bool)
    requires i < |p.steps| && 1 <= k
  {
    var (m', ok) := CallDo(p, i, m);
    if ok || k == 1 then (m', ok) else Attempt(p, i, k - 1, m')
  }

  // One pass through the loop of Run, for a step that is not completed.
  function RunStep<W>(p: Pipeline<W>, i: nat, m: Machine<W>): (Machine<W>, bool)
    requires i < |p.steps|
  {
    var s := p.steps[i];
    var (m', ok) := Attempt(p, i, s.retry + 1, Write(p, m, Start(m.rows, p.name, s.name)));
    if ok then (Write(p, m'.(completed := m'.completed + {s.name}), Save(m'.rows, p.name, s.name)), true)
    else (Write(p, m', Fail(m'.rows, p.name, s.name)), false)
  }

  // The loop of Run over the first n steps; the result says which step failed.
  function Forward<W>(p: Pipeline<W>, n: nat, m: Machine<W>): (r: (Machine<W>, Option<nat>))
    requires n <= |p.steps|
    ensures r.1.Some? ==> r.1.value < n
  {
    if n == 0 then (m, None)
    else
      var (m', failed) := Forward(p, n - 1, m);
      if failed.Some? then (m', failed)
      else if p.steps[n - 1].name in m'.completed then (m', None)
      else
        var (m'', ok) := RunStep(p, n - 1, m');
        (m'', if ok then None else Some(n - 1))
  }

  // rollback: the steps before n in reverse order, those that can be undone.
  function UndoAll<W>(p: Pipeline<W>, n: nat, m: Machine<W>): Machine<W>
    requires n <= |p.steps|
  {
    if n == 0 then m
    else
      var s := p.steps[n - 1];
      match s.undo
      case None => UndoAll(p, n - 1, m)
      case Some(undo) =>
        var undone := Note(m.(world := undo(m.world, m.time).0, time := m.time + 1, calls := m.calls + [Undid(n - 1)]));
        UndoAll(p, n - 1, Write(p, undone.(completed := undone.completed - {s.name}),
                                 DeletePipeline(undone.rows, p.name)))
  }

  function RunAll<W>(p: Pipeline<W>, m: Machine<W>): (Machine<W>, Option<nat>) {
    var (m', failed) := Forward(p, |p.steps|, m);
    match failed
    case None => (m', None)
    case Some(i) => (UndoAll(p, i, m'), Some(i))
  }

  // ----- Names -----

  function Names<W>(p: Pipeline<W>, n: nat): (r: set<string>)
    requires n <= |p.steps|
  {
    if n == 0 then {} else Names(p, n - 1) + {p.steps[n - 1].name}
  }

  ghost predicate DistinctNames<W>(p: Pipeline<W>) {
    forall i, j :: 0 <= i < j < |p.steps| ==> p.steps[i].name != p.steps[j].name
  }

  lemma {:induction false} NamesMember<W>(p: Pipeline<W>, n: nat, i: nat)
    requires DistinctNames(p) && n <= |p.steps| && i < |p.steps|
    ensures p.steps[i].name in Names(p, n) <==> i < n
  {
    if n > 0 { NamesMember(p, n - 1, i); }
  }

  // The steps whose Do succeeded, in the order in which they did.
  function Successes(calls: seq<Call>): seq<nat> {
    if calls == [] then []
    else Successes(Front(calls)) + match Last(calls) case Did(i, true) => [i] case _ => []
  }

  function Range(lo: nat, hi: nat): seq<nat> {
    if hi <= lo then [] else Range(lo, hi - 1) + [hi - 1]
  }

  // ----- One step -----

  // The table and the completed set are as before; every call was to step i, at
  // most k of them and exactly k failed ones if the step failed; in between, a
  // crash finds the old table.
  ghost predicate Tried<W>(i: nat, k: nat, m: Machine<W>, m': Machine<W>, ok: bool) {
    && m'.rows == m.rows && m'.completed == m.completed
    && m.calls <= m'.calls && m.points <= m'.points
    && 1 <= |m'.calls| - |m.calls| <= k && (!ok ==> |m'.calls| - |m.calls| == k)
    && (forall c :: |m.calls| <= c < |m'.calls| ==> m'.calls[c].Did? && m'.calls[c].step == i)
    && Successes(m'.calls) == Successes(m.calls) + (if ok then [i] else [])
    && (forall x :: |m.points| <= x < |m'.points| ==>
          && m'.points[x].rows == m.rows
          && (Successes(m'.points[x].calls) == Successes(m.calls)
              || (ok && Successes(m'.points[x].calls) == Successes(m'.calls))))
  }

  lemma {:induction false} AttemptTries<W>(p: Pipeline<W>, i: nat, k: nat, m: Machine<W>)
    requires i < |p.steps| && 1 <= k
    ensures Tried(i, k, m, Attempt(p, i, k, m).0, Attempt(p, i, k, m).1)
  {
    var (m', ok) := CallDo(p, i, m);
    assert Front(m'.calls) == m.calls;
    if !ok && k > 1 {
      AttemptTries(p, i, k - 1, m');
    }
  }

  // ----- The forward phase -----

  lemma ForwardIs<W>(p: Pipeline<W>, n: nat, m: Machine<W>, r: (Machine<W>, Option<nat>), step: (Machine<W>, bool),
                     r': (Machine<W>, Option<nat>))
    requires 0 < n <= |p.steps| && r == Forward(p, n - 1, m) && step == RunStep(p, n - 1, r.0) && r' == Forward(p, n, m)
    ensures r' == if r.1.Some? || p.steps[n - 1].name in r.0.completed then r
                  else (step.0, if step.1 then None else Some(n - 1))
  {
  }

  // Exactly the first n steps are recorded as completed, or none beyond them.
  ghost predicate LoadedExactly<W>(p: Pipeline<W>, rows: Rows, n: nat)
    requires n <= |p.steps|
  {
    forall name :: Loaded(rows, p.name, name) <==> name in Names(p, n)
  }

  ghost predicate LoadedWithin<W>(p: Pipeline<W>, rows: Rows, n: nat)
    requires n <= |p.steps|
  {
    forall name :: Loaded(rows, p.name, name) ==> name in Names(p, n)
  }

  // New, on a table that records the first j steps as completed.
  ghost predicate StartsAt<W>(p: Pipeline<W>, j: nat, m: Machine<W>) {
    && j <= |p.steps| && DistinctNames(p)
    && m.completed == Names(p, j) && LoadedExactly(p, m.rows, j)
    && m.calls == [] && m.points == []
  }

  ghost predicate AllApplied<W>(p: Pipeline<W>) {
    forall t :: p.applied(t)
  }

  // What a crash leaves when the steps from j to s have succeeded: no step is
  // recorded that did not succeed and, if all writes are applied, at most the last
  // success is missing.
  ghost predicate CrashSafe<W>(p: Pipeline<W>, j: nat, s: nat, pt: Point) {
    && j <= s <= |p.steps| && Successes(pt.calls) == Range(j, s) && LoadedWithin(p, pt.rows, s)
    && (AllApplied(p) ==> LoadedExactly(p, pt.rows, s) || (j < s && LoadedExactly(p, pt.rows, s - 1)))
  }

  ghost predicate Recoverable<W>(p: Pipeline<W>, j: nat, pt: Point) {
    exists s: nat :: CrashSafe(p, j, s, pt)
  }

  // The steps from j to s have succeeded, in order, and s was tried at most.
  ghost predicate Reached<W>(p: Pipeline<W>, j: nat, s: nat, m: Machine<W>) {
    && j <= s <= |p.steps|
    && m.completed == Names(p, s) && Successes(m.calls) == Range(j, s)
    && LoadedWithin(p, m.rows, s) && (AllApplied(p) ==> LoadedExactly(p, m.rows, s))
    && (forall c :: 0 <= c < |m.calls| ==> m.calls[c].Did? && j <= m.calls[c].step <= s)
    && (forall x :: 0 <= x < |m.points| ==> Recoverable(p, j, m.points[x]))
  }

  lemma WriteReached<W>(p: Pipeline<W>, j: nat, s: nat, m: Machine<W>, rows: Rows)
    requires Reached(p, j, s, m)
    requires LoadedWithin(p, rows, s) && (AllApplied(p) ==> LoadedExactly(p, rows, s))
    ensures Reached(p, j, s, Write(p, m, rows))
  {
    var m' := Write(p, m, rows);
    forall x | 0 <= x < |m'.points| ensures Recoverable(p, j, m'.points[x]) {
      if x < |m.points| {
        assert m'.points[x] == m.points[x];
      } else {
        assert CrashSafe(p, j, s, m'.points[x]);
      }
    }
  }

  lemma RangeSnoc(lo: nat, hi: nat)
    requires lo <= hi
    ensures Range(lo, hi + 1) == Range(lo, hi) + [hi]
  {
  }

  // After the attempts on step s the table is the old one.
  lemma AttemptReached<W>(p: Pipeline<W>, j: nat, s: nat, m: Machine<W>, k: nat, m': Machine<W>, ok: bool)
    requires DistinctNames(p) && s < |p.steps| && Reached(p, j, s, m) && Tried(s, k, m, m', ok)
    ensures !ok ==> Reached(p, j, s, m')
    ensures ok ==>
              && Successes(m'.calls) == Range(j, s + 1)
              && (forall c :: 0 <= c < |m'.calls| ==> m'.calls[c].Did? && j <= m'.calls[c].step <= s + 1)
              && (forall x :: 0 <= x < |m'.points| ==> Recoverable(p, j, m'.points[x]))
  {
    RangeSnoc(j, s);
    assert Names(p, s + 1) == Names(p, s) + {p.steps[s].name};
    assert forall c :: 0 <= c < |m.calls| ==> m'.calls[c] == m.calls[c];
    forall x | 0 <= x < |m'.points| ensures Recoverable(p, j, m'.points[x]) {
      if x < |m.points| {
        assert m'.points[x] == m.points[x];
      } else if Successes(m'.points[x].calls) == Successes(m.calls) {
        assert CrashSafe(p, j, s, m'.points[x]);
      } else {
        assert CrashSafe(p, j, s + 1, m'.points[x]);
      }
    }
  }

  lemma StartKeepsLoaded<W>(p: Pipeline<W>, rows: Rows, s: nat, step: string)
    requires s <= |p.steps|
    ensures LoadedWithin(p, rows, s) ==> LoadedWithin(p, Start(rows, p.name, step), s)
    ensures LoadedExactly(p, rows, s) ==> LoadedExactly(p, Start(rows, p.name, step), s)
  {
    assert forall name :: Loaded(Start(rows, p.name, step), p.name, name) <==> Loaded(rows, p.name, name);
  }

  lemma FailKeepsLoaded<W>(p: Pipeline<W>, rows: Rows, s: nat)
    requires DistinctNames(p) && s < |p.steps|
    ensures LoadedWithin(p, rows, s) ==> LoadedWithin(p, Fail(rows, p.name, p.steps[s].name), s)
    ensures LoadedExactly(p, rows, s) ==> LoadedExactly(p, Fail(rows, p.name, p.steps[s].name), s)
  {
    NamesMember(p, s, s);
    assert forall name :: Loaded(Fail(rows, p.name, p.steps[s].name), p.name, name)
                          <==> Loaded(rows, p.name, name) && name != p.steps[s].name;
  }

  lemma SaveLoads<W>(p: Pipeline<W>, rows: Rows, s: nat)
    requires s < |p.steps|
    ensures LoadedWithin(p, rows, s) ==> LoadedWithin(p, Save(rows, p.name, p.steps[s].name), s + 1)
    ensures LoadedExactly(p, rows, s) ==> LoadedExactly(p, Save(rows, p.name, p.steps[s].name), s + 1)
  {
    assert Names(p, s + 1) == Names(p, s) + {p.steps[s].name};
    assert forall name :: Loaded(Save(rows, p.name, p.steps[s].name), p.name, name)
                          <==> Loaded(rows, p.name, name) || name == p.steps[s].name;
  }

  lemma SaveReached<W>(p: Pipeline<W>, j: nat, s: nat, m: Machine<W>)
    requires DistinctNames(p) && j <= s < |p.steps| && m.completed == Names(p, s)
    requires LoadedWithin(p, m.rows, s) && (AllApplied(p) ==> LoadedExactly(p, m.rows, s))
    requires Successes(m.calls) == Range(j, s + 1)
    requires forall c :: 0 <= c < |m.calls| ==> m.calls[c].Did? && j <= m.calls[c].step <= s + 1
    requires forall x :: 0 <= x < |m.points| ==> Recoverable(p, j, m.points[x])
    ensures var name := p.steps[s].name;
            Reached(p, j, s + 1, Write(p, m.(completed := m.completed + {name}), Save(m.rows, p.name, name)))
  {
    SaveLoads(p, m.rows, s);
    var name := p.steps[s].name;
    var m' := Write(p, m.(completed := m.completed + {name}), Save(m.rows, p.name, name));
    assert LoadedWithin(p, m.rows, s + 1);
    forall x | 0 <= x < |m'.points| ensures Recoverable(p, j, m'.points[x]) {
      if x < |m.points| {
        assert m'.points[x] == m.points[x];
      } else {
        assert CrashSafe(p, j, s + 1, m'.points[x]);
      }
    }
  }

  lemma RunStepReached<W>(p: Pipeline<W>, j: nat, s: nat, m: Machine<W>)
    requires DistinctNames(p) && s < |p.steps| && Reached(p, j, s, m)
    ensures var (m', ok) := RunStep(p, s, m); Reached(p, j, if ok then s + 1 else s, m')
  {
    var step := p.steps[s];
    StartKeepsLoaded(p, m.rows, s, step.name);
    WriteReached(p, j, s, m, Start(m.rows, p.name, step.name));
    var begun := Write(p, m, Start(m.rows, p.name, step.name));
    var (tried, ok) := Attempt(p, s, step.retry + 1, begun);
    AttemptTries(p, s, step.retry + 1, begun);
    AttemptReached(p, j, s, begun, step.retry + 1, tried, ok);
    if ok {
      SaveReached(p, j, s, tried);
    } else {
      FailKeepsLoaded(p, tried.rows, s);
      WriteReached(p, j, s, tried, Fail(tried.rows, p.name, step.name));
    }
  }

  ghost predicate Forwarded<W>(p: Pipeline<W>, j: nat, n: nat, m: Machine<W>, failed: Option<nat>) {
    match failed
    case None => Reached(p, j, if n < j then j else n, m)
    case Some(i) => j <= i < n && Reached(p, j, i, m)
  }

  lemma ForwardNext<W>(p: Pipeline<W>, j: nat, n: nat, m: Machine<W>)
    requires DistinctNames(p) && 0 < n <= |p.steps| && Reached(p, j, if n - 1 < j then j else n - 1, m)
    ensures p.steps[n - 1].name in m.completed ==> Forwarded(p, j, n, m, None)
    ensures p.steps[n - 1].name !in m.completed ==>
              var (m', ok) := RunStep(p, n - 1, m);
              Forwarded(p, j, n, m', if ok then None else Some(n - 1))
  {
    if n - 1 < j {
      NamesMember(p, j, n - 1);
    } else {
      NamesMember(p, n - 1, n - 1);
      RunStepReached(p, j, n - 1, m);
    }
  }

  // Run, resumed after the first j steps, skips these and executes the others
  // exactly once each and in order, up to the one that fails; and a crash at any
  // point of this leaves a table from which it can be resumed.
  lemma {:induction false} ForwardReaches<W>(p: Pipeline<W>, j: nat, n: nat, m: Machine<W>)
    requires StartsAt(p, j, m) && n <= |p.steps|
    ensures Forwarded(p, j, n, Forward(p, n, m).0, Forward(p, n, m).1)
  {
    if n == 0 {
      assert Range(j, j) == [];
    } else {
      ForwardReaches(p, j, n - 1, m);
      var (m', failed) := Forward(p, n - 1, m);
      if failed.None? {
        ForwardNext(p, j, n, m');
      }
    }
  }

  // ----- Crash recovery -----

  function Load(rows: Rows, pipeline: string): set<string> {
    set k | k in rows && k.0 == pipeline && rows[k] == Completed :: k.1
  }

  // New: the completed steps are restored from the table.
  function New<W>(p: Pipeline<W>, world: W, rows: Rows): Machine<W> {
    Machine(world, Load(rows, p.name), rows, 0, [], [])
  }

  lemma NewStartsAt<W>(p: Pipeline<W>, world: W, rows: Rows, k: nat)
    requires DistinctNames(p) && k <= |p.steps| && LoadedExactly(p, rows, k)
    ensures StartsAt(p, k, New(p, world, rows))
  {
    forall name ensures name in Load(rows, p.name) <==> Loaded(rows, p.name, name) {
      if Loaded(rows, p.name, name) { assert (p.name, name) in rows; }
    }
  }

  // Whatever writes are lost, a crash at any point of the forward phase leaves a
  // table that records only steps whose Do has succeeded.
  lemma CrashRecordsOnlySuccesses<W>(p: Pipeline<W>, j: nat, m: Machine<W>, x: nat, name: string)
    requires StartsAt(p, j, m) && x < |Forward(p, |p.steps|, m).0.points|
    requires Loaded(Forward(p, |p.steps|, m).0.points[x].rows, p.name, name)
    ensures exists s: nat :: j <= s <= |p.steps| && name in Names(p, s)
              && Successes(Forward(p, |p.steps|, m).0.points[x].calls) == Range(j, s)
  {
    ForwardReaches(p, j, |p.steps|, m);
    assert Recoverable(p, j, Forward(p, |p.steps|, m).0.points[x]);
    var s: nat :| CrashSafe(p, j, s, Forward(p, |p.steps|, m).0.points[x]);
  }

  // If all writes are applied, a restart after a crash at any point finds the
  // first k steps, of which at most the last success is missing, and executes the
  // remaining ones, exactly once each and in order, up to the first that fails.
  lemma RestartResumes<W>(p: Pipeline<W>, j: nat, m: Machine<W>, x: nat, world: W) returns (k: nat, s: nat)
    requires StartsAt(p, j, m) && AllApplied(p) && x < |Forward(p, |p.steps|, m).0.points|
    ensures var pt := Forward(p, |p.steps|, m).0.points[x];
            && Successes(pt.calls) == Range(j, s) && s - 1 <= k <= s <= |p.steps|
            && StartsAt(p, k, New(p, world, pt.rows))
            && var (m', failed) := Forward(p, |p.steps|, New(p, world, pt.rows));
               Successes(m'.calls) == Range(k, if failed.Some? then failed.value else |p.steps|)
  {
    ForwardReaches(p, j, |p.steps|, m);
    var pt := Forward(p, |p.steps|, m).0.points[x];
    assert Recoverable(p, j, pt);
    s :| CrashSafe(p, j, s, pt);
    k := if LoadedExactly(p, pt.rows, s) then s else s - 1;
    NewStartsAt(p, world, pt.rows, k);
    ForwardReaches(p, k, |p.steps|, New(p, world, pt.rows));
  }

  // ----- Rollback -----

  function UndoCalls<W>(p: Pipeline<W>, n: nat): seq<Call>
    requires n <= |p.steps|
  {
    if n == 0 then []
    else (if p.steps[n - 1].undo.Some? then [Undid(n - 1)] else []) + UndoCalls(p, n - 1)
  }

  // The names of the first n steps that can, or cannot, be undone.
  function Undoable<W>(p: Pipeline<W>, n: nat): set<string>
    requires n <= |p.steps|
  {
    if n == 0 then {}
    else Undoable(p, n - 1) + if p.steps[n - 1].undo.Some? then {p.steps[n - 1].name} else {}
  }

  lemma {:induction false} RollbackUndoes<W>(p: Pipeline<W>, n: nat, m: Machine<W>)
    requires n <= |p.steps|
    ensures UndoAll(p, n, m).calls == m.calls + UndoCalls(p, n)
    ensures UndoAll(p, n, m).completed == m.completed - Undoable(p, n)
    ensures AllApplied(p) ==>
              UndoAll(p, n, m).rows == if Undoable(p, n) == {} then m.rows else DeletePipeline(m.rows, p.name)
  {
    if n > 0 {
      var s := p.steps[n - 1];
      if s.undo.Some? {
        var undone := Note(m.(world := s.undo.value(m.world, m.time).0, time := m.time + 1,
                              calls := m.calls + [Undid(n - 1)]));
        var m' := Write(p, undone.(completed := undone.completed - {s.name}), DeletePipeline(undone.rows, p.name));
        RollbackUndoes(p, n - 1, m');
        assert DeletePipeline(DeletePipeline(m.rows, p.name), p.name) == DeletePipeline(m.rows, p.name);
      } else {
        RollbackUndoes(p, n - 1, m);
      }
    }
  }

  ghost predicate InvertsStep<W(!new)>(s: Step<W>, eff: W -> W) {
    && (forall w, t: nat :: s.do(w, t).0 == if s.do(w, t).1 then eff(w) else w)
    && match s.undo
       case None => forall w :: eff(w) == w
       case Some(undo) => forall w, t: nat :: undo(eff(w), t).0 == w
  }

  // eff[i] is what step i does to the world: a failed attempt changes nothing, an
  // Undo takes it back, and a step without Undo does nothing that needs undoing.
  ghost predicate Inverts<W(!new)>(p: Pipeline<W>, eff: seq<W -> W>) {
    && |eff| == |p.steps|
    && forall i :: 0 <= i < |p.steps| ==> InvertsStep(p.steps[i], eff[i])
  }

  // The world after the first n steps.
  function Applied<W>(eff: seq<W -> W>, n: nat, w: W): W
    requires n <= |eff|
  {
    if n == 0 then w else eff[n - 1](Applied(eff, n - 1, w))
  }

  lemma {:induction false} AttemptWorld<W(!new)>(p: Pipeline<W>, eff: seq<W -> W>, i: nat, k: nat, m: Machine<W>)
    requires Inverts(p, eff) && i < |p.steps| && 1 <= k
    ensures var (m', ok) := Attempt(p, i, k, m); m'.world == if ok then eff[i](m.world) else m.world
  {
    assert InvertsStep(p.steps[i], eff[i]);
    var (m', ok) := CallDo(p, i, m);
    if !ok && k > 1 { AttemptWorld(p, eff, i, k - 1, m'); }
  }

  // The world after the forward phase over n steps, resumed after the first j.
  ghost predicate WorldAfter<W>(eff: seq<W -> W>, j: nat, n: nat, r: (Machine<W>, Option<nat>), w0: W) {
    match r.1
    case None => j <= |eff| && n <= |eff| && r.0.world == Applied(eff, if n < j then j else n, w0)
    case Some(i) => i < |eff| && r.0.world == Applied(eff, i, w0)
  }

  // Exactly the first j steps are skipped.
  lemma ForwardSkips<W>(p: Pipeline<W>, j: nat, n: nat, m: Machine<W>)
    requires StartsAt(p, j, m) && 0 < n <= |p.steps| && Forward(p, n - 1, m).1.None?
    ensures p.steps[n - 1].name in Forward(p, n - 1, m).0.completed <==> n - 1 < j
  {
    ForwardReaches(p, j, n - 1, m);
    NamesMember(p, if n - 1 < j then j else n - 1, n - 1);
  }

  lemma RunStepWorld<W(!new)>(p: Pipeline<W>, eff: seq<W -> W>, i: nat, m: Machine<W>)
    requires Inverts(p, eff) && i < |p.steps|
    ensures var (m', ok) := RunStep(p, i, m); m'.world == if ok then eff[i](m.world) else m.world
  {
    var s := p.steps[i];
    AttemptWorld(p, eff, i, s.retry + 1, Write(p, m, Start(m.rows, p.name, s.name)));
  }

  lemma WorldNext<W>(eff: seq<W -> W>, j: nat, n: nat, r: (Machine<W>, Option<nat>), skip: bool,
                     step: (Machine<W>, bool), r': (Machine<W>, Option<nat>), w0: W)
    requires 0 < n <= |eff| && j <= |eff| && WorldAfter(eff, j, n - 1, r, w0)
    requires r.1.None? ==> (skip <==> n - 1 < j)
    requires r.1.None? ==> step.0.world == if step.1 then eff[n - 1](r.0.world) else r.0.world
    requires r' == if r.1.Some? || skip then r else (step.0, if step.1 then None else Some(n - 1))
    ensures WorldAfter(eff, j, n, r', w0)
  {
  }

  lemma StepWorld<W(!new)>(p: Pipeline<W>, eff: seq<W -> W>, j: nat, n: nat, m: Machine<W>, w0: W)
    requires Inverts(p, eff) && 0 < n <= |p.steps| && j <= |p.steps|
    requires WorldAfter(eff, j, n - 1, Forward(p, n - 1, m), w0)
    requires var (m', failed) := Forward(p, n - 1, m);
             failed.None? ==> (p.steps[n - 1].name in m'.completed <==> n - 1 < j)
    ensures WorldAfter(eff, j, n, Forward(p, n, m), w0)
  {
    var r := Forward(p, n - 1, m);
    RunStepWorld(p, eff, n - 1, r.0);
    ForwardIs(p, n, m, r, RunStep(p, n - 1, r.0), Forward(p, n, m));
    WorldNext(eff, j, n, r, p.steps[n - 1].name in r.0.completed, RunStep(p, n - 1, r.0), Forward(p, n, m), w0);
  }

  lemma {:induction false} ForwardWorld<W(!new)>(p: Pipeline<W>, eff: seq<W -> W>, j: nat, n: nat, m: Machine<W>, w0: W)
    requires Inverts(p, eff) && StartsAt(p, j, m) && n <= |p.steps| && m.world == Applied(eff, j, w0)
    ensures WorldAfter(eff, j, n, Forward(p, n, m), w0)
  {
    if n > 0 {
      ForwardWorld(p, eff, j, n - 1, m, w0);
      if Forward(p, n - 1, m).1.None? { ForwardSkips(p, j, n, m); }
      StepWorld(p, eff, j, n, m, w0);
    }
  }

  lemma {:induction false} RollbackWorld<W(!new)>(p: Pipeline<W>, eff: seq<W -> W>, n: nat, m: Machine<W>, w0: W)
    requires Inverts(p, eff) && n <= |p.steps| && m.world == Applied(eff, n, w0)
    ensures UndoAll(p, n, m).world == w0
  {
    if n > 0 {
      var s := p.steps[n - 1];
      assert InvertsStep(s, eff[n - 1]);
      if s.undo.Some? {
        var undone := Note(m.(world := s.undo.value(m.world, m.time).0, time := m.time + 1,
                              calls := m.calls + [Undid(n - 1)]));
        RollbackWorld(p, eff, n - 1, Write(p, undone.(completed := undone.completed - {s.name}),
                                           DeletePipeline(undone.rows, p.name)), w0);
      } else {
        RollbackWorld(p, eff, n - 1, m, w0);
      }
    }
  }

  // A failure at step i ends in the world of before the pipeline: the steps before
  // i were executed once each, no later one was, and then exactly their Undos ran,
  // once each and in reverse order.
  lemma FailureRestoresWorld<W(!new)>(p: Pipeline<W>, eff: seq<W -> W>, j: nat, m: Machine<W>, w0: W)
    requires Inverts(p, eff) && StartsAt(p, j, m) && m.world == Applied(eff, j, w0)
    requires RunAll(p, m).1.Some?
    ensures RunAll(p, m).0.world == w0
    ensures var i, forward := RunAll(p, m).1.value, Forward(p, |p.steps|, m).0.calls;
            && j <= i < |p.steps|
            && RunAll(p, m).0.calls == forward + UndoCalls(p, i)
            && Successes(forward) == Range(j, i)
            && forall c :: 0 <= c < |forward| ==> forward[c].Did? && j <= forward[c].step <= i
  {
    var (m', failed) := Forward(p, |p.steps|, m);
    ForwardReaches(p, j, |p.steps|, m);
    ForwardWorld(p, eff, j, |p.steps|, m, w0);
    RollbackUndoes(p, failed.value, m');
    RollbackWorld(p, eff, failed.value, m', w0);
  }

  // After a failure at step i the earlier steps without Undo are still marked
  // completed in memory, although nothing of the run is left; the table forgets
  // the run exactly when there was nothing to record or something to undo.
  lemma {:induction false} FailureLeavesMarks<W>(p: Pipeline<W>, j: nat, m: Machine<W>)
    requires StartsAt(p, j, m) && RunAll(p, m).1.Some?
    ensures var i := RunAll(p, m).1.value; RunAll(p, m).0.completed == Names(p, i) - Undoable(p, i)
    ensures var i := RunAll(p, m).1.value;
            AllApplied(p) ==> (Load(RunAll(p, m).0.rows, p.name) == {} <==> i == 0 || Undoable(p, i) != {})
  {
    var (m', failed) := Forward(p, |p.steps|, m);
    var i := failed.value;
    ForwardReaches(p, j, |p.steps|, m);
    RollbackUndoes(p, i, m');
    if AllApplied(p) {
      if Undoable(p, i) != {} {
        assert Load(DeletePipeline(m'.rows, p.name), p.name) == {};
      } else if i > 0 {
        var name := p.steps[i - 1].name;
        assert name in Names(p, i) && Loaded(m'.rows, p.name, name);
        assert (p.name, name) in m'.rows && name in Load(m'.rows, p.name);
      } else {
        assert forall k :: k in m'.rows && k.0 == p.name ==> !Loaded(m'.rows, k.0, k.1);
      }
    }
  }

  lemma FailedNext<W>(p: Pipeline<W>, n: nat, m: Machine<W>, r: (Machine<W>, Option<nat>))
    requires 0 < n <= |p.steps| && Forward(p, n - 1, m) == r && r.1.Some?
    ensures Forward(p, n, m) == r
  {
  }

  lemma {:induction false} StaysFailed<W>(p: Pipeline<W>, i: nat, n: nat, m: Machine<W>, r: (Machine<W>, Option<nat>))
    requires i < n <= |p.steps| && r == Forward(p, i + 1, m) && r.1.Some?
    ensures Forward(p, n, m) == r
  {
    if n > i + 1 {
      StaysFailed(p, i, n - 1, m, r);
      FailedNext(p, n, m, r);
    }
  }

  // ----- Starting over from a step -----

  predicate Named<W>(p: Pipeline<W>, stepName: string, n: nat)
    requires n <= |p.steps|
  {
    exists i :: 0 <= i < n && p.steps[i].name == stepName
  }

  // The completed steps without the named one and those after it.
  function Reset<W>(p: Pipeline<W>, completed: set<string>, stepName: string, n: nat): set<string>
    requires n <= |p.steps|
  {
    if n == 0 then completed
    else Reset(p, completed, stepName, n - 1) - if Named(p, stepName, n) then {p.steps[n - 1].name} else {}
  }

  // ----- The pipeline object -----

  class Runner<W> {
    const p: Pipeline<W>
    var world: W
    var completed: set<string>
    var rows: Rows
    var time: nat
    ghost var calls: seq<Call>
    ghost var points: seq<Point>

    ghost function State(): Machine<W>
      reads this
    {
      Machine(world, completed, rows, time, calls, points)
    }

    constructor (p: Pipeline<W>, world: W, rows: Rows)
      ensures this.p == p && State() == New(p, world, rows)
    {
      this.p := p;
      this.world, this.rows := world, rows;
      completed := Load(rows, p.name);
      time, calls, points := 0, [], [];
    }

    // A table write, which may be lost.
    method WriteRows(rows': Rows)
      modifies this
      ensures State() == Write(p, old(State()), rows')
    {
      if p.applied(time) {
        rows := rows';
      }
      time := time + 1;
      points := points + [Point(calls, rows)];
    }

    method ExecuteStep(i: nat) returns (ok: bool)
      requires i < |p.steps|
      modifies this
      ensures (State(), ok) == Attempt(p, i, p.steps[i].retry + 1, old(State()))
    {
      var attempts := p.steps[i].retry + 1;
      var attempt := 1;
      ok := false;
      while attempt <= attempts
        invariant 1 <= attempt && (ok ==> attempt > attempts) && (!ok ==> attempt <= attempts + 1)
        invariant attempt <= attempts ==>
                    Attempt(p, i, attempts - attempt + 1, State()) == Attempt(p, i, attempts, old(State()))
        invariant attempt > attempts ==> (State(), ok) == Attempt(p, i, attempts, old(State()))
        decreases attempts - attempt
      {
        var (w, success) := p.steps[i].do(world, time);
        world, time, calls := w, time + 1, calls + [Did(i, success)];
        points := points + [Point(calls, rows)];
        if success {
          return true;
        }
        attempt := attempt + 1;
      }
    }

    method Rollback(failedAt: nat)
      requires failedAt <= |p.steps|
      modifies this
      ensures State() == UndoAll(p, failedAt, old(State()))
    {
      var i: int := failedAt - 1;
      while i >= 0
        invariant -1 <= i < failedAt
        invariant UndoAll(p, i + 1, State()) == UndoAll(p, failedAt, old(State()))
      {
        var step := p.steps[i];
        match step.undo {
          case None =>
          case Some(undo) =>
            var (w, _) := undo(world, time);
            world, time, calls := w, time + 1, calls + [Undid(i)];
            points := points + [Point(calls, rows)];
            completed := completed - {step.name};
            WriteRows(DeletePipeline(rows, p.name));
        }
        i := i - 1;
      }
    }

    // None when the pipeline completes, else the step that failed.
    method Run() returns (failed: Option<nat>)
      modifies this
      ensures (State(), failed) == RunAll(p, old(State()))
    {
      for i := 0 to |p.steps|
        invariant (State(), None) == Forward(p, i, old(State()))
      {
        var step := p.steps[i];
        if step.name in completed {
          continue;
        }
        var ok := RunOne(i);
        if !ok {
          StaysFailed(p, i, |p.steps|, old(State()), (State(), Some(i)));
          Rollback(i);
          return Some(i);
        }
      }
      failed := None;
    }

    // The body of the loop in Run.
    method RunOne(i: nat) returns (ok: bool)
      requires i < |p.steps|
      modifies this
      ensures (State(), ok) == RunStep(p, i, old(State()))
    {
      var step := p.steps[i];
      WriteRows(Start(rows, p.name, step.name));
      ok := ExecuteStep(i);
      if !ok {
        WriteRows(Fail(rows, p.name, step.name));
        return;
      }
      completed := completed + {step.name};
      WriteRows(Save(rows, p.name, step.name));
    }

    // Marks the named step and all later ones as not completed and runs again.
    method RetryFrom(stepName: string) returns (found: bool, failed: Option<nat>)
      modifies this
      ensures found <==> exists i :: 0 <= i < |p.steps| && p.steps[i].name == stepName
      ensures !found ==> State() == old(State()) && failed == None
      ensures var reset := Reset(p, old(completed), stepName, |p.steps|);
              found ==> (State(), failed) == RunAll(p, old(State()).(completed := reset))
    {
      found := false;
      for i := 0 to |p.steps|
        invariant found <==> exists j :: 0 <= j < i && p.steps[j].name == stepName
        invariant State() == old(State()).(completed := Reset(p, old(completed), stepName, i))
        invariant !found ==> completed == old(completed)
      {
        var s := p.steps[i];
        if s.name == stepName {
          found := true;
        }
        if found {
          completed := completed - {s.name};
        }
      }
      if !found {
        return false, None;
      }
      failed := Run();
    }
  }
}
