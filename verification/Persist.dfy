// The persist-db step of creating, scaling out and deleting (cluster/ops): at the end
// of its Do it deletes the rows of its own pipeline, and the loop of Run then saves the
// row of the step.
module PipelinePersist {
  import opened Basics
  import opened PipelineEngine
  import opened PipelineRerun

  // executeStep for a step whose Do ends with deleting the rows.
  function AttemptClearing<W>(p: Pipeline<W>, i: nat, m: Machine<W>): (Machine<W>, bool)
    requires i < |p.steps|
  {
    var (m', ok) := Attempt(p, i, p.steps[i].retry + 1, m);
    (if ok then Write(p, m', DeletePipeline(m'.rows, p.name)) else m', ok)
  }

  // One pass through the loop of Run for such a step.
  function RunClearing<W>(p: Pipeline<W>, i: nat, m: Machine<W>): (Machine<W>, bool)
    requires i < |p.steps|
  {
    var name := p.steps[i].name;
    var (m', ok) := AttemptClearing(p, i, Write(p, m, Start(m.rows, p.name, name)));
    if ok then (Write(p, m'.(completed := m'.completed + {name}), Save(m'.rows, p.name, name)), true)
    else (Write(p, m', Fail(m'.rows, p.name, name)), false)
  }

  function RunEither<W>(p: Pipeline<W>, c: nat, i: nat, m: Machine<W>): (Machine<W>, bool)
    requires i < |p.steps|
  {
    if i == c then RunClearing(p, i, m) else RunStep(p, i, m)
  }

  // The loop of Run over the first n steps of a pipeline whose step c is such a step.
  function ForwardClearing<W>(p: Pipeline<W>, c: nat, n: nat, m: Machine<W>): (r: (Machine<W>, Option<nat>))
    requires n <= |p.steps|
    ensures r.1.Some? ==> r.1.value < n
  {
    if n == 0 then (m, None)
    else
      var (m', failed) := ForwardClearing(p, c, n - 1, m);
      if failed.Some? || p.steps[n - 1].name in m'.completed then (m', failed)
      else
        var (m'', ok) := RunEither(p, c, n - 1, m');
        (m'', if ok then None else Some(n - 1))
  }

  function RunPersisting<W>(p: Pipeline<W>, c: nat, m: Machine<W>): (Machine<W>, Option<nat>) {
    var (m', failed) := ForwardClearing(p, c, |p.steps|, m);
    match failed
    case None => (m', None)
    case Some(i) => (UndoAll(p, i, m'), Some(i))
  }

  // ----- What the table names -----

  // The rows of the pipeline record exactly these steps.
  ghost predicate Records(pipeline: string, rows: Rows, names: set<string>) {
    forall name :: Loaded(rows, pipeline, name) <==> name in names
  }

  lemma RecordsIsLoad(pipeline: string, rows: Rows, names: set<string>)
    ensures Records(pipeline, rows, names) <==> Load(rows, pipeline) == names
  {
    forall name ensures name in Load(rows, pipeline) <==> Loaded(rows, pipeline, name) {
      if Loaded(rows, pipeline, name) { assert (pipeline, name) in rows; }
    }
  }

  lemma StartRecords(pipeline: string, rows: Rows, names: set<string>, step: string)
    requires Records(pipeline, rows, names)
    ensures Records(pipeline, Start(rows, pipeline, step), names)
  {
    var rows' := Start(rows, pipeline, step);
    assert forall name :: Loaded(rows', pipeline, name) <==> Loaded(rows, pipeline, name);
  }

  lemma SaveRecords(pipeline: string, rows: Rows, names: set<string>, step: string)
    requires Records(pipeline, rows, names)
    ensures Records(pipeline, Save(rows, pipeline, step), names + {step})
  {
    var rows' := Save(rows, pipeline, step);
    assert forall name :: Loaded(rows', pipeline, name) <==> Loaded(rows, pipeline, name) || name == step;
  }

  lemma FailRecords(pipeline: string, rows: Rows, names: set<string>, step: string)
    requires Records(pipeline, rows, names) && step !in names
    ensures Records(pipeline, Fail(rows, pipeline, step), names)
  {
    var rows' := Fail(rows, pipeline, step);
    assert forall name :: Loaded(rows', pipeline, name) <==> Loaded(rows, pipeline, name) && name != step;
  }

  lemma StepRecords<W>(p: Pipeline<W>, i: nat, m: Machine<W>, names: set<string>)
    requires i < |p.steps| && AllApplied(p) && Records(p.name, m.rows, names) && p.steps[i].name !in names
    ensures var (m', ok) := RunStep(p, i, m);
            Records(p.name, m'.rows, if ok then names + {p.steps[i].name} else names)
  {
    var name := p.steps[i].name;
    var begun := Write(p, m, Start(m.rows, p.name, name));
    StartRecords(p.name, m.rows, names, name);
    AttemptTries(p, i, p.steps[i].retry + 1, begun);
    SaveRecords(p.name, begun.rows, names, name);
    FailRecords(p.name, begun.rows, names, name);
  }

  // If writes are applied, the table and the marks in memory name the same steps
  // throughout a run in which no step clears the table.
  lemma {:induction false} MarksAreRecorded<W>(p: Pipeline<W>, n: nat, m: Machine<W>)
    requires n <= |p.steps| && AllApplied(p) && Records(p.name, m.rows, m.completed)
    ensures Records(p.name, Forward(p, n, m).0.rows, Forward(p, n, m).0.completed)
  {
    if n > 0 {
      MarksAreRecorded(p, n - 1, m);
      var (m', failed) := Forward(p, n - 1, m);
      if failed.None? && p.steps[n - 1].name !in m'.completed {
        StepRecords(p, n - 1, m', m'.completed);
        RunStepTries(p, n - 1, m');
      }
    }
  }

  // A successful persist-db leaves its own row as the only one of the pipeline; a
  // crash just before that row is written leaves none.
  lemma ClearedThenSaved<W>(p: Pipeline<W>, i: nat, m: Machine<W>)
    requires i < |p.steps| && AllApplied(p) && RunClearing(p, i, m).1
    ensures Load(RunClearing(p, i, m).0.rows, p.name) == {p.steps[i].name}
    ensures var points := RunClearing(p, i, m).0.points;
            |points| >= 2 && Load(points[|points| - 2].rows, p.name) == {}
  {
    var (name, begun) := (p.steps[i].name, Write(p, m, Start(m.rows, p.name, p.steps[i].name)));
    var rows := AttemptClearing(p, i, begun).0.rows;
    assert Records(p.name, rows, {});
    SaveRecords(p.name, rows, {}, name);
    RecordsIsLoad(p.name, Save(rows, p.name, name), {name});
  }

  // ----- The first run -----

  lemma EitherTries<W>(p: Pipeline<W>, c: nat, i: nat, m: Machine<W>)
    requires i < |p.steps|
    ensures StepTried(p, i, m, RunEither(p, c, i, m).0, RunEither(p, c, i, m).1)
  {
    RunStepTries(p, i, m);
    AttemptTries(p, i, p.steps[i].retry + 1, Write(p, m, Start(m.rows, p.name, p.steps[i].name)));
  }

  lemma ClearingIs<W>(p: Pipeline<W>, c: nat, n: nat, m: Machine<W>, r: (Machine<W>, Option<nat>),
                      step: (Machine<W>, bool), r': (Machine<W>, Option<nat>))
    requires 0 < n <= |p.steps| && r == ForwardClearing(p, c, n - 1, m) && r' == ForwardClearing(p, c, n, m)
    requires step == RunEither(p, c, n - 1, r.0)
    ensures r' == if r.1.Some? || p.steps[n - 1].name in r.0.completed then r
                  else (step.0, if step.1 then None else Some(n - 1))
  {
  }

  lemma {:induction false} ClearingRunsUnmarked<W>(p: Pipeline<W>, c: nat, n: nat, m: Machine<W>,
                                                   r: (Machine<W>, Option<nat>))
    requires DistinctNames(p) && n <= |p.steps| && r == ForwardClearing(p, c, n, m)
    ensures RanFrom(p, n, m, r)
  {
    if n == 0 {
      assert Successes(m.calls) + [] == Successes(m.calls);
    } else {
      var before := ForwardClearing(p, c, n - 1, m);
      ClearingRunsUnmarked(p, c, n - 1, m, before);
      NamesMember(p, n - 1, n - 1);
      EitherTries(p, c, n - 1, before.0);
      ClearingIs(p, c, n, m, before, RunEither(p, c, n - 1, before.0), r);
      NextUnmarked(p, n, m, before, RunEither(p, c, n - 1, before.0), r);
    }
  }

  // The names of the steps from c to n.
  function NamesFrom<W>(p: Pipeline<W>, c: nat, n: nat): set<string>
    requires n <= |p.steps|
  {
    if n <= c then {} else NamesFrom(p, c, n - 1) + {p.steps[n - 1].name}
  }

  lemma {:induction false} NamesFromMember<W>(p: Pipeline<W>, c: nat, n: nat, i: nat)
    requires DistinctNames(p) && n <= |p.steps| && i < |p.steps|
    ensures p.steps[i].name in NamesFrom(p, c, n) <==> c <= i < n
  {
    if n > c { NamesFromMember(p, c, n - 1, i); }
  }

  // Nothing from step c on is marked.
  ghost predicate FreshFrom<W>(p: Pipeline<W>, c: nat, completed: set<string>) {
    forall q :: c <= q < |p.steps| ==> p.steps[q].name !in completed
  }

  lemma ClearedNext<W>(p: Pipeline<W>, c: nat, n: nat, m: Machine<W>)
    requires DistinctNames(p) && AllApplied(p) && c < n <= |p.steps| && RunEither(p, c, n - 1, m).1
    requires c < n - 1 ==> Records(p.name, m.rows, NamesFrom(p, c, n - 1))
    ensures Records(p.name, RunEither(p, c, n - 1, m).0.rows, NamesFrom(p, c, n))
  {
    if n - 1 == c {
      ClearedThenSaved(p, c, m);
      assert NamesFrom(p, c, n - 1) == {} && NamesFrom(p, c, n) == {p.steps[c].name};
      RecordsIsLoad(p.name, RunClearing(p, c, m).0.rows, NamesFrom(p, c, n));
    } else {
      NamesFromMember(p, c, n - 1, n - 1);
      StepRecords(p, n - 1, m, NamesFrom(p, c, n - 1));
    }
  }

  lemma NotMarkedYet<W>(p: Pipeline<W>, c: nat, n: nat, m: Machine<W>, r: (Machine<W>, Option<nat>))
    requires DistinctNames(p) && c < n <= |p.steps| && FreshFrom(p, c, m.completed)
    requires r == ForwardClearing(p, c, n - 1, m) && r.1.None?
    ensures p.steps[n - 1].name !in r.0.completed
  {
    ClearingRunsUnmarked(p, c, n - 1, m, r);
    NamesMember(p, n - 1, n - 1);
  }

  // The last step of a successful run that begins without marks from c on.
  lemma LastStep<W>(p: Pipeline<W>, c: nat, n: nat, m: Machine<W>, m': Machine<W>) returns (before: Machine<W>)
    requires DistinctNames(p) && c < n <= |p.steps| && FreshFrom(p, c, m.completed)
    requires ForwardClearing(p, c, n, m) == (m', None)
    ensures ForwardClearing(p, c, n - 1, m) == (before, None) && RunEither(p, c, n - 1, before) == (m', true)
  {
    var r := ForwardClearing(p, c, n - 1, m);
    before := r.0;
    ClearingIs(p, c, n, m, r, RunEither(p, c, n - 1, before), (m', None));
    NotMarkedYet(p, c, n, m, r);
  }

  lemma {:induction false} ClearedAndSaved<W>(p: Pipeline<W>, c: nat, n: nat, m: Machine<W>, m': Machine<W>)
    requires DistinctNames(p) && AllApplied(p) && c < n <= |p.steps| && FreshFrom(p, c, m.completed)
    requires ForwardClearing(p, c, n, m) == (m', None)
    ensures Records(p.name, m'.rows, NamesFrom(p, c, n))
  {
    var before := LastStep(p, c, n, m, m');
    if n - 1 > c { ClearedAndSaved(p, c, n - 1, m, before); }
    ClearedNext(p, c, n, before);
  }

  // If a pipeline succeeds whose step c is persist-db, on a machine on which neither
  // that step nor a later one is marked, the table names exactly the steps from c on.
  lemma FirstRunLeavesPersist<W>(p: Pipeline<W>, c: nat, m: Machine<W>, first: Machine<W>)
    requires c < |p.steps| && DistinctNames(p) && AllApplied(p) && FreshFrom(p, c, m.completed)
    requires RunPersisting(p, c, m) == (first, None)
    ensures Load(first.rows, p.name) == NamesFrom(p, c, |p.steps|)
    ensures Successes(first.calls) == Successes(m.calls) + Unmarked(p, |p.steps|, m.completed)
  {
    ClearedAndSaved(p, c, |p.steps|, m, first);
    RecordsIsLoad(p.name, first.rows, NamesFrom(p, c, |p.steps|));
    ClearingRunsUnmarked(p, c, |p.steps|, m, ForwardClearing(p, c, |p.steps|, m));
  }

  // ----- The runs after it -----

  lemma SameNext<W>(p: Pipeline<W>, c: nat, n: nat, m: Machine<W>, r: (Machine<W>, Option<nat>),
                    r': (Machine<W>, Option<nat>))
    requires 0 < n <= |p.steps| && r == Forward(p, n - 1, m) == ForwardClearing(p, c, n - 1, m)
    requires r' == Forward(p, n, m) && (n - 1 == c ==> p.steps[c].name in r.0.completed)
    ensures ForwardClearing(p, c, n, m) == r'
  {
  }

  lemma MarkStays<W>(p: Pipeline<W>, n: nat, m: Machine<W>, name: string, r: (Machine<W>, Option<nat>))
    requires DistinctNames(p) && n <= |p.steps| && name in m.completed && r == Forward(p, n, m)
    ensures name in r.0.completed
  {
    ForwardUnmarked(p, n, m, r);
  }

  lemma {:induction false} ClearsNothing<W>(p: Pipeline<W>, c: nat, n: nat, m: Machine<W>, r: (Machine<W>, Option<nat>))
    requires DistinctNames(p) && c < |p.steps| && n <= |p.steps| && p.steps[c].name in m.completed
    requires r == Forward(p, n, m)
    ensures ForwardClearing(p, c, n, m) == r
  {
    if n > 0 {
      var before := Forward(p, n - 1, m);
      ClearsNothing(p, c, n - 1, m, before);
      MarkStays(p, n - 1, m, p.steps[c].name, before);
      SameNext(p, c, n, m, before, r);
    }
  }

  lemma {:induction false} OnlyEarlier<W>(p: Pipeline<W>, c: nat, n: nat, completed: set<string>)
    requires n <= |p.steps|
    requires forall q :: 0 <= q < |p.steps| ==> (p.steps[q].name in completed <==> c <= q)
    ensures Unmarked(p, n, completed) == Range(0, Min(n, c))
  {
    if n > 0 { OnlyEarlier(p, c, n - 1, completed); }
  }

  lemma {:induction false} NamesTogether<W>(p: Pipeline<W>, c: nat, n: nat)
    requires n <= |p.steps|
    ensures NamesFrom(p, c, n) + Names(p, n) == Names(p, n)
  {
    if n > 0 { NamesTogether(p, c, n - 1); }
  }

  lemma SecondRunIsForward<W>(p: Pipeline<W>, c: nat, m: Machine<W>, second: Machine<W>)
    requires c < |p.steps| && DistinctNames(p) && m.completed == NamesFrom(p, c, |p.steps|)
    requires RunPersisting(p, c, m) == (second, None)
    ensures Forward(p, |p.steps|, m) == (second, None) && RanUnmarked(p, |p.steps|, m, second)
  {
    NamesFromMember(p, c, |p.steps|, c);
    ClearsNothing(p, c, |p.steps|, m, Forward(p, |p.steps|, m));
    RunsUnmarked(p, |p.steps|, m);
  }

  lemma OnlyBelow<W>(p: Pipeline<W>, c: nat)
    requires c < |p.steps| && DistinctNames(p)
    ensures Unmarked(p, |p.steps|, NamesFrom(p, c, |p.steps|)) == Range(0, c)
  {
    var marked := NamesFrom(p, c, |p.steps|);
    forall q | 0 <= q < |p.steps| ensures p.steps[q].name in marked <==> c <= q {
      NamesFromMember(p, c, |p.steps|, q);
    }
    OnlyEarlier(p, c, |p.steps|, marked);
  }

  // So the next pipeline of that name executes only the steps before persist-db, and,
  // as nothing clears the table then, leaves all steps recorded.
  lemma SecondRunSkipsPersist<W>(p: Pipeline<W>, c: nat, world: W, rows: Rows, second: Machine<W>)
    requires c < |p.steps| && DistinctNames(p) && AllApplied(p)
    requires Load(rows, p.name) == NamesFrom(p, c, |p.steps|)
    requires RunPersisting(p, c, New(p, world, rows)) == (second, None)
    ensures Successes(second.calls) == Range(0, c)
    ensures Load(second.rows, p.name) == Names(p, |p.steps|)
  {
    var m, n := New(p, world, rows), |p.steps|;
    SecondRunIsForward(p, c, m, second);
    OnlyBelow(p, c);
    assert [] + Range(0, c) == Range(0, c);
    RecordsIsLoad(p.name, rows, m.completed);
    MarksAreRecorded(p, n, m);
    NamesTogether(p, c, n);
    RecordsIsLoad(p.name, second.rows, second.completed);
  }

  lemma {:induction false} NothingToRun<W>(p: Pipeline<W>, c: nat, n: nat, m: Machine<W>)
    requires n <= |p.steps| && Names(p, n) <= m.completed
    ensures ForwardClearing(p, c, n, m) == (m, None)
  {
    if n > 0 {
      assert p.steps[n - 1].name in Names(p, n) && Names(p, n - 1) <= Names(p, n);
      NothingToRun(p, c, n - 1, m);
    }
  }

  // And every later one reports success without executing a step or changing the
  // table.
  lemma LaterRunsDoNothing<W>(p: Pipeline<W>, c: nat, world: W, rows: Rows)
    requires Load(rows, p.name) == Names(p, |p.steps|)
    ensures RunPersisting(p, c, New(p, world, rows)) == (New(p, world, rows), None)
  {
    NothingToRun(p, c, |p.steps|, New(p, world, rows));
  }

  lemma {:induction false} AllUnmarked<W>(p: Pipeline<W>, n: nat)
    requires n <= |p.steps|
    ensures Unmarked(p, n, {}) == Range(0, n)
  {
    if n > 0 { AllUnmarked(p, n - 1); }
  }

  // Three pipelines of the same name in a row, the first on a table without their
  // rows, where the first two succeed: the first one executes every step, the second
  // one those before persist-db, and the third one, like all later ones, none.
  lemma ThirdRunIsLost<W>(p: Pipeline<W>, c: nat, rows: Rows, w1: W, w2: W, w3: W,
                          first: Machine<W>, second: Machine<W>)
    requires c < |p.steps| && DistinctNames(p) && AllApplied(p) && Load(rows, p.name) == {}
    requires RunPersisting(p, c, New(p, w1, rows)) == (first, None)
    requires RunPersisting(p, c, New(p, w2, first.rows)) == (second, None)
    ensures Successes(first.calls) == Range(0, |p.steps|) && Successes(second.calls) == Range(0, c)
    ensures RunPersisting(p, c, New(p, w3, second.rows)) == (New(p, w3, second.rows), None)
  {
    FirstRunLeavesPersist(p, c, New(p, w1, rows), first);
    AllUnmarked(p, |p.steps|);
    assert [] + Range(0, |p.steps|) == Range(0, |p.steps|);
    SecondRunSkipsPersist(p, c, w2, first.rows, second);
    LaterRunsDoNothing(p, c, w3, second.rows);
  }
}
