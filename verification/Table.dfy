// What the rows of the pipeline_runs table say (cluster/data/store/store.go) during and
// after a run, a rollback or a crash (cluster/pipeline/pipeline.go).
module PipelineTable {
  import opened Basics
  import opened PipelineEngine
  import opened PipelineRerun
  import opened PipelinePersist

  function Look(rows: Rows, pipeline: string, step: string): Option<Status> {
    if (pipeline, step) in rows then Some(rows[(pipeline, step)]) else None
  }

  // ----- Rows of other pipelines -----

  // Every row of every other pipeline is as it was.
  ghost predicate OthersStay(pipeline: string, rows: Rows, rows': Rows) {
    forall other, step :: other != pipeline ==> Look(rows', other, step) == Look(rows, other, step)
  }

  lemma DeleteOnlyItsRows(rows: Rows, pipeline: string)
    ensures OthersStay(pipeline, rows, DeletePipeline(rows, pipeline))
    ensures forall step :: Look(DeletePipeline(rows, pipeline), pipeline, step) == None
  {
  }

  lemma WritesOnlyItsRows(rows: Rows, pipeline: string, step: string)
    ensures OthersStay(pipeline, rows, Start(rows, pipeline, step))
    ensures OthersStay(pipeline, rows, Save(rows, pipeline, step))
    ensures OthersStay(pipeline, rows, Fail(rows, pipeline, step))
  {
  }

  // From m to m' the other pipelines keep their rows, also at every point between.
  ghost predicate Frames<W>(pipeline: string, m: Machine<W>, m': Machine<W>) {
    && OthersStay(pipeline, m.rows, m'.rows)
    && m.points <= m'.points
    && forall x :: |m.points| <= x < |m'.points| ==> OthersStay(pipeline, m.rows, m'.points[x].rows)
  }

  lemma FramesJoin<W>(pipeline: string, m: Machine<W>, mid: Machine<W>, m': Machine<W>)
    requires Frames(pipeline, m, mid) && Frames(pipeline, mid, m')
    ensures Frames(pipeline, m, m')
  {
    forall x | |m.points| <= x < |m'.points| ensures OthersStay(pipeline, m.rows, m'.points[x].rows) {
      if x < |mid.points| { assert m'.points[x] == mid.points[x]; }
    }
  }

  lemma WriteFrames<W>(p: Pipeline<W>, m: Machine<W>, completed: set<string>, rows: Rows)
    requires OthersStay(p.name, m.rows, rows)
    ensures Frames(p.name, m, Write(p, m.(completed := completed), rows))
  {
  }

  lemma {:induction false} AttemptFrames<W>(p: Pipeline<W>, i: nat, k: nat, m: Machine<W>)
    requires i < |p.steps| && 1 <= k
    ensures Frames(p.name, m, Attempt(p, i, k, m).0)
  {
    AttemptTries(p, i, k, m);
  }

  lemma EndFrames<W>(p: Pipeline<W>, step: string, m: Machine<W>, tried: Machine<W>, ok: bool, m': Machine<W>)
    requires Frames(p.name, m, tried)
    requires m' == if ok then Write(p, tried.(completed := tried.completed + {step}), Save(tried.rows, p.name, step))
                   else Write(p, tried, Fail(tried.rows, p.name, step))
    ensures Frames(p.name, m, m')
  {
    WritesOnlyItsRows(tried.rows, p.name, step);
    if ok {
      WriteFrames(p, tried, tried.completed + {step}, Save(tried.rows, p.name, step));
    } else {
      WriteFrames(p, tried, tried.completed, Fail(tried.rows, p.name, step));
    }
    FramesJoin(p.name, m, tried, m');
  }

  lemma BeginFrames<W>(p: Pipeline<W>, i: nat, m: Machine<W>)
    requires i < |p.steps|
    ensures var begun := Write(p, m, Start(m.rows, p.name, p.steps[i].name));
            Frames(p.name, m, Attempt(p, i, p.steps[i].retry + 1, begun).0)
  {
    var name := p.steps[i].name;
    var begun := Write(p, m, Start(m.rows, p.name, name));
    WritesOnlyItsRows(m.rows, p.name, name);
    WriteFrames(p, m, m.completed, Start(m.rows, p.name, name));
    AttemptFrames(p, i, p.steps[i].retry + 1, begun);
    FramesJoin(p.name, m, begun, Attempt(p, i, p.steps[i].retry + 1, begun).0);
  }

  lemma StepFrames<W>(p: Pipeline<W>, i: nat, m: Machine<W>)
    requires i < |p.steps|
    ensures Frames(p.name, m, RunStep(p, i, m).0)
  {
    var name := p.steps[i].name;
    BeginFrames(p, i, m);
    var (tried, ok) := Attempt(p, i, p.steps[i].retry + 1, Write(p, m, Start(m.rows, p.name, name)));
    EndFrames(p, name, m, tried, ok, RunStep(p, i, m).0);
  }

  lemma ClearingFrames<W>(p: Pipeline<W>, i: nat, m: Machine<W>)
    requires i < |p.steps|
    ensures Frames(p.name, m, RunClearing(p, i, m).0)
  {
    var name := p.steps[i].name;
    BeginFrames(p, i, m);
    var begun := Write(p, m, Start(m.rows, p.name, name));
    var tried := Attempt(p, i, p.steps[i].retry + 1, begun).0;
    var (cleared, ok) := AttemptClearing(p, i, begun);
    if ok {
      DeleteOnlyItsRows(tried.rows, p.name);
      WriteFrames(p, tried, tried.completed, DeletePipeline(tried.rows, p.name));
      FramesJoin(p.name, m, tried, cleared);
    }
    EndFrames(p, name, m, cleared, ok, RunClearing(p, i, m).0);
  }

  lemma {:induction false} ForwardFrames<W>(p: Pipeline<W>, n: nat, m: Machine<W>, r: (Machine<W>, Option<nat>))
    requires n <= |p.steps| && r == Forward(p, n, m)
    ensures Frames(p.name, m, r.0)
  {
    if n > 0 {
      var mid := Forward(p, n - 1, m);
      var step := RunStep(p, n - 1, mid.0);
      ForwardFrames(p, n - 1, m, mid);
      StepFrames(p, n - 1, mid.0);
      ForwardIs(p, n, m, mid, step, r);
      FramesJoin(p.name, m, mid.0, step.0);
    }
  }

  lemma EitherFrames<W>(p: Pipeline<W>, c: nat, i: nat, m: Machine<W>)
    requires i < |p.steps|
    ensures Frames(p.name, m, RunEither(p, c, i, m).0)
  {
    StepFrames(p, i, m);
    ClearingFrames(p, i, m);
  }

  lemma {:induction false} ForwardClearingFrames<W>(p: Pipeline<W>, c: nat, n: nat, m: Machine<W>,
                                                    r: (Machine<W>, Option<nat>))
    requires n <= |p.steps| && r == ForwardClearing(p, c, n, m)
    ensures Frames(p.name, m, r.0)
  {
    if n > 0 {
      var mid := ForwardClearing(p, c, n - 1, m);
      var step := RunEither(p, c, n - 1, mid.0);
      ForwardClearingFrames(p, c, n - 1, m, mid);
      EitherFrames(p, c, n - 1, mid.0);
      ClearingIs(p, c, n, m, mid, step, r);
      FramesJoin(p.name, m, mid.0, step.0);
    }
  }

  lemma UndoFrames<W>(p: Pipeline<W>, i: nat, undo: Callback<W>, m: Machine<W>)
    requires i < |p.steps|
    ensures Frames(p.name, m, Forgotten(p, i, Undone(p, i, undo, m)))
  {
    var undone := Undone(p, i, undo, m);
    DeleteOnlyItsRows(undone.rows, p.name);
    WriteFrames(p, undone, undone.completed - {p.steps[i].name}, DeletePipeline(undone.rows, p.name));
    FramesJoin(p.name, m, undone, Forgotten(p, i, undone));
  }

  lemma {:induction false} RollbackFrames<W>(p: Pipeline<W>, n: nat, m: Machine<W>)
    requires n <= |p.steps|
    ensures Frames(p.name, m, UndoAll(p, n, m))
  {
    if n > 0 {
      match p.steps[n - 1].undo
      case None => RollbackFrames(p, n - 1, m);
      case Some(undo) =>
        var mid := Forgotten(p, n - 1, Undone(p, n - 1, undo, m));
        UndoFrames(p, n - 1, undo, m);
        RollbackFrames(p, n - 1, mid);
        FramesJoin(p.name, m, mid, UndoAll(p, n, m));
    }
  }

  // Whatever writes are lost, a run, its rollback and a crash at any of their points
  // leave every row of every other pipeline as it was.
  lemma OtherPipelinesStay<W>(p: Pipeline<W>, m: Machine<W>)
    ensures Frames(p.name, m, RunAll(p, m).0)
  {
    var (mid, failed) := Forward(p, |p.steps|, m);
    ForwardFrames(p, |p.steps|, m, Forward(p, |p.steps|, m));
    if failed.Some? {
      RollbackFrames(p, failed.value, mid);
      FramesJoin(p.name, m, mid, RunAll(p, m).0);
    }
  }

  // Also when one of the steps deletes the rows of its pipeline.
  lemma OtherPipelinesStayPersisted<W>(p: Pipeline<W>, c: nat, m: Machine<W>)
    ensures Frames(p.name, m, RunPersisting(p, c, m).0)
  {
    var (mid, failed) := ForwardClearing(p, c, |p.steps|, m);
    ForwardClearingFrames(p, c, |p.steps|, m, ForwardClearing(p, c, |p.steps|, m));
    if failed.Some? {
      RollbackFrames(p, failed.value, mid);
      FramesJoin(p.name, m, mid, RunPersisting(p, c, m).0);
    }
  }

  // ----- Rows of the pipeline -----

  // The steps from j to s are completed, step s has the current status, if any, and
  // every other row is as it was.
  ghost predicate TableIs<W>(p: Pipeline<W>, before: Rows, j: nat, s: nat, current: Option<Status>, rows: Rows)
    requires s <= |p.steps|
  {
    && (forall q :: j <= q < s ==> Look(rows, p.name, p.steps[q].name) == Some(Completed))
    && (current.Some? ==> s < |p.steps| && Look(rows, p.name, p.steps[s].name) == current)
    && (forall step :: (forall q :: j <= q < s ==> p.steps[q].name != step)
                       && !(current.Some? && s < |p.steps| && step == p.steps[s].name) ==>
          Look(rows, p.name, step) == Look(before, p.name, step))
  }

  // What the row of a step says while it is executed: a row left by an earlier run
  // stays.
  function Meanwhile<W>(p: Pipeline<W>, before: Rows, s: nat): Status
    requires s < |p.steps|
  {
    match Look(before, p.name, p.steps[s].name)
    case None => Running
    case Some(status) => status
  }

  lemma StartTable<W>(p: Pipeline<W>, before: Rows, j: nat, s: nat, rows: Rows)
    requires DistinctNames(p) && s < |p.steps| && TableIs(p, before, j, s, None, rows)
    ensures TableIs(p, before, j, s, Some(Meanwhile(p, before, s)), Start(rows, p.name, p.steps[s].name))
  {
    var name, rows' := p.steps[s].name, Start(rows, p.name, p.steps[s].name);
    assert Look(rows, p.name, name) == Look(before, p.name, name);
    assert forall step :: step != name ==> Look(rows', p.name, step) == Look(rows, p.name, step);
  }

  lemma SaveTable<W>(p: Pipeline<W>, before: Rows, j: nat, s: nat, current: Option<Status>, rows: Rows)
    requires DistinctNames(p) && j < s <= |p.steps| && TableIs(p, before, j, s - 1, current, rows)
    ensures TableIs(p, before, j, s, None, Save(rows, p.name, p.steps[s - 1].name))
  {
    var name, rows' := p.steps[s - 1].name, Save(rows, p.name, p.steps[s - 1].name);
    assert forall step :: step != name ==> Look(rows', p.name, step) == Look(rows, p.name, step);
  }

  lemma FailTable<W>(p: Pipeline<W>, before: Rows, j: nat, s: nat, current: Option<Status>, rows: Rows)
    requires DistinctNames(p) && s < |p.steps| && TableIs(p, before, j, s, current, rows)
    ensures TableIs(p, before, j, s, Some(Failed), Fail(rows, p.name, p.steps[s].name))
  {
    var name, rows' := p.steps[s].name, Fail(rows, p.name, p.steps[s].name);
    assert forall step :: step != name ==> Look(rows', p.name, step) == Look(rows, p.name, step);
  }

  // No step from s on has been called.
  ghost predicate CallsBelow(calls: seq<Call>, s: nat) {
    forall c :: 0 <= c < |calls| ==> calls[c].step < s
  }

  // The table at a point of the forward phase: as soon as a step was called its row
  // says so.
  ghost predicate Between<W>(p: Pipeline<W>, before: Rows, j: nat, s: nat, pt: Point) {
    && s <= |p.steps|
    && (|| (TableIs(p, before, j, s, None, pt.rows) && CallsBelow(pt.calls, s))
        || (s < |p.steps| && TableIs(p, before, j, s, Some(Meanwhile(p, before, s)), pt.rows))
        || (s < |p.steps| && TableIs(p, before, j, s, Some(Failed), pt.rows)))
  }

  ghost predicate Midway<W>(p: Pipeline<W>, before: Rows, j: nat, pt: Point) {
    exists s: nat :: Between(p, before, j, s, pt)
  }

  ghost predicate AllMidway<W>(p: Pipeline<W>, before: Rows, j: nat, m: Machine<W>) {
    forall x :: 0 <= x < |m.points| ==> Midway(p, before, j, m.points[x])
  }

  lemma WriteMidway<W>(p: Pipeline<W>, before: Rows, j: nat, s: nat, m: Machine<W>, completed: set<string>, rows: Rows)
    requires AllApplied(p) && AllMidway(p, before, j, m) && Between(p, before, j, s, Point(m.calls, rows))
    ensures AllMidway(p, before, j, Write(p, m.(completed := completed), rows))
  {
    var m' := Write(p, m.(completed := completed), rows);
    forall x | 0 <= x < |m'.points| ensures Midway(p, before, j, m'.points[x]) {
      if x < |m.points| { assert m'.points[x] == m.points[x]; } else { assert m'.points[x] == Point(m.calls, rows); }
    }
  }

  lemma TriedMidway<W>(p: Pipeline<W>, before: Rows, j: nat, s: nat, k: nat, m: Machine<W>, m': Machine<W>, ok: bool)
    requires s < |p.steps| && AllMidway(p, before, j, m) && Tried(s, k, m, m', ok)
    requires TableIs(p, before, j, s, Some(Meanwhile(p, before, s)), m.rows)
    ensures AllMidway(p, before, j, m')
  {
    forall x | 0 <= x < |m'.points| ensures Midway(p, before, j, m'.points[x]) {
      if x < |m.points| {
        assert m'.points[x] == m.points[x];
      } else {
        assert m'.points[x].rows == m.rows;
        assert Between(p, before, j, s, m'.points[x]);
      }
    }
  }

  lemma TriedBelow<W>(s: nat, k: nat, m: Machine<W>, m': Machine<W>, ok: bool)
    requires 0 < s && CallsBelow(m.calls, s - 1) && Tried(s - 1, k, m, m', ok)
    ensures CallsBelow(m'.calls, s)
  {
    forall c | 0 <= c < |m'.calls| ensures m'.calls[c].step < s {
      if c < |m.calls| { assert m'.calls[c] == m.calls[c]; }
    }
  }

  ghost predicate StepTable<W>(p: Pipeline<W>, before: Rows, j: nat, n: nat, m: Machine<W>, ok: bool)
    requires 0 < n <= |p.steps|
  {
    && AllMidway(p, before, j, m) && CallsBelow(m.calls, n)
    && if ok then TableIs(p, before, j, n, None, m.rows) else TableIs(p, before, j, n - 1, Some(Failed), m.rows)
  }

  lemma EndTable<W>(p: Pipeline<W>, before: Rows, j: nat, n: nat, tried: Machine<W>, ok: bool, m': Machine<W>)
    requires DistinctNames(p) && AllApplied(p) && j < n <= |p.steps|
    requires TableIs(p, before, j, n - 1, Some(Meanwhile(p, before, n - 1)), tried.rows)
    requires AllMidway(p, before, j, tried) && CallsBelow(tried.calls, n)
    requires var name := p.steps[n - 1].name;
             m' == if ok then Write(p, tried.(completed := tried.completed + {name}), Save(tried.rows, p.name, name))
                   else Write(p, tried, Fail(tried.rows, p.name, name))
    ensures StepTable(p, before, j, n, m', ok)
  {
    var name, now := p.steps[n - 1].name, Some(Meanwhile(p, before, n - 1));
    if ok {
      SaveTable(p, before, j, n, now, tried.rows);
      WriteMidway(p, before, j, n, tried, tried.completed + {name}, Save(tried.rows, p.name, name));
    } else {
      FailTable(p, before, j, n - 1, now, tried.rows);
      WriteMidway(p, before, j, n - 1, tried, tried.completed, Fail(tried.rows, p.name, name));
    }
  }

  lemma RunStepTable<W>(p: Pipeline<W>, before: Rows, j: nat, n: nat, m: Machine<W>)
    requires DistinctNames(p) && AllApplied(p) && j < n <= |p.steps|
    requires TableIs(p, before, j, n - 1, None, m.rows) && AllMidway(p, before, j, m) && CallsBelow(m.calls, n - 1)
    ensures StepTable(p, before, j, n, RunStep(p, n - 1, m).0, RunStep(p, n - 1, m).1)
  {
    var name, tries := p.steps[n - 1].name, p.steps[n - 1].retry + 1;
    var begun := Write(p, m, Start(m.rows, p.name, name));
    StartTable(p, before, j, n - 1, m.rows);
    WriteMidway(p, before, j, n - 1, m, m.completed, begun.rows);
    var (tried, ok) := Attempt(p, n - 1, tries, begun);
    AttemptTries(p, n - 1, tries, begun);
    TriedMidway(p, before, j, n - 1, tries, begun, tried, ok);
    TriedBelow(n, tries, begun, tried, ok);
    EndTable(p, before, j, n, tried, ok, RunStep(p, n - 1, m).0);
  }

  ghost predicate ForwardTable<W>(p: Pipeline<W>, before: Rows, j: nat, n: nat, r: (Machine<W>, Option<nat>)) {
    && AllMidway(p, before, j, r.0)
    && match r.1
       case None =>
         && n <= |p.steps| && CallsBelow(r.0.calls, n)
         && TableIs(p, before, j, if n < j then 0 else n, None, r.0.rows)
       case Some(i) => j <= i < |p.steps| && TableIs(p, before, j, i, Some(Failed), r.0.rows)
  }

  lemma TableNext<W>(p: Pipeline<W>, before: Rows, j: nat, n: nat, r: (Machine<W>, Option<nat>),
                     r': (Machine<W>, Option<nat>))
    requires DistinctNames(p) && AllApplied(p) && 0 < n <= |p.steps| && ForwardTable(p, before, j, n - 1, r)
    requires r.1.None? && n <= j ==> r' == r
    requires r.1.Some? ==> r' == r
    requires r.1.None? && j < n ==>
               var step := RunStep(p, n - 1, r.0); r' == (step.0, if step.1 then None else Some(n - 1))
    ensures ForwardTable(p, before, j, n, r')
  {
    if r.1.None? && j < n { RunStepTable(p, before, j, n, r.0); }
  }

  // With all writes applied, resumed after the first j steps: at every point the steps
  // executed so far are completed, the one under way says running, or what an earlier
  // run left, and no other row differs; a failed run ends with its last step failed.
  lemma {:induction false} TableTellsTheRun<W>(p: Pipeline<W>, j: nat, n: nat, m: Machine<W>,
                                               r: (Machine<W>, Option<nat>))
    requires StartsAt(p, j, m) && AllApplied(p) && n <= |p.steps| && r == Forward(p, n, m)
    ensures ForwardTable(p, m.rows, j, n, r)
  {
    if n > 0 {
      var before := Forward(p, n - 1, m);
      TableTellsTheRun(p, j, n - 1, m, before);
      ForwardIs(p, n, m, before, RunStep(p, n - 1, before.0), r);
      if before.1.None? { ForwardSkips(p, j, n, m); }
      TableNext(p, m.rows, j, n, before, r);
    }
  }
}
