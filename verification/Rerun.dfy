// Running a pipeline again, from whatever steps are marked as completed
// (cluster/pipeline/pipeline.go, Run and RetryFrom).
module PipelineRerun {
  import opened Basics
  import opened PipelineEngine

  // The steps below n that are not marked as completed.
  function Unmarked<W>(p: Pipeline<W>, n: nat, completed: set<string>): seq<nat>
    requires n <= |p.steps|
  {
    if n == 0 then []
    else Unmarked(p, n - 1, completed) + if p.steps[n - 1].name in completed then [] else [n - 1]
  }

  ghost predicate Attempts<W>(p: Pipeline<W>, k: nat, completed: set<string>, c: Call) {
    c.Did? && c.step <= k && c.step < |p.steps| && p.steps[c.step].name !in completed
  }

  // The unmarked steps up to k, and only these, were executed, and are marked now.
  ghost predicate RanUnmarked<W>(p: Pipeline<W>, k: nat, m: Machine<W>, m': Machine<W>)
    requires k <= |p.steps|
  {
    && Successes(m'.calls) == Successes(m.calls) + Unmarked(p, k, m.completed)
    && m'.completed == m.completed + Names(p, k)
    && m.calls <= m'.calls
    && (forall c :: |m.calls| <= c < |m'.calls| ==> Attempts(p, k, m.completed, m'.calls[c]))
  }

  ghost predicate RanFrom<W>(p: Pipeline<W>, n: nat, m: Machine<W>, r: (Machine<W>, Option<nat>))
    requires n <= |p.steps|
  {
    match r.1
    case None => RanUnmarked(p, n, m, r.0)
    case Some(i) => i < n && RanUnmarked(p, i, m, r.0) && p.steps[i].name !in m.completed
  }

  lemma {:induction false} StepSkipped<W>(p: Pipeline<W>, n: nat, m: Machine<W>, mid: Machine<W>)
    requires 0 < n <= |p.steps| && RanUnmarked(p, n - 1, m, mid) && p.steps[n - 1].name in m.completed
    ensures RanUnmarked(p, n, m, mid)
  {
    assert Unmarked(p, n, m.completed) == Unmarked(p, n - 1, m.completed);
    forall c | |m.calls| <= c < |mid.calls| ensures Attempts(p, n, m.completed, mid.calls[c]) {
      assert Attempts(p, n - 1, m.completed, mid.calls[c]);
    }
  }

  // What one step does to marks and calls.
  ghost predicate StepTried<W>(p: Pipeline<W>, i: nat, m: Machine<W>, m': Machine<W>, ok: bool)
    requires i < |p.steps|
  {
    && m'.completed == m.completed + (if ok then {p.steps[i].name} else {})
    && m.calls <= m'.calls
    && (forall c :: |m.calls| <= c < |m'.calls| ==> m'.calls[c].Did? && m'.calls[c].step == i)
    && Successes(m'.calls) == Successes(m.calls) + (if ok then [i] else [])
  }

  lemma {:induction false} RunStepTries<W>(p: Pipeline<W>, i: nat, m: Machine<W>)
    requires i < |p.steps|
    ensures StepTried(p, i, m, RunStep(p, i, m).0, RunStep(p, i, m).1)
  {
    AttemptTries(p, i, p.steps[i].retry + 1, Write(p, m, Start(m.rows, p.name, p.steps[i].name)));
  }

  lemma {:induction false} StepRan<W>(p: Pipeline<W>, n: nat, m: Machine<W>, mid: Machine<W>, m': Machine<W>, ok: bool)
    requires 0 < n <= |p.steps| && RanUnmarked(p, n - 1, m, mid) && p.steps[n - 1].name !in m.completed
    requires StepTried(p, n - 1, mid, m', ok)
    ensures RanUnmarked(p, if ok then n else n - 1, m, m')
  {
    forall c | |m.calls| <= c < |m'.calls| ensures Attempts(p, n - 1, m.completed, m'.calls[c]) {
      if c < |mid.calls| {
        assert m'.calls[c] == mid.calls[c];
        assert Attempts(p, n - 1, m.completed, mid.calls[c]);
      }
    }
  }

  lemma {:induction false} NextUnmarked<W>(p: Pipeline<W>, n: nat, m: Machine<W>, r: (Machine<W>, Option<nat>),
                                           step: (Machine<W>, bool), r': (Machine<W>, Option<nat>))
    requires 0 < n <= |p.steps| && RanFrom(p, n - 1, m, r) && p.steps[n - 1].name !in Names(p, n - 1)
    requires StepTried(p, n - 1, r.0, step.0, step.1)
    requires r' == (if r.1.Some? || p.steps[n - 1].name in r.0.completed then r
                    else (step.0, if step.1 then None else Some(n - 1)))
    ensures RanFrom(p, n, m, r')
  {
    if r.1.None? {
      if p.steps[n - 1].name in m.completed {
        StepSkipped(p, n, m, r.0);
      } else {
        StepRan(p, n, m, r.0, step.0, step.1);
      }
    }
  }

  lemma {:induction false} ForwardUnmarked<W>(p: Pipeline<W>, n: nat, m: Machine<W>, r: (Machine<W>, Option<nat>))
    requires DistinctNames(p) && n <= |p.steps| && r == Forward(p, n, m)
    ensures RanFrom(p, n, m, r)
  {
    if n == 0 {
      assert Successes(m.calls) + [] == Successes(m.calls);
    } else {
      var before := Forward(p, n - 1, m);
      ForwardUnmarked(p, n - 1, m, before);
      NamesMember(p, n - 1, n - 1);
      RunStepTries(p, n - 1, before.0);
      ForwardIs(p, n, m, before, RunStep(p, n - 1, before.0), r);
      NextUnmarked(p, n, m, before, RunStep(p, n - 1, before.0), r);
    }
  }

  // From any set of completed steps, also one that a failed run left behind, Run
  // executes exactly the unmarked steps, once each and in order, up to the first one
  // that fails.
  lemma RunsUnmarked<W>(p: Pipeline<W>, n: nat, m: Machine<W>)
    requires DistinctNames(p) && n <= |p.steps|
    ensures RanFrom(p, n, m, Forward(p, n, m))
  {
    ForwardUnmarked(p, n, m, Forward(p, n, m));
  }

  // Resetting from step i takes the marks off exactly the steps from i on.
  lemma {:induction false} ResetKeepsEarlier<W>(p: Pipeline<W>, completed: set<string>, i: nat, n: nat)
    requires DistinctNames(p) && i < |p.steps| && n <= |p.steps|
    ensures Reset(p, completed, p.steps[i].name, n)
            == if n <= i then completed else completed - (Names(p, n) - Names(p, i))
  {
    if n > 0 {
      ResetKeepsEarlier(p, completed, i, n - 1);
      NamesMember(p, i, n - 1);
      if n - 1 >= i { assert p.steps[i].name == p.steps[i].name && Named(p, p.steps[i].name, n); }
      if n - 1 == i { assert Names(p, n) - Names(p, i) == {p.steps[i].name}; }
    }
  }

  lemma {:induction false} ResetMember<W>(p: Pipeline<W>, completed: set<string>, i: nat, q: nat)
    requires DistinctNames(p) && i < |p.steps| && q < |p.steps|
    ensures p.steps[q].name in Reset(p, completed, p.steps[i].name, |p.steps|)
            <==> p.steps[q].name in completed && q < i
  {
    ResetKeepsEarlier(p, completed, i, |p.steps|);
    NamesMember(p, i, q);
    NamesMember(p, |p.steps|, q);
  }

  lemma {:induction false} UnmarkedFrom<W>(p: Pipeline<W>, completed: set<string>, reset: set<string>, i: nat, n: nat)
    requires i < |p.steps| && n <= |p.steps|
    requires forall q :: 0 <= q < |p.steps| ==> (p.steps[q].name in reset <==> p.steps[q].name in completed && q < i)
    ensures Unmarked(p, n, reset)
            == if n <= i then Unmarked(p, n, completed) else Unmarked(p, i, completed) + Range(i, n)
  {
    if n > 0 {
      UnmarkedFrom(p, completed, reset, i, n - 1);
      if n == i + 1 { assert Unmarked(p, i, completed) + [] == Unmarked(p, i, completed); }
    }
  }

  lemma {:induction false} RetryUnmarked<W>(p: Pipeline<W>, completed: set<string>, i: nat, n: nat)
    requires DistinctNames(p) && i < |p.steps| && n <= |p.steps|
    ensures Unmarked(p, n, Reset(p, completed, p.steps[i].name, |p.steps|))
            == if n <= i then Unmarked(p, n, completed) else Unmarked(p, i, completed) + Range(i, n)
  {
    var reset := Reset(p, completed, p.steps[i].name, |p.steps|);
    forall q | 0 <= q < |p.steps| ensures p.steps[q].name in reset <==> p.steps[q].name in completed && q < i {
      ResetMember(p, completed, i, q);
    }
    UnmarkedFrom(p, completed, reset, i, n);
  }

  lemma {:induction false} UndoIsNoSuccess<W>(p: Pipeline<W>, n: nat, m: Machine<W>)
    requires n <= |p.steps|
    ensures Successes(UndoAll(p, n, m).calls) == Successes(m.calls)
  {
    if n > 0 {
      var s := p.steps[n - 1];
      match s.undo
      case None => UndoIsNoSuccess(p, n - 1, m);
      case Some(undo) =>
        var undone := Note(m.(world := undo(m.world, m.time).0, time := m.time + 1, calls := m.calls + [Undid(n - 1)]));
        assert Front(undone.calls) == m.calls;
        UndoIsNoSuccess(p, n - 1, Write(p, undone.(completed := undone.completed - {s.name}),
                                        DeletePipeline(undone.rows, p.name)));
    }
  }

  // How far a run got.
  function Until<W>(p: Pipeline<W>, failed: Option<nat>): nat {
    match failed
    case None => |p.steps|
    case Some(i) => i
  }

  // The run of m executed these steps successfully, once each and in order.
  ghost predicate Executed<W>(m: Machine<W>, m': Machine<W>, steps: seq<nat>) {
    Successes(m'.calls) == Successes(m.calls) + steps
  }

  lemma RunExecutes<W>(p: Pipeline<W>, m: Machine<W>)
    requires DistinctNames(p)
    ensures var (m', failed) := RunAll(p, m);
            Until(p, failed) <= |p.steps| && Executed(m, m', Unmarked(p, Until(p, failed), m.completed))
  {
    RunsUnmarked(p, |p.steps|, m);
    var (m', failed) := Forward(p, |p.steps|, m);
    if failed.Some? { UndoIsNoSuccess(p, failed.value, m'); }
  }

  // So a retry from step i executes the earlier steps that are not marked, and all
  // from i on, up to the first one that fails.
  lemma RetryExecutes<W>(p: Pipeline<W>, m: Machine<W>, i: nat)
    requires DistinctNames(p) && i < |p.steps|
    ensures var (m', failed) := RunAll(p, m.(completed := Reset(p, m.completed, p.steps[i].name, |p.steps|)));
            var n := Until(p, failed);
            && n <= |p.steps|
            && Executed(m, m', if n <= i then Unmarked(p, n, m.completed)
                               else Unmarked(p, i, m.completed) + Range(i, n))
  {
    var reset := m.(completed := Reset(p, m.completed, p.steps[i].name, |p.steps|));
    RunExecutes(p, reset);
    RetryUnmarked(p, m.completed, i, Until(p, RunAll(p, reset).1));
  }

  lemma {:induction false} UndoableMember<W>(p: Pipeline<W>, n: nat, q: nat)
    requires DistinctNames(p) && n <= |p.steps| && q < |p.steps|
    ensures p.steps[q].name in Undoable(p, n) <==> q < n && p.steps[q].undo.Some?
  {
    if n > 0 { UndoableMember(p, n - 1, q); }
  }

  // The steps below n that a failure at step i leaves unmarked.
  function Again<W>(p: Pipeline<W>, n: nat, i: nat): seq<nat>
    requires n <= |p.steps|
  {
    if n == 0 then []
    else Again(p, n - 1, i) + if n - 1 < i && p.steps[n - 1].undo.None? then [] else [n - 1]
  }

  lemma {:induction false} UnmarkedAgain<W>(p: Pipeline<W>, n: nat, i: nat, completed: set<string>)
    requires DistinctNames(p) && n <= |p.steps| && i <= |p.steps| && completed == Names(p, i) - Undoable(p, i)
    ensures Unmarked(p, n, completed) == Again(p, n, i)
  {
    if n > 0 {
      UnmarkedAgain(p, n - 1, i, completed);
      NamesMember(p, i, n - 1);
      UndoableMember(p, i, n - 1);
    }
  }

  // After a failure at step i the next run passes over exactly the earlier steps
  // without Undo: it executes the earlier ones with Undo and all from i on, up to the
  // first one that fails.
  lemma FailureThenRun<W>(p: Pipeline<W>, j: nat, m: Machine<W>)
    requires StartsAt(p, j, m) && RunAll(p, m).1.Some?
    ensures var (after, i) := (RunAll(p, m).0, RunAll(p, m).1.value);
            var (m', failed) := RunAll(p, after);
            Until(p, failed) <= |p.steps| && Executed(after, m', Again(p, Until(p, failed), i))
  {
    var after, i := RunAll(p, m).0, RunAll(p, m).1.value;
    FailureLeavesMarks(p, j, m);
    RunExecutes(p, after);
    UnmarkedAgain(p, Until(p, RunAll(p, after).1), i, after.completed);
  }

  // ----- How often a step is tried -----

  // t failed calls of step i.
  function Failures(i: nat, t: nat): seq<Call> {
    if t == 0 then [] else Failures(i, t - 1) + [Did(i, false)]
  }

  lemma {:induction false} FailuresCons(i: nat, t: nat)
    ensures [Did(i, false)] + Failures(i, t) == Failures(i, t + 1)
  {
    if t > 0 {
      FailuresCons(i, t - 1);
      assert [Did(i, false)] + (Failures(i, t - 1) + [Did(i, false)])
          == [Did(i, false)] + Failures(i, t - 1) + [Did(i, false)];
    }
  }

  // A step fails after k failed calls, or succeeds with the call after t < k failed
  // ones.
  lemma {:induction false} AttemptCalls<W>(p: Pipeline<W>, i: nat, k: nat, m: Machine<W>) returns (t: nat)
    requires i < |p.steps| && 1 <= k
    ensures var (m', ok) := Attempt(p, i, k, m);
            && (ok ==> t < k && m'.calls == m.calls + Failures(i, t) + [Did(i, true)])
            && (!ok ==> m'.calls == m.calls + Failures(i, k))
  {
    var (mid, ok) := CallDo(p, i, m);
    if ok {
      t := 0;
      assert m.calls + [] == m.calls;
    } else if k == 1 {
      t := 0;
      FailuresCons(i, 0);
    } else {
      var rest := AttemptCalls(p, i, k - 1, mid);
      t := rest + 1;
      FailuresCons(i, rest);
      FailuresCons(i, k - 1);
      assert m.calls + [Did(i, false)] + Failures(i, rest) == m.calls + ([Did(i, false)] + Failures(i, rest));
      assert m.calls + [Did(i, false)] + Failures(i, k - 1) == m.calls + ([Did(i, false)] + Failures(i, k - 1));
    }
  }

  // A step whose success depends on the time alone succeeds exactly when one of the k
  // times of its calls is good: every retry is a new try.
  lemma {:induction false} RetriesAreNewTries<W(!new)>(p: Pipeline<W>, i: nat, k: nat, m: Machine<W>, good: nat -> bool)
    requires i < |p.steps| && 1 <= k && forall w, t: nat :: p.steps[i].do(w, t).1 == good(t)
    ensures Attempt(p, i, k, m).1 <==> exists t: nat :: m.time <= t < m.time + k && good(t)
  {
    var (mid, ok) := CallDo(p, i, m);
    if !ok && k > 1 { RetriesAreNewTries(p, i, k - 1, mid, good); }
  }

  // The calls since m end with k failed ones of step i.
  ghost predicate EndsFailing<W>(m: Machine<W>, m': Machine<W>, i: nat, k: nat) {
    exists prefix :: m'.calls == m.calls + prefix + Failures(i, k)
  }

  // There are no calls since m, or the last one succeeded.
  ghost predicate EndsWell<W>(m: Machine<W>, m': Machine<W>) {
    m'.calls == m.calls || (|m.calls| < |m'.calls| && Last(m'.calls).Did? && Last(m'.calls).ok)
  }

  ghost predicate EndsAs<W>(p: Pipeline<W>, m: Machine<W>, r: (Machine<W>, Option<nat>)) {
    m.calls <= r.0.calls &&
    match r.1
    case None => EndsWell(m, r.0)
    case Some(i) => i < |p.steps| && EndsFailing(m, r.0, i, p.steps[i].retry + 1)
  }

  lemma StepEnds<W>(p: Pipeline<W>, i: nat, m: Machine<W>, mid: Machine<W>, step: (Machine<W>, bool))
    requires i < |p.steps| && m.calls <= mid.calls && step == RunStep(p, i, mid)
    ensures EndsAs(p, m, (step.0, if step.1 then None else Some(i)))
  {
    var begun := Write(p, mid, Start(mid.rows, p.name, p.steps[i].name));
    var k := p.steps[i].retry + 1;
    var t := AttemptCalls(p, i, k, begun);
    var prefix := mid.calls[|m.calls|..];
    assert mid.calls == m.calls + prefix;
  }

  lemma {:induction false} ForwardEnds<W>(p: Pipeline<W>, n: nat, m: Machine<W>, r: (Machine<W>, Option<nat>))
    requires n <= |p.steps| && r == Forward(p, n, m)
    ensures EndsAs(p, m, r)
  {
    if n > 0 {
      var before := Forward(p, n - 1, m);
      var step := RunStep(p, n - 1, before.0);
      ForwardEnds(p, n - 1, m, before);
      ForwardIs(p, n, m, before, step, r);
      StepEnds(p, n - 1, m, before.0, step);
    }
  }

  lemma LastFailure<W>(m: Machine<W>, m': Machine<W>, i: nat, k: nat)
    requires k > 0 && EndsFailing(m, m', i, k)
    ensures |m.calls| < |m'.calls| && Last(m'.calls) == Did(i, false)
  {
    var prefix :| m'.calls == m.calls + prefix + Failures(i, k);
    assert Last(Failures(i, k)) == Did(i, false);
  }

  // A run fails at step i exactly when its forward phase ends with retry + 1 failed
  // calls of step i.
  lemma FailsAfterAllRetries<W>(p: Pipeline<W>, m: Machine<W>, i: nat)
    requires i < |p.steps|
    ensures RunAll(p, m).1 == Some(i)
            <==> EndsFailing(m, Forward(p, |p.steps|, m).0, i, p.steps[i].retry + 1)
  {
    var r := Forward(p, |p.steps|, m);
    ForwardEnds(p, |p.steps|, m, r);
    if EndsFailing(m, r.0, i, p.steps[i].retry + 1) {
      LastFailure(m, r.0, i, p.steps[i].retry + 1);
      if r.1.Some? { LastFailure(m, r.0, r.1.value, p.steps[r.1.value].retry + 1); }
    }
  }

  // ----- A crash during the rollback -----

  // A crash after t of the Undos of the steps before i: the table has forgotten the
  // pipeline, unless the crash came between the first Undo and the write after it.
  ghost predicate RolledBack<W>(p: Pipeline<W>, i: nat, from: Point, t: nat, pt: Point)
    requires i <= |p.steps|
  {
    && 1 <= t <= |UndoCalls(p, i)| && pt.calls == from.calls + UndoCalls(p, i)[..t]
    && (pt.rows == DeletePipeline(from.rows, p.name) || (t == 1 && pt.rows == from.rows))
  }

  // After t of the Undos, with the steps below n to come.
  ghost predicate RollingBack<W>(p: Pipeline<W>, i: nat, from: Point, t: nat, n: nat, m: Machine<W>)
    requires n <= i <= |p.steps|
  {
    && t <= |UndoCalls(p, i)| && UndoCalls(p, i)[t..] == UndoCalls(p, n)
    && m.calls == from.calls + UndoCalls(p, i)[..t]
    && m.rows == if t == 0 then from.rows else DeletePipeline(from.rows, p.name)
  }

  // The machine after the Undo of step i, and after the write that follows it.
  function Undone<W>(p: Pipeline<W>, i: nat, undo: Callback<W>, m: Machine<W>): Machine<W>
    requires i < |p.steps|
  {
    Note(m.(world := undo(m.world, m.time).0, time := m.time + 1, calls := m.calls + [Undid(i)]))
  }

  function Forgotten<W>(p: Pipeline<W>, i: nat, m: Machine<W>): Machine<W>
    requires i < |p.steps|
  {
    Write(p, m.(completed := m.completed - {p.steps[i].name}), DeletePipeline(m.rows, p.name))
  }

  lemma NextUndo<W>(p: Pipeline<W>, i: nat, from: Point, t: nat, n: nat, m: Machine<W>, undo: Callback<W>)
    requires 0 < n <= i <= |p.steps| && AllApplied(p) && RollingBack(p, i, from, t, n, m)
    requires p.steps[n - 1].undo == Some(undo)
    ensures var m' := Undone(p, n - 1, undo, m);
            var m'' := Forgotten(p, n - 1, m');
            && RolledBack(p, i, from, t + 1, Point(m'.calls, m'.rows))
            && RolledBack(p, i, from, t + 1, Point(m''.calls, m''.rows))
            && RollingBack(p, i, from, t + 1, n - 1, m'')
  {
    var all := UndoCalls(p, i);
    assert all[t..][0] == Undid(n - 1);
    assert all[..t + 1] == all[..t] + [all[t]];
    assert all[t + 1..] == all[t..][1..];
    assert DeletePipeline(DeletePipeline(from.rows, p.name), p.name) == DeletePipeline(from.rows, p.name);
  }

  lemma {:induction false} PointsStay<W>(p: Pipeline<W>, n: nat, m: Machine<W>)
    requires n <= |p.steps|
    ensures m.points <= UndoAll(p, n, m).points
  {
    if n > 0 {
      match p.steps[n - 1].undo
      case None => PointsStay(p, n - 1, m);
      case Some(undo) => PointsStay(p, n - 1, Forgotten(p, n - 1, Undone(p, n - 1, undo, m)));
    }
  }

  lemma {:induction false} RollbackPoints<W>(p: Pipeline<W>, i: nat, from: Point, t: nat, n: nat, m: Machine<W>, x: nat)
      returns (t': nat)
    requires n <= i <= |p.steps| && AllApplied(p) && RollingBack(p, i, from, t, n, m)
    requires |m.points| <= x < |UndoAll(p, n, m).points|
    ensures RolledBack(p, i, from, t', UndoAll(p, n, m).points[x])
    decreases n
  {
    match p.steps[n - 1].undo
    case None => t' := RollbackPoints(p, i, from, t, n - 1, m, x);
    case Some(undo) =>
      NextUndo(p, i, from, t, n, m, undo);
      var m' := Undone(p, n - 1, undo, m);
      var m'' := Forgotten(p, n - 1, m');
      PointsStay(p, n - 1, m'');
      if x < |m''.points| {
        t' := t + 1;
        assert UndoAll(p, n, m).points[x] == m''.points[x];
      } else {
        t' := RollbackPoints(p, i, from, t + 1, n - 1, m'', x);
      }
  }

  // The Undos among the calls are those of the steps from c to i that have one.
  ghost predicate UndidFrom<W>(p: Pipeline<W>, c: nat, i: nat, calls: seq<Call>)
    requires i <= |p.steps|
  {
    && c < i && p.steps[c].undo.Some?
    && forall q: nat :: Undid(q) in calls <==> c <= q < i && p.steps[q].undo.Some?
  }

  lemma {:induction false} FirstUndos<W>(p: Pipeline<W>, n: nat, t: nat) returns (c: nat)
    requires n <= |p.steps| && 1 <= t <= |UndoCalls(p, n)|
    ensures UndidFrom(p, c, n, UndoCalls(p, n)[..t])
    ensures t == 1 ==> forall q :: c < q < n ==> p.steps[q].undo.None?
  {
    var all, rest := UndoCalls(p, n), UndoCalls(p, n - 1);
    if p.steps[n - 1].undo.None? {
      assert all == rest;
      c := FirstUndos(p, n - 1, t);
    } else if t == 1 {
      c := n - 1;
      assert all[..t] == [Undid(n - 1)];
    } else {
      c := FirstUndos(p, n - 1, t - 1);
      assert all[..t] == [Undid(n - 1)] + rest[..t - 1];
    }
  }

  lemma {:induction false} UndoCallsUndo<W>(p: Pipeline<W>, n: nat)
    requires n <= |p.steps|
    ensures forall c :: c in UndoCalls(p, n) ==> c.Undid?
  {
    if n > 0 { UndoCallsUndo(p, n - 1); }
  }

  lemma {:induction false} OnlyUndos(calls: seq<Call>, undos: seq<Call>)
    requires forall c :: c in undos ==> c.Undid?
    ensures Successes(calls + undos) == Successes(calls)
  {
    if undos == [] {
      assert calls + undos == calls;
    } else {
      OnlyUndos(calls, Front(undos));
      assert Last(undos) in undos && Last(undos).Undid?;
      assert Front(calls + undos) == calls + Front(undos) && Last(calls + undos) == Last(undos);
    }
  }

  lemma RestartExecutes<W>(p: Pipeline<W>, k: nat, m: Machine<W>)
    requires StartsAt(p, k, m)
    ensures var (m', failed) := RunAll(p, m); Successes(m'.calls) == Range(k, Until(p, failed))
  {
    ForwardReaches(p, k, |p.steps|, m);
    var (m', failed) := Forward(p, |p.steps|, m);
    if failed.Some? { UndoIsNoSuccess(p, failed.value, m'); }
  }

  // A restart from these rows executes exactly the steps from k on.
  ghost predicate RestartsAt<W>(p: Pipeline<W>, k: nat, world: W, rows: Rows) {
    var (m', failed) := RunAll(p, New(p, world, rows));
    Successes(m'.calls) == Range(k, Until(p, failed))
  }

  lemma RestartAfterRollback<W>(p: Pipeline<W>, i: nat, from: Point, t: nat, pt: Point, world: W)
    requires i <= |p.steps| && DistinctNames(p) && LoadedExactly(p, from.rows, i) && RolledBack(p, i, from, t, pt)
    ensures RestartsAt(p, 0, world, pt.rows) || (t == 1 && RestartsAt(p, i, world, pt.rows))
  {
    var k := if pt.rows == DeletePipeline(from.rows, p.name) then 0 else i;
    assert LoadedExactly(p, pt.rows, k);
    NewStartsAt(p, world, pt.rows, k);
    RestartExecutes(p, k, New(p, world, pt.rows));
  }

  lemma CallsAfterRollback<W>(p: Pipeline<W>, c: nat, i: nat, forward: seq<Call>, t: nat)
    requires i <= |p.steps| && t <= |UndoCalls(p, i)| && UndidFrom(p, c, i, UndoCalls(p, i)[..t])
    requires forall k :: 0 <= k < |forward| ==> forward[k].Did?
    ensures UndidFrom(p, c, i, forward + UndoCalls(p, i)[..t])
    ensures Successes(forward + UndoCalls(p, i)[..t]) == Successes(forward)
  {
    var undos := UndoCalls(p, i)[..t];
    UndoCallsUndo(p, i);
    OnlyUndos(forward, undos);
    assert forall q: nat :: Undid(q) in forward + undos <==> Undid(q) in undos;
  }

  // A crash during the rollback after a failure at step i, when all writes are
  // applied: the steps from c on are undone, as far as they can be.  A restart finds
  // nothing recorded and executes all steps from the first one on, also those below c
  // and those without Undo, which nothing has undone; or, after the very first Undo
  // only, it finds the steps below i and passes over step c, which is undone.
  lemma CrashDuringRollback<W>(p: Pipeline<W>, j: nat, m: Machine<W>, x: nat, world: W) returns (c: nat)
    requires StartsAt(p, j, m) && AllApplied(p) && RunAll(p, m).1.Some?
    requires |Forward(p, |p.steps|, m).0.points| <= x < |RunAll(p, m).0.points|
    ensures var (pt, i) := (RunAll(p, m).0.points[x], RunAll(p, m).1.value);
            && i <= |p.steps| && Successes(pt.calls) == Range(j, i) && UndidFrom(p, c, i, pt.calls)
            && (|| RestartsAt(p, 0, world, pt.rows)
                || (&& RestartsAt(p, i, world, pt.rows)
                    && forall q :: c < q < i ==> p.steps[q].undo.None?))
  {
    var (forward, failed) := Forward(p, |p.steps|, m);
    var i := failed.value;
    ForwardReaches(p, j, |p.steps|, m);
    var from := Point(forward.calls, forward.rows);
    assert from.calls + UndoCalls(p, i)[..0] == from.calls;
    var t := RollbackPoints(p, i, from, 0, i, forward, x);
    c := FirstUndos(p, i, t);
    CallsAfterRollback(p, c, i, forward.calls, t);
    RestartAfterRollback(p, i, from, t, RunAll(p, m).0.points[x], world);
  }
}
