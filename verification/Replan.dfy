// What a retry of the migration step plans (cluster/ops/scale.go, migrate-slots;
// cluster/model/manager.go, collectSlotTasks): the counters are those the first plan
// left, the ranges are those of before.
module SecondPlan {
  import opened Basics
  import opened SlotPlanner
  import opened Rebalance
  import opened SlotAllocation

  // ----- Every plan takes slots from the end of a range -----

  // The slots the tasks take from a node.
  function TakenFrom(tasks: seq<Task>, id: string): set<int> {
    if tasks == [] then {}
    else TakenFrom(Front(tasks), id) + if Last(tasks).fromId == id then {Last(tasks).slot} else {}
  }

  // src gives the slots hi, hi - 1, ..., g of them, and nobody else gives any.
  ghost predicate TakesEnd(t: Topology, src: string, hi: int, s: Progress, s': Progress)
    requires t.Valid() && s.num.Keys == t.nodes.Keys == s'.num.Keys && src in t.nodes
  {
    && s'.num[src] <= s.num[src]
    && TakenFrom(s'.tasks, src) == TakenFrom(s.tasks, src) + Interval(hi - (s.num[src] - s'.num[src]) + 1, hi)
    && forall id :: id in t.nodes && id != src && id !in t.empties ==>
         s'.num[id] == s.num[id] && TakenFrom(s'.tasks, id) == TakenFrom(s.tasks, id)
  }

  lemma MoveTakes(t: Topology, v: int, src: string, x: int, s: Progress)
    requires t.Valid() && s.num.Keys == t.nodes.Keys && src in t.nodes && src !in t.empties && s.emp < |t.empties|
    ensures TakesEnd(t, src, x, s, Move(t, v, src, x, s)) && Move(t, v, src, x, s).num[src] == s.num[src] - 1
  {
    var s' := Move(t, v, src, x, s);
    assert Front(s'.tasks) == s.tasks;
    assert Interval(x, x) == {x};
  }

  lemma TakesInTurn(t: Topology, src: string, hi: int, s: Progress, mid: Progress, s': Progress)
    requires t.Valid() && s.num.Keys == t.nodes.Keys == mid.num.Keys == s'.num.Keys && src in t.nodes
    requires TakesEnd(t, src, hi, s, mid) && mid.num[src] == s.num[src] - 1 && TakesEnd(t, src, hi - 1, mid, s')
    ensures TakesEnd(t, src, hi, s, s')
  {
    var g := s.num[src] - s'.num[src];
    assert Interval(hi, hi) + Interval(hi - g + 1, hi - 1) == Interval(hi - g + 1, hi);
  }

  lemma {:induction false} DrainRangeTakes(t: Topology, v: int, src: string, lo: int, hi: int, s: Progress)
    requires t.Valid() && s.num.Keys == t.nodes.Keys && src in t.nodes && src !in t.empties
    ensures TakesEnd(t, src, hi, s, DrainRange(t, v, src, lo, hi, s))
    decreases if hi < lo then 0 else hi - lo + 1
  {
    if !(hi < lo || s.emp >= |t.empties| || src == t.empties[s.emp]) {
      MoveTakes(t, v, src, hi, s);
      var mid := Move(t, v, src, hi, s);
      if mid.num[src] != v {
        DrainRangeTakes(t, v, src, lo, hi - 1, mid);
        TakesInTurn(t, src, hi, s, mid, DrainRange(t, v, src, lo, hi - 1, mid));
      }
    } else {
      assert Interval(hi + 1, hi) == {};
    }
  }

  // At most one range each, and none for the empty masters.
  ghost predicate OneRange(t: Topology) {
    forall id :: id in t.nodes ==> |t.nodes[id].slots| <= 1 && (id in t.empties ==> t.nodes[id].slots == [])
  }

  // What node id has given is the end of its range.
  ghost predicate GivesEnd(t: Topology, num: map<string, int>, s: Progress, id: string)
    requires num.Keys == t.nodes.Keys == s.num.Keys && id in t.nodes
  {
    && s.num[id] <= num[id]
    && TakenFrom(s.tasks, id) ==
       if t.nodes[id].slots == [] then {}
       else Interval(t.nodes[id].slots[0].end - (num[id] - s.num[id]) + 1, t.nodes[id].slots[0].end)
  }

  lemma OneMasterTakes(t: Topology, v: int, src: string, num: map<string, int>, s: Progress, id: string)
    requires t.Valid() && num.Keys == t.nodes.Keys == s.num.Keys && OneRange(t)
    requires src in t.nodes && t.nodes[src].slots != [] && id in t.nodes && id !in t.empties
    requires GivesEnd(t, num, s, id) && (id == src ==> s.num[id] == num[id])
    ensures GivesEnd(t, num, DrainRanges(t, v, src, |t.nodes[src].slots|, s), id)
    ensures id != src ==> DrainRanges(t, v, src, |t.nodes[src].slots|, s).num[id] == s.num[id]
  {
    var r := t.nodes[src].slots[0];
    assert |t.nodes[src].slots| == 1 && DrainRanges(t, v, src, 0, s) == s;
    DrainRangeTakes(t, v, src, r.start, r.end, s);
    if id == src {
      assert Interval(r.end + 1, r.end) == {};
    }
  }

  lemma NextMasterTakes(t: Topology, v: int, cluster: string, k: nat, num: map<string, int>, s: Progress, id: string)
    requires t.Valid() && num.Keys == t.nodes.Keys == s.num.Keys && 0 < k <= |t.masterIds| && Distinct(t.masterIds)
    requires OneRange(t) && id in t.nodes && id !in t.empties && GivesEnd(t, num, s, id)
    requires id !in t.masterIds[..k - 1] ==> s.num[id] == num[id]
    ensures var src := t.masterIds[k - 1];
            var s' := if Skips(t, v, cluster, src, s) then s else DrainRanges(t, v, src, |t.nodes[src].slots|, s);
            GivesEnd(t, num, s', id) && (id !in t.masterIds[..k] ==> s'.num[id] == num[id])
  {
    var src := t.masterIds[k - 1];
    assert t.masterIds[..k] == t.masterIds[..k - 1] + [src];
    assert src !in t.masterIds[..k - 1];
    if !Skips(t, v, cluster, src, s) && t.nodes[src].slots != [] {
      OneMasterTakes(t, v, src, num, s, id);
    }
  }

  lemma {:induction false} DrainMastersTakes(t: Topology, v: int, cluster: string, k: nat,
                                             num: map<string, int>, id: string)
    requires t.Valid() && num.Keys == t.nodes.Keys && k <= |t.masterIds| && Distinct(t.masterIds) && OneRange(t)
    requires id in t.nodes && id !in t.empties
    ensures GivesEnd(t, num, DrainMasters(t, v, cluster, k, num), id)
    ensures id !in t.masterIds[..k] ==> DrainMasters(t, v, cluster, k, num).num[id] == num[id]
  {
    if k == 0 {
      assert t.nodes[id].slots != [] ==> Interval(t.nodes[id].slots[0].end + 1, t.nodes[id].slots[0].end) == {};
    } else {
      DrainMastersTakes(t, v, cluster, k - 1, num, id);
      NextMasterTakes(t, v, cluster, k, num, DrainMasters(t, v, cluster, k - 1, num), id);
    }
  }

  // ----- The second plan never gets past the first new master -----

  // The first new master is full already, so it never becomes full.
  ghost predicate Stuck(t: Topology, v: int, s: Progress)
    requires t.Valid() && s.num.Keys == t.nodes.Keys && t.empties != []
  {
    && s.emp == 0 && s.num[t.empties[0]] >= v
    && forall i :: 0 <= i < |s.tasks| ==> s.tasks[i].toId == t.empties[0]
  }

  lemma {:induction false} DrainRangeStuck(t: Topology, v: int, src: string, lo: int, hi: int, s: Progress)
    requires t.Valid() && s.num.Keys == t.nodes.Keys && src in t.nodes && src !in t.empties && t.empties != []
    requires Stuck(t, v, s) && s.num[src] > v && hi - lo + 1 >= s.num[src] - v
    ensures Stuck(t, v, DrainRange(t, v, src, lo, hi, s)) && DrainRange(t, v, src, lo, hi, s).num[src] == v
    decreases if hi < lo then 0 else hi - lo + 1
  {
    var s' := Move(t, v, src, hi, s);
    if s'.num[src] != v { DrainRangeStuck(t, v, src, lo, hi - 1, s'); }
  }

  // Every old master holds at most what its range is long.
  ghost predicate Fits(t: Topology, cluster: string, num: map<string, int>)
    requires num.Keys == t.nodes.Keys
  {
    forall id :: id in t.masterIds ==>
      && id in t.nodes && t.nodes[id].clusterName == cluster
      && (id !in t.empties ==> t.nodes[id].slots != [] && num[id] <= Length(t.nodes[id].slots[0]))
  }

  lemma OneMasterStuck(t: Topology, v: int, src: string, s: Progress)
    requires t.Valid() && s.num.Keys == t.nodes.Keys && src in t.nodes && src !in t.empties && t.empties != []
    requires |t.nodes[src].slots| == 1 && Stuck(t, v, s) && v < s.num[src] <= Length(t.nodes[src].slots[0]) && 0 <= v
    ensures Stuck(t, v, DrainRanges(t, v, src, 1, s)) && DrainRanges(t, v, src, 1, s).num[src] == v
  {
    var r := t.nodes[src].slots[0];
    assert DrainRanges(t, v, src, 0, s) == s;
    DrainRangeStuck(t, v, src, r.start, r.end, s);
  }

  lemma FitsAt(t: Topology, cluster: string, num: map<string, int>, src: string)
    requires num.Keys == t.nodes.Keys && OneRange(t) && Fits(t, cluster, num) && src in t.masterIds && src !in t.empties
    ensures src in t.nodes && t.nodes[src].clusterName == cluster && |t.nodes[src].slots| == 1
    ensures num[src] <= Length(t.nodes[src].slots[0])
  {
  }

  lemma NotYetSeen<T>(s: seq<T>, k: nat)
    requires Distinct(s) && k < |s|
    ensures s[k] in s && s[k] !in s[..k]
  {
  }

  // When a master's turn comes it still has what it had.
  lemma AtItsTurn(t: Topology, v: int, cluster: string, k: nat, num: map<string, int>, src: string)
    requires t.Valid() && num.Keys == t.nodes.Keys && 0 < k <= |t.masterIds| && Distinct(t.masterIds) && OneRange(t)
    requires src == t.masterIds[k - 1] && src in t.nodes && src !in t.empties
    ensures DrainMasters(t, v, cluster, k - 1, num).num[src] == num[src]
  {
    NotYetSeen(t.masterIds, k - 1);
    DrainMastersTakes(t, v, cluster, k - 1, num, src);
  }

  lemma StuckStep(t: Topology, v: int, cluster: string, src: string, s: Progress)
    requires t.Valid() && s.num.Keys == t.nodes.Keys && t.empties != [] && Stuck(t, v, s) && 1 <= v
    requires src in t.nodes && (src in t.empties ==> t.nodes[src].slots == [])
    requires src !in t.empties ==> |t.nodes[src].slots| == 1 && s.num[src] <= Length(t.nodes[src].slots[0])
    ensures !Skips(t, v, cluster, src, s) ==> Stuck(t, v, DrainRanges(t, v, src, |t.nodes[src].slots|, s))
  {
    if src !in t.empties && !Skips(t, v, cluster, src, s) { OneMasterStuck(t, v, src, s); }
  }

  lemma {:induction false} DrainMastersStuck(t: Topology, v: int, cluster: string, k: nat, num: map<string, int>)
    requires t.Valid() && num.Keys == t.nodes.Keys && k <= |t.masterIds| && Distinct(t.masterIds) && OneRange(t)
    requires t.empties != [] && num[t.empties[0]] >= v >= 1 && Fits(t, cluster, num)
    ensures Stuck(t, v, DrainMasters(t, v, cluster, k, num))
  {
    if k > 0 {
      DrainMastersStuck(t, v, cluster, k - 1, num);
      var src := t.masterIds[k - 1];
      assert src in t.masterIds;
      if src !in t.empties {
        FitsAt(t, cluster, num, src);
        AtItsTurn(t, v, cluster, k, num, src);
      }
      StuckStep(t, v, cluster, src, DrainMasters(t, v, cluster, k - 1, num));
    }
  }

  // A master with a surplus is left with exactly the target, at its turn and later.
  lemma AfterItsTurn(t: Topology, v: int, cluster: string, k: nat, num: map<string, int>)
    requires t.Valid() && num.Keys == t.nodes.Keys && 0 < k <= |t.masterIds| && Distinct(t.masterIds) && OneRange(t)
    requires t.empties != [] && num[t.empties[0]] >= v >= 1 && Fits(t, cluster, num)
    requires t.masterIds[k - 1] !in t.empties
    ensures t.masterIds[k - 1] in t.nodes
    ensures DrainMasters(t, v, cluster, k, num).num[t.masterIds[k - 1]] == Min(num[t.masterIds[k - 1]], v)
  {
    var s, src := DrainMasters(t, v, cluster, k - 1, num), t.masterIds[k - 1];
    FitsAt(t, cluster, num, src);
    AtItsTurn(t, v, cluster, k, num, src);
    DrainMastersStuck(t, v, cluster, k - 1, num);
    if !Skips(t, v, cluster, src, s) { OneMasterStuck(t, v, src, s); }
  }

  lemma OthersTurn(t: Topology, v: int, cluster: string, k: nat, num: map<string, int>, id: string)
    requires t.Valid() && num.Keys == t.nodes.Keys && 0 < k <= |t.masterIds| && Distinct(t.masterIds) && OneRange(t)
    requires id in t.nodes && id !in t.empties && id != t.masterIds[k - 1]
    ensures DrainMasters(t, v, cluster, k, num).num[id] == DrainMasters(t, v, cluster, k - 1, num).num[id]
  {
    var s, src := DrainMasters(t, v, cluster, k - 1, num), t.masterIds[k - 1];
    DrainMastersTakes(t, v, cluster, k - 1, num, id);
    if !Skips(t, v, cluster, src, s) && t.nodes[src].slots != [] { OneMasterTakes(t, v, src, num, s, id); }
  }

  ghost predicate Planning(t: Topology, v: int, cluster: string, num: map<string, int>) {
    && t.Valid() && num.Keys == t.nodes.Keys && Distinct(t.masterIds) && OneRange(t)
    && t.empties != [] && num[t.empties[0]] >= v >= 1 && Fits(t, cluster, num)
  }

  lemma {:induction false} SurplusIsTaken(t: Topology, v: int, cluster: string, k: nat, num: map<string, int>,
                                          i: nat, id: string, s: Progress)
    requires Planning(t, v, cluster, num) && i < k <= |t.masterIds|
    requires id in t.nodes && id == t.masterIds[i] && id !in t.empties && s == DrainMasters(t, v, cluster, k, num)
    ensures s.num[id] == Min(num[id], v)
  {
    if i == k - 1 {
      AfterItsTurn(t, v, cluster, k, num);
    } else {
      SurplusIsTaken(t, v, cluster, k - 1, num, i, id, DrainMasters(t, v, cluster, k - 1, num));
      assert id != t.masterIds[k - 1];
      OthersTurn(t, v, cluster, k, num, id);
    }
  }

  // ----- The two plans of a created cluster -----

  lemma Premises(t: Topology, cluster: string, olds: seq<string>)
    requires ScaledOut(t, cluster, olds)
    ensures t.Valid() && Distinct(t.masterIds) && OneRange(t)
    ensures forall id :: id in t.masterIds <==> id in olds || id in t.empties
    ensures forall id :: id in olds ==> id in t.nodes && id !in t.empties
  {
    MastersSplit(t, cluster, olds);
  }

  lemma CountsFit(t: Topology, cluster: string, olds: seq<string>, num: map<string, int>)
    requires ScaledOut(t, cluster, olds) && num.Keys == t.nodes.Keys
    requires forall id :: id in olds ==> id in t.nodes && num[id] <= Counts(t)[id]
    ensures Fits(t, cluster, num)
  {
    Premises(t, cluster, olds);
    forall id | id in t.masterIds && id !in t.empties
      ensures t.nodes[id].slots != [] && num[id] <= Length(t.nodes[id].slots[0])
    {
      var i :| 0 <= i < |olds| && olds[i] == id;
      var rs := t.nodes[id].slots;
      assert Total(rs, 0) == 0 && Total(rs, 1) == Length(rs[0]);
    }
  }

  lemma FirstPlanGives(t: Topology, cluster: string, olds: seq<string>, i: nat)
    requires ScaledOut(t, cluster, olds) && i < |olds|
    ensures olds[i] in t.nodes && GivesEnd(t, Counts(t), Plan(t, cluster, Counts(t)), olds[i])
    ensures Plan(t, cluster, Counts(t)).num[olds[i]] >= Target(t)
  {
    Premises(t, cluster, olds);
    RebalanceAfterCreate(t, cluster, olds);
    DrainMastersTakes(t, Target(t), cluster, |t.masterIds|, Counts(t), olds[i]);
    assert olds[i] in t.masterIds;
  }

  lemma SecondPlanPremises(t: Topology, cluster: string, olds: seq<string>)
    requires ScaledOut(t, cluster, olds) && t.empties != []
    ensures var first := Plan(t, cluster, Counts(t));
            first.num[t.empties[0]] >= Target(t) >= 1 && Fits(t, cluster, first.num)
  {
    var first := Plan(t, cluster, Counts(t));
    forall o | o in olds ensures o in t.nodes && first.num[o] <= Counts(t)[o] {
      var i :| 0 <= i < |olds| && olds[i] == o;
      FirstPlanGives(t, cluster, olds, i);
    }
    CountsFit(t, cluster, olds, first.num);
    RebalanceAfterCreate(t, cluster, olds);
    TargetTimesMasters(|t.masterIds|);
    assert t.empties[0] in t.empties;
  }

  // What each of the two plans takes from old master i: the first g1 slots from the end
  // of its share, the second all it has left above the target, again from the end of the
  // share and all for the first new master.  So the slots both plans have in common are
  // the last min of the two, and the second plan names them with a source that has
  // given them away.
  lemma SecondPlanStartsOver(t: Topology, cluster: string, olds: seq<string>, i: nat)
    requires ScaledOut(t, cluster, olds) && t.empties != [] && i < |olds|
    ensures var first := Plan(t, cluster, Counts(t));
            var second := Plan(t, cluster, first.num);
            var id, end := olds[i], Share(i, |olds|).end;
            && id in first.num
            && TakenFrom(first.tasks, id) == Interval(end - (Counts(t)[id] - first.num[id]) + 1, end)
            && TakenFrom(second.tasks, id) == Interval(end - (first.num[id] - Target(t)) + 1, end)
            && (forall j :: 0 <= j < |second.tasks| ==> second.tasks[j].toId == t.empties[0])
  {
    var first, v, n := Plan(t, cluster, Counts(t)), Target(t), |t.masterIds|;
    FirstPlanGives(t, cluster, olds, i);
    Premises(t, cluster, olds);
    SecondPlanPremises(t, cluster, olds);
    DrainMastersStuck(t, v, cluster, n, first.num);
    DrainMastersTakes(t, v, cluster, n, first.num, olds[i]);
    assert olds[i] in t.masterIds;
    var j :| 0 <= j < n && t.masterIds[j] == olds[i];
    SurplusIsTaken(t, v, cluster, n, first.num, j, olds[i], Plan(t, cluster, first.num));
  }

  // A slot is planned twice exactly when its old master gave something in the first
  // plan and has more than the target left.
  lemma PlannedTwice(t: Topology, cluster: string, olds: seq<string>, i: nat)
    requires ScaledOut(t, cluster, olds) && t.empties != [] && i < |olds|
    ensures var first := Plan(t, cluster, Counts(t));
            var second := Plan(t, cluster, first.num);
            (TakenFrom(first.tasks, olds[i]) * TakenFrom(second.tasks, olds[i]) != {} <==>
               olds[i] in first.num && Target(t) < first.num[olds[i]] < Counts(t)[olds[i]])
  {
    SecondPlanStartsOver(t, cluster, olds, i);
    var first := Plan(t, cluster, Counts(t));
    var end := Share(i, |olds|).end;
    if Target(t) < first.num[olds[i]] < Counts(t)[olds[i]] {
      assert end in TakenFrom(first.tasks, olds[i]) && end in TakenFrom(Plan(t, cluster, first.num).tasks, olds[i]);
    }
  }
}
