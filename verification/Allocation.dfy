// Creating a cluster and then scaling it out: slot allocation
// (cluster/model/manager.go, assignSlotsToMasters) followed by the planner.
module SlotAllocation {
  import opened Basics
  import opened SlotPlanner
  import opened Rebalance
  import RoleLayout
  import ShardCutting

  // ----- assignSlotsToMasters -----

  // The share of master i of m: equal parts, the last one takes the rest.
  function Share(i: nat, m: nat): SlotRange
    requires i < m
  {
    var part := TOTAL_SLOTS / m;
    SlotRange(i * part, if i == m - 1 then TOTAL_SLOTS - 1 else i * part + part - 1)
  }

  // The share that slot x falls into.
  function HomeOf(x: nat, m: nat): (i: nat)
    requires x < TOTAL_SLOTS && 1 <= m
    ensures i < m
  {
    var part := TOTAL_SLOTS / m;
    if part == 0 then m - 1 else if x / part < m then x / part else m - 1
  }

  lemma QuotientBounds(x: nat, part: nat, i: nat)
    requires part > 0
    ensures i * part <= x <==> i <= x / part
    ensures x <= i * part + part - 1 <==> x / part <= i
  {
    var q := x / part;
    assert q * part <= x < q * part + part;
    if i < q { ScaledGap(i, q, part); }
    if q < i { ScaledGap(q, i, part); }
  }

  // The shares tile the slots: slot x lies in its own share and in no other.
  lemma SharesTile(x: nat, m: nat, i: nat)
    requires x < TOTAL_SLOTS && i < m
    ensures Share(i, m).start <= x <= Share(i, m).end <==> i == HomeOf(x, m)
  {
    var part := TOTAL_SLOTS / m;
    assert part * m <= TOTAL_SLOTS;
    if part > 0 {
      QuotientBounds(x, part, i);
      QuotientBounds(x, part, m - 1);
    } else {
      assert i * part == 0;
    }
  }

  // Every share but the last has the same size; the last has the remainder too.
  lemma ShareSize(i: nat, m: nat)
    requires i < m
    ensures Length(Share(i, m)) == TOTAL_SLOTS / m + if i == m - 1 then TOTAL_SLOTS % m else 0
  {
    var part := TOTAL_SLOTS / m;
    assert TOTAL_SLOTS == m * part + TOTAL_SLOTS % m;
    assert (m - 1) * part == m * part - part;
  }

  datatype Outcome = Assigned | NoMasters | Rejected(masterId: string)

  // The slots start, start + 1, ..., end.
  function Slots(start: int, end: int): (s: seq<int>)
    ensures forall x :: x in s <==> start <= x <= end
    decreases if end < start then 0 else end - start + 1
  {
    if end < start then [] else Slots(start, end - 1) + [end]
  }

  // The loop that lists the slots of one master.
  method SlotList(startPoint: int, endPoint: int) returns (slots: seq<int>)
    ensures slots == Slots(startPoint, endPoint)
  {
    slots := [];
    var j := startPoint;
    while j <= endPoint
      invariant slots == Slots(startPoint, j - 1)
      invariant startPoint <= j && (j <= endPoint + 1 || j == startPoint)
    {
      slots := slots + [j];
      j := j + 1;
    }
    if endPoint < startPoint { assert Slots(startPoint, endPoint) == []; }
  }

  // accepts(id) says that the node is known and its ADDSLOTS command succeeds.
  // The commands issued are returned in order; the first failure stops the loop.
  method AssignSlotsToMasters(masterIds: seq<string>, accepts: string -> bool)
      returns (outcome: Outcome, issued: seq<(string, seq<int>)>)
    ensures outcome == NoMasters <==> masterIds == []
    ensures outcome.Assigned? ==> |issued| == |masterIds|
    ensures outcome.Rejected? ==>
              |issued| < |masterIds| && masterIds[|issued|] == outcome.masterId && !accepts(outcome.masterId)
    ensures |issued| <= |masterIds|
    ensures forall i :: 0 <= i < |issued| ==>
              && accepts(masterIds[i])
              && issued[i] == (masterIds[i], Slots(Share(i, |masterIds|).start, Share(i, |masterIds|).end))
  {
    issued := [];
    var numMasters := |masterIds|;
    if numMasters == 0 {
      return NoMasters, [];
    }
    var slotsPerMaster := TOTAL_SLOTS / numMasters;
    for i := 0 to numMasters
      invariant |issued| == i
      invariant forall k :: 0 <= k < i ==>
        && accepts(masterIds[k])
        && issued[k] == (masterIds[k], Slots(Share(k, |masterIds|).start, Share(k, |masterIds|).end))
    {
      var startPoint := i * slotsPerMaster;
      var endPoint := startPoint + slotsPerMaster - 1;
      if i == numMasters - 1 {
        endPoint := TOTAL_SLOTS - 1;
      }
      if !accepts(masterIds[i]) {
        return Rejected(masterIds[i]), issued;
      }
      var slots := SlotList(startPoint, endPoint);
      issued := issued + [(masterIds[i], slots)];
    }
    outcome := Assigned;
  }

  // ----- Scaling out a freshly created cluster -----

  // Who owns each slot after olds were created as masters.
  function Created(olds: seq<string>): map<int, string>
    requires olds != []
  {
    map x | x in Interval(0, TOTAL_SLOTS - 1) :: olds[HomeOf(x, |olds|)]
  }

  // UpdateSlots: SlotsNum from the ranges; nodes without ranges count 0.
  function Counts(t: Topology): (num: map<string, int>)
    ensures num.Keys == t.nodes.Keys
  {
    map id | id in t.nodes :: Total(t.nodes[id].slots, |t.nodes[id].slots|)
  }

  // The masters are the old ones, with the ranges they were created with, and
  // the new ones, in any order; replicas hold no ranges.
  ghost predicate ScaledOut(t: Topology, cluster: string, olds: seq<string>) {
    && t.Valid()
    && olds != [] && |t.masterIds| <= TOTAL_SLOTS
    && Distinct(t.masterIds) && multiset(t.masterIds) == multiset(olds + t.empties)
    && (forall id :: id in t.masterIds ==> id in t.nodes && t.nodes[id].clusterName == cluster)
    && (forall i :: 0 <= i < |olds| ==> olds[i] in t.nodes && t.nodes[olds[i]].slots == [Share(i, |olds|)])
    && (forall id :: id in t.nodes && id !in olds ==> t.nodes[id].slots == [])
  }

  function Position(ids: seq<string>, id: string): (i: nat)
    requires id in ids
    ensures i < |ids| && ids[i] == id
  {
    if Last(ids) == id then |ids| - 1 else Position(Front(ids), id)
  }

  // Any old masters can be scaled out by any new ones.
  function ScaleOut(cluster: string, olds: seq<string>, news: seq<string>): Topology {
    Topology(map id | id in olds + news ::
               Node(id, if id in olds then [Share(Position(olds, id), |olds|)] else [], cluster),
             olds + news, news, map[])
  }

  lemma ScaleOutIsPossible(cluster: string, olds: seq<string>, news: seq<string>)
    requires Distinct(olds + news) && olds != [] && |olds| + |news| <= TOTAL_SLOTS
    ensures ScaledOut(ScaleOut(cluster, olds, news), cluster, olds)
  {
    var t := ScaleOut(cluster, olds, news);
    forall i | 0 <= i < |olds| ensures olds[i] in t.nodes && t.nodes[olds[i]].slots == [Share(i, |olds|)] {
      assert (olds + news)[i] == olds[i] == (olds + news)[Position(olds, olds[i])];
    }
  }

  lemma {:induction false} FullSetDistinct<T>(r: seq<T>)
    ensures |set x | x in r| <= |r|
    ensures |set x | x in r| == |r| ==> Distinct(r)
  {
    if r != [] {
      FullSetDistinct(Front(r));
      var rest := set x | x in Front(r);
      assert (set x | x in r) == rest + {Last(r)};
      if Last(r) in Front(r) {
        assert rest + {Last(r)} == rest;
      } else {
        assert |rest + {Last(r)}| == |rest| + 1;
      }
    }
  }

  lemma {:induction false} DistinctPermutation<T>(s: seq<T>, r: seq<T>)
    requires Distinct(s) && multiset(s) == multiset(r)
    ensures Distinct(r)
  {
    SetOfDistinct(s);
    assert |s| == |multiset(s)| == |r|;
    forall x ensures x in s <==> x in r {
      assert x in s <==> x in multiset(s);
      assert x in r <==> x in multiset(r);
    }
    assert (set x | x in s) == (set x | x in r);
    FullSetDistinct(r);
  }

  lemma {:induction false} OnceEach<T>(s: seq<T>, x: T)
    requires Distinct(s)
    ensures multiset(s)[x] == if x in s then 1 else 0
  {
    if s != [] {
      assert s == Front(s) + [Last(s)];
      OnceEach(Front(s), x);
      if x == Last(s) { assert x !in Front(s); }
    }
  }

  lemma SameMembers<T>(s: seq<T>, r: seq<T>)
    requires Distinct(s) && Distinct(r) && forall x :: x in s <==> x in r
    ensures |s| == |r| && multiset(s) == multiset(r)
  {
    SetOfDistinct(s);
    SetOfDistinct(r);
    assert (set x | x in s) == (set x | x in r);
    forall x ensures multiset(s)[x] == multiset(r)[x] {
      OnceEach(s, x);
      OnceEach(r, x);
    }
  }

  // The set-roles step scales out: if the cluster reports as masters the old ones and
  // those new nodes that replicate nobody, each once, and the new nodes hold no slots,
  // then the masters are the old ones and the new masters of the step, in any order.
  lemma SetRolesScalesOut(t: Topology, cluster: string, olds: seq<string>, ids: seq<string>, p: nat, shards: nat)
    requires t.Valid() && olds != [] && Distinct(olds) && forall o :: o in olds ==> o !in ids
    requires Distinct(ids) && |ids| == shards * p && p > 0 && |olds| + shards <= TOTAL_SLOTS
    requires t.empties == ShardCutting.Cut(map[], ids, p, |ids|).masters
    requires Distinct(t.masterIds)
    requires forall x :: x in t.masterIds <==>
                           x in olds || (x in ids && RoleLayout.Unled(ShardCutting.NewRoles(ids, p), x))
    requires forall id :: id in olds || id in ids ==> id in t.nodes && t.nodes[id].clusterName == cluster
    requires forall i :: 0 <= i < |olds| ==> olds[i] in t.nodes && t.nodes[olds[i]].slots == [Share(i, |olds|)]
    requires forall id :: id in t.nodes && id !in olds ==> t.nodes[id].slots == []
    ensures ScaledOut(t, cluster, olds)
  {
    ShardCutting.NewMastersAreDistinct(ids, p, shards);
    var all := olds + t.empties;
    forall x ensures x in t.masterIds <==> x in all {
      ShardCutting.NewMastersReplicateNobody(ids, p, shards, x);
    }
    SameMembers(t.masterIds, all);
  }

  lemma MastersSplit(t: Topology, cluster: string, olds: seq<string>)
    requires ScaledOut(t, cluster, olds)
    ensures |t.masterIds| == |olds| + |t.empties|
    ensures Distinct(olds) && Distinct(t.empties)
    ensures forall id :: id in t.masterIds <==> id in olds || id in t.empties
    ensures forall e :: e in t.empties ==> e !in olds
  {
    var all := olds + t.empties;
    assert |t.masterIds| == |multiset(t.masterIds)| == |all|;
    forall id ensures id in t.masterIds <==> id in olds || id in t.empties {
      assert id in t.masterIds <==> id in multiset(t.masterIds);
      assert id in all <==> id in multiset(all);
    }
    DistinctPermutation(t.masterIds, all);
    forall i, j | 0 <= i < |olds| && 0 <= j < |t.empties| ensures olds[i] != t.empties[j] {
      assert all[i] != all[|olds| + j];
    }
    assert forall i :: 0 <= i < |olds| ==> olds[i] == all[i];
    assert forall i :: 0 <= i < |t.empties| ==> t.empties[i] == all[|olds| + i];
  }

  lemma ShareInRange(i: nat, m: nat)
    requires i < m
    ensures 0 <= Share(i, m).start <= Share(i, m).end + 1 <= TOTAL_SLOTS
  {
    var part := TOTAL_SLOTS / m;
    assert part * m <= TOTAL_SLOTS;
    ScaledGap(i, m, part);
    assert 0 <= i * part;
  }

  lemma CreatedOwner(olds: seq<string>, i: nat)
    requires i < |olds| && Distinct(olds)
    ensures OwnedBy(Created(olds), olds[i]) == Interval(Share(i, |olds|).start, Share(i, |olds|).end)
  {
    var share := Share(i, |olds|);
    ShareInRange(i, |olds|);
    forall x ensures x in OwnedBy(Created(olds), olds[i]) <==> share.start <= x <= share.end {
      if 0 <= x < TOTAL_SLOTS {
        SharesTile(x, |olds|, i);
      }
    }
  }

  lemma CreatedCounts(t: Topology, cluster: string, olds: seq<string>, id: string)
    requires ScaledOut(t, cluster, olds) && id in t.nodes && Distinct(olds)
    ensures Counts(t)[id] == |OwnedBy(Created(olds), id)|
    ensures OwnRanges(t.nodes[id].slots, Created(olds), id)
    ensures forall i :: 0 <= i < |olds| && olds[i] == id ==> Counts(t)[id] == Length(Share(i, |olds|))
  {
    var own, rs := Created(olds), t.nodes[id].slots;
    if id in olds {
      var i :| 0 <= i < |olds| && olds[i] == id;
      var share := Share(i, |olds|);
      CreatedOwner(olds, i);
      ShareInRange(i, |olds|);
      IntervalSize(share.start, share.end);
      assert rs == [share] && Total(rs, 0) == 0 && Total(rs, 1) == Length(share);
      assert OwnRange(rs, own, id, 0);
    } else {
      assert OwnedBy(own, id) == {};
    }
  }

  lemma SmallerDivisor(m: nat, n: nat, p: nat, q: nat)
    requires m <= n && q * n < p * m + m
    ensures q <= p
  {
    assert q * n == q * m + q * (n - m);
    if p < q {
      ScaledGap(p, q, m);
      assert false;
    }
  }

  lemma FewerMastersMoreSlots(m: nat, n: nat)
    requires 1 <= m <= n
    ensures TOTAL_SLOTS / n <= TOTAL_SLOTS / m
  {
    var q, p := TOTAL_SLOTS / n, TOTAL_SLOTS / m;
    assert q * n <= TOTAL_SLOTS < p * m + m;
    SmallerDivisor(m, n, p, q);
  }

  lemma OldMasterHasTarget(t: Topology, cluster: string, olds: seq<string>, id: string)
    requires ScaledOut(t, cluster, olds) && id in t.masterIds && id !in t.empties
    ensures id in t.nodes && |t.nodes[id].slots| <= 1 && Counts(t)[id] >= Target(t)
  {
    MastersSplit(t, cluster, olds);
    var i :| 0 <= i < |olds| && olds[i] == id;
    CreatedCounts(t, cluster, olds, id);
    ShareSize(i, |olds|);
    FewerMastersMoreSlots(|olds|, |t.masterIds|);
  }

  lemma CreatedComplete(t: Topology, cluster: string, olds: seq<string>)
    requires ScaledOut(t, cluster, olds)
    ensures Complete(t, cluster, Created(olds), Counts(t))
    ensures forall id :: id in t.masterIds && id !in t.empties ==>
              |t.nodes[id].slots| <= 1 && Counts(t)[id] >= Target(t)
  {
    MastersSplit(t, cluster, olds);
    forall id | id in t.nodes
      ensures Counts(t)[id] == |OwnedBy(Created(olds), id)|
      ensures OwnRanges(t.nodes[id].slots, Created(olds), id)
    {
      CreatedCounts(t, cluster, olds, id);
    }
    forall id | id in t.masterIds && id !in t.empties
      ensures |t.nodes[id].slots| <= 1 && Counts(t)[id] >= Target(t)
    {
      OldMasterHasTarget(t, cluster, olds, id);
    }
  }

  // Creating masters and then planning for new ones reaches the balance: exactly
  // the new masters' targets move, every slot keeps one owner, every new master
  // ends with the target and every old one at most the remainder above it.
  lemma RebalanceAfterCreate(t: Topology, cluster: string, olds: seq<string>)
    requires ScaledOut(t, cluster, olds)
    ensures |t.masterIds| == |olds| + |t.empties|
    ensures Balanced(t, Created(olds), Plan(t, cluster, Counts(t)))
  {
    MastersSplit(t, cluster, olds);
    CreatedComplete(t, cluster, olds);
    OneRangeBalances(t, cluster, Created(olds), Counts(t));
  }

  // ----- Planning a second time -----

  lemma {:induction false} NothingToDrain(t: Topology, v: int, cluster: string, k: nat, num: map<string, int>)
    requires t.Valid() && num.Keys == t.nodes.Keys && k <= |t.masterIds|
    requires forall id :: id in t.masterIds && id in t.nodes ==> num[id] <= v
    ensures DrainMasters(t, v, cluster, k, num) == Progress(num, 0, [])
  {
    if k > 0 { NothingToDrain(t, v, cluster, k - 1, num); }
  }

  lemma SurplusRemains(t: Topology, num: map<string, int>, v: int) returns (j: nat)
    requires forall id :: id in t.masterIds ==> id in num
    requires Sum(num, t.masterIds, |t.masterIds|) > |t.masterIds| * v
    ensures j < |t.masterIds| && num[t.masterIds[j]] > v
  {
    if forall i :: 0 <= i < |t.masterIds| ==> num[t.masterIds[i]] <= v {
      SumAtMost(num, t.masterIds, |t.masterIds|, v);
      assert false;
    }
    j :| 0 <= j < |t.masterIds| && num[t.masterIds[j]] > v;
  }

  lemma {:induction false} DrainRangeGrows(t: Topology, v: int, src: string, lo: int, hi: int, s: Progress)
    requires t.Valid() && s.num.Keys == t.nodes.Keys && src in t.nodes
    ensures var s' := DrainRange(t, v, src, lo, hi, s);
            |s.tasks| <= |s'.tasks| && (|s.tasks| == |s'.tasks| ==> s == s')
    decreases if hi < lo then 0 else hi - lo + 1
  {
    if !(hi < lo || s.emp >= |t.empties| || src == t.empties[s.emp]) {
      var s' := Move(t, v, src, hi, s);
      if s'.num[src] != v { DrainRangeGrows(t, v, src, lo, hi - 1, s'); }
    }
  }

  lemma {:induction false} DrainRangesGrow(t: Topology, v: int, src: string, k: nat, s: Progress)
    requires t.Valid() && s.num.Keys == t.nodes.Keys && src in t.nodes && k <= |t.nodes[src].slots|
    ensures var s' := DrainRanges(t, v, src, k, s);
            |s.tasks| <= |s'.tasks| && (|s.tasks| == |s'.tasks| ==> s == s')
  {
    if k > 0 {
      DrainRangesGrow(t, v, src, k - 1, s);
      var r := t.nodes[src].slots[k - 1];
      DrainRangeGrows(t, v, src, r.start, r.end, DrainRanges(t, v, src, k - 1, s));
    }
  }

  lemma {:induction false} FirstRangeGives(t: Topology, v: int, src: string, k: nat, s: Progress)
    requires t.Valid() && s.num.Keys == t.nodes.Keys && src in t.nodes && 1 <= k <= |t.nodes[src].slots|
    requires s.emp < |t.empties| && src !in t.empties && Length(t.nodes[src].slots[0]) > 0
    ensures |DrainRanges(t, v, src, k, s).tasks| > |s.tasks|
  {
    var r := t.nodes[src].slots[k - 1];
    var mid := DrainRanges(t, v, src, k - 1, s);
    DrainRangeGrows(t, v, src, r.start, r.end, mid);
    if k > 1 {
      FirstRangeGives(t, v, src, k - 1, s);
    } else {
      assert mid == s;
      var s' := Move(t, v, src, r.end, s);
      DrainRangeGrows(t, v, src, r.start, r.end - 1, s');
    }
  }

  // A master with a surplus and a non-empty first range always gives something.
  lemma {:induction false} SurplusIsPlanned(t: Topology, v: int, cluster: string, k: nat, j: nat, num: map<string, int>)
    requires t.Valid() && num.Keys == t.nodes.Keys && k <= |t.masterIds| && t.empties != [] && 0 <= v
    requires j < |t.masterIds|
    requires var id := t.masterIds[j];
             && id in t.nodes && id !in t.empties && t.nodes[id].clusterName == cluster && num[id] > v
             && t.nodes[id].slots != [] && Length(t.nodes[id].slots[0]) > 0
    ensures var s := DrainMasters(t, v, cluster, k, num);
            && (s.tasks == [] ==> s == Progress(num, 0, []))
            && (j < k ==> s.tasks != [])
  {
    if k > 0 {
      SurplusIsPlanned(t, v, cluster, k - 1, j, num);
      var s, id := DrainMasters(t, v, cluster, k - 1, num), t.masterIds[k - 1];
      if !Skips(t, v, cluster, id, s) {
        var rs := t.nodes[id].slots;
        DrainRangesGrow(t, v, id, |rs|, s);
        if k - 1 == j && s.tasks == [] {
          FirstRangeGives(t, v, id, |rs|, s);
        }
      }
    }
  }

  lemma SurplusIsReplanned(t: Topology, cluster: string, olds: seq<string>, num: map<string, int>, v: int)
    requires ScaledOut(t, cluster, olds) && t.empties != [] && num.Keys == t.nodes.Keys
    requires v == Target(t) >= 1 && forall e :: e in t.empties ==> num[e] == v
    requires Sum(num, t.masterIds, |t.masterIds|) > |t.masterIds| * v
    ensures DrainMasters(t, v, cluster, |t.masterIds|, num).tasks != []
  {
    MastersSplit(t, cluster, olds);
    var j := SurplusRemains(t, num, v);
    var i :| 0 <= i < |olds| && olds[i] == t.masterIds[j];
    ShareSize(i, |olds|);
    FewerMastersMoreSlots(|olds|, |t.masterIds|);
    SurplusIsPlanned(t, v, cluster, |t.masterIds|, j, num);
  }

  // Planning again, as a retry of the migration step does, reads the SlotsNum
  // left by the first plan but the ranges of before.
  lemma ReplanIsEmptyWhenEven(t: Topology, cluster: string, olds: seq<string>)
    requires ScaledOut(t, cluster, olds) && t.empties != []
    ensures Plan(t, cluster, Plan(t, cluster, Counts(t)).num).tasks == []
            <==> TOTAL_SLOTS % |t.masterIds| == 0
  {
    var s, n := Plan(t, cluster, Counts(t)), |t.masterIds|;
    RebalanceAfterCreate(t, cluster, olds);
    if TOTAL_SLOTS % n == 0 {
      NothingToDrain(t, Target(t), cluster, n, s.num);
    } else {
      CreatedComplete(t, cluster, olds);
      PlanConserves(t, cluster, Created(olds), Counts(t));
      TargetTimesMasters(n);
      SurplusIsReplanned(t, cluster, olds, s.num, Target(t));
    }
  }
}
