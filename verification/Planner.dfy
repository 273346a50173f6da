// The rebalance planner (cluster/model/manager.go, collectSlotTasks and
// collectTasksFromMaster), as a function of the topology.  Nodes are named by
// their IDs; num holds the SlotsNum field of every node, shared between the node
// map and the list of empty masters.
module SlotPlanner {
  import opened Basics

  const TOTAL_SLOTS := 16384

  datatype SlotRange = SlotRange(start: int, end: int)

  datatype Node = Node(ip: string, slots: seq<SlotRange>, clusterName: string)

  datatype Runtime = Runtime(hostPort: nat, conPort: nat)

  datatype Topology = Topology(nodes: map<string, Node>,
                               masterIds: seq<string>,
                               empties: seq<string>,
                               hosts: map<string, Runtime>)
  {
    predicate Valid() {
      forall e :: e in empties ==> e in nodes
    }
  }

  datatype Task = Task(slot: int, fromId: string, fromIp: string, toId: string, toIp: string,
                       destHostPort: nat, fromHostPort: nat, containerPort: nat)

  datatype Progress = Progress(num: map<string, int>, emp: nat, tasks: seq<Task>)

  function Length(r: SlotRange): nat {
    if r.end < r.start then 0 else r.end - r.start + 1
  }

  // buildSlotTask: a host that is not known leaves its ports at 0.
  function BuildTask(t: Topology, slot: int, src: string, dst: string): Task
    requires src in t.nodes && dst in t.nodes
  {
    var from, to := t.nodes[src].ip, t.nodes[dst].ip;
    Task(slot, src, from, dst, to,
         if to in t.hosts then t.hosts[to].hostPort else 0,
         if from in t.hosts then t.hosts[from].hostPort else 0,
         if to in t.hosts then t.hosts[to].conPort else 0)
  }

  // One planned move: src gives a slot to the empty master in turn.
  function Move(t: Topology, v: int, src: string, slot: int, s: Progress): (r: Progress)
    requires t.Valid() && s.num.Keys == t.nodes.Keys && src in t.nodes && s.emp < |t.empties|
    ensures r.num.Keys == s.num.Keys
  {
    var dst := t.empties[s.emp];
    var up := s.num[dst := s.num[dst] + 1];
    var num := up[src := up[src] - 1];
    Progress(num, if num[dst] == v then s.emp + 1 else s.emp, s.tasks + [BuildTask(t, slot, src, dst)])
  }

  // The inner loop: slots hi, hi-1, ..., lo, until the empty masters are used up,
  // the source is the empty master in turn, or the source reaches v.
  function DrainRange(t: Topology, v: int, src: string, lo: int, hi: int, s: Progress): (r: Progress)
    requires t.Valid() && s.num.Keys == t.nodes.Keys && src in t.nodes
    ensures r.num.Keys == s.num.Keys
    decreases if hi < lo then 0 else hi - lo + 1
  {
    if hi < lo || s.emp >= |t.empties| || src == t.empties[s.emp] then s
    else
      var s' := Move(t, v, src, hi, s);
      if s'.num[src] == v then s' else DrainRange(t, v, src, lo, hi - 1, s')
  }

  lemma DrainRangeNext(t: Topology, v: int, src: string, lo: int, hi: int, s: Progress)
    requires t.Valid() && s.num.Keys == t.nodes.Keys && src in t.nodes
    requires lo <= hi && s.emp < |t.empties| && src != t.empties[s.emp]
    ensures var s' := Move(t, v, src, hi, s);
            DrainRange(t, v, src, lo, hi, s) == if s'.num[src] == v then s' else DrainRange(t, v, src, lo, hi - 1, s')
  {
  }

  // The loop over the first k ranges of one master.
  function DrainRanges(t: Topology, v: int, src: string, k: nat, s: Progress): (r: Progress)
    requires t.Valid() && s.num.Keys == t.nodes.Keys && src in t.nodes
    requires k <= |t.nodes[src].slots|
    ensures r.num.Keys == s.num.Keys
  {
    if k == 0 then s
    else
      var range := t.nodes[src].slots[k - 1];
      DrainRange(t, v, src, range.start, range.end, DrainRanges(t, v, src, k - 1, s))
  }

  // Masters that are unknown, hold nothing, belong elsewhere or have no surplus.
  predicate Skips(t: Topology, v: int, cluster: string, id: string, s: Progress)
    requires s.num.Keys == t.nodes.Keys
  {
    id !in t.nodes || s.num[id] == 0 || t.nodes[id].clusterName != cluster || s.num[id] <= v
  }

  // The loop over the first k masters.
  function DrainMasters(t: Topology, v: int, cluster: string, k: nat, num: map<string, int>): (r: Progress)
    requires t.Valid() && num.Keys == t.nodes.Keys && k <= |t.masterIds|
    ensures r.num.Keys == num.Keys
  {
    if k == 0 then Progress(num, 0, [])
    else
      var s := DrainMasters(t, v, cluster, k - 1, num);
      var id := t.masterIds[k - 1];
      if Skips(t, v, cluster, id, s) then s
      else DrainRanges(t, v, id, |t.nodes[id].slots|, s)
  }

  function Target(t: Topology): int
    requires t.masterIds != []
  {
    TOTAL_SLOTS / |t.masterIds|
  }

  // collectSlotTasks
  function Plan(t: Topology, cluster: string, num: map<string, int>): (r: Progress)
    requires t.Valid() && num.Keys == t.nodes.Keys && t.masterIds != []
    ensures r.num.Keys == num.Keys
  {
    DrainMasters(t, Target(t), cluster, |t.masterIds|, num)
  }

  // ----- Ownership -----

  // Who owns each slot after the planned moves.
  function Apply(own: map<int, string>, tasks: seq<Task>): (r: map<int, string>)
  {
    if tasks == [] then own
    else Apply(own, Front(tasks))[Last(tasks).slot := Last(tasks).toId]
  }

  function OwnedBy(own: map<int, string>, id: string): set<int> {
    set x | x in own && own[x] == id
  }

  function Planned(tasks: seq<Task>): set<int> {
    if tasks == [] then {} else Planned(Front(tasks)) + {Last(tasks).slot}
  }

  // SlotsNum of every node is the number of slots it owns.
  ghost predicate Counted(own: map<int, string>, num: map<string, int>) {
    forall id :: id in num ==> num[id] == |OwnedBy(own, id)|
  }

  function Interval(lo: int, hi: int): (r: set<int>)
    ensures forall x :: x in r <==> lo <= x <= hi
    decreases if hi < lo then 0 else hi - lo + 1
  {
    if hi < lo then {} else Interval(lo, hi - 1) + {hi}
  }

  // The slots in the first k ranges.
  function Covered(rs: seq<SlotRange>, k: nat): set<int>
    requires k <= |rs|
  {
    if k == 0 then {} else Covered(rs, k - 1) + Interval(rs[k - 1].start, rs[k - 1].end)
  }

  // Range k holds only slots of id, and none that an earlier range holds.
  ghost predicate OwnRange(rs: seq<SlotRange>, own: map<int, string>, id: string, k: nat)
    requires k < |rs|
  {
    var slots := Interval(rs[k].start, rs[k].end);
    slots <= OwnedBy(own, id) && slots !! Covered(rs, k)
  }

  ghost predicate OwnRanges(rs: seq<SlotRange>, own: map<int, string>, id: string) {
    forall k :: 0 <= k < |rs| ==> OwnRange(rs, own, id, k)
  }

  ghost predicate RangesOwned(t: Topology, own: map<int, string>) {
    forall id :: id in t.nodes ==> OwnRanges(t.nodes[id].slots, own, id)
  }

  ghost predicate DistinctSlots(tasks: seq<Task>) {
    forall i, j :: 0 <= i < j < |tasks| ==> tasks[i].slot != tasks[j].slot
  }

  // The task takes a slot from its owner to another, empty master.
  ghost predicate TaskSound(t: Topology, own: map<int, string>, k: Task) {
    && k.slot in own && own[k.slot] == k.fromId && k.toId in t.empties && k.fromId != k.toId
    && k.fromId in t.nodes && k.toId in t.nodes && k == BuildTask(t, k.slot, k.fromId, k.toId)
  }

  // What the plan made so far guarantees.
  ghost predicate Sound(t: Topology, own: map<int, string>, s: Progress) {
    && s.num.Keys == t.nodes.Keys && DistinctSlots(s.tasks)
    && (forall i :: 0 <= i < |s.tasks| ==> TaskSound(t, own, s.tasks[i]))
    && Counted(Apply(own, s.tasks), s.num)
  }

  lemma {:induction false} PlannedMember(tasks: seq<Task>, x: int)
    ensures x in Planned(tasks) <==> exists i :: 0 <= i < |tasks| && tasks[i].slot == x
  {
    if tasks != [] {
      PlannedMember(Front(tasks), x);
      assert tasks[|tasks| - 1] == Last(tasks);
      assert forall i :: 0 <= i < |tasks| - 1 ==> Front(tasks)[i] == tasks[i];
    }
  }

  lemma {:induction false} ApplyUnplanned(own: map<int, string>, tasks: seq<Task>, x: int)
    requires x !in Planned(tasks)
    ensures x in Apply(own, tasks) <==> x in own
    ensures x in own ==> Apply(own, tasks)[x] == own[x]
  {
    if tasks != [] { ApplyUnplanned(own, Front(tasks), x); }
  }

  lemma {:induction false} CountMove(own: map<int, string>, num: map<string, int>, x: int, a: string, b: string)
    requires Counted(own, num) && x in own && own[x] == a && a != b && a in num && b in num
    ensures Counted(own[x := b], num[b := num[b] + 1][a := num[a] - 1])
  {
    var own' := own[x := b];
    assert OwnedBy(own', a) == OwnedBy(own, a) - {x};
    assert OwnedBy(own', b) == OwnedBy(own, b) + {x};
    forall id | id in num && id != a && id != b ensures OwnedBy(own', id) == OwnedBy(own, id) {
    }
  }

  lemma {:induction false} MoveCounts(t: Topology, v: int, src: string, x: int, own: map<int, string>, s: Progress)
    requires t.Valid() && s.num.Keys == t.nodes.Keys && src in t.nodes && Counted(Apply(own, s.tasks), s.num)
    requires s.emp < |t.empties| && src != t.empties[s.emp]
    requires x in own && own[x] == src && x !in Planned(s.tasks)
    ensures var s' := Move(t, v, src, x, s); Counted(Apply(own, s'.tasks), s'.num)
  {
    assert Front(Move(t, v, src, x, s).tasks) == s.tasks;
    ApplyUnplanned(own, s.tasks, x);
    CountMove(Apply(own, s.tasks), s.num, x, src, t.empties[s.emp]);
  }

  lemma {:induction false} MoveSound(t: Topology, v: int, src: string, x: int, own: map<int, string>, s: Progress)
    requires t.Valid() && Sound(t, own, s) && src in t.nodes
    requires s.emp < |t.empties| && src != t.empties[s.emp]
    requires x in own && own[x] == src && x !in Planned(s.tasks)
    ensures Sound(t, own, Move(t, v, src, x, s))
  {
    assert Front(Move(t, v, src, x, s).tasks) == s.tasks;
    MoveCounts(t, v, src, x, own, s);
    forall i | 0 <= i < |s.tasks| ensures s.tasks[i].slot != x {
      PlannedMember(s.tasks, s.tasks[i].slot);
    }
  }

  lemma {:induction false} CoveredOwned(rs: seq<SlotRange>, own: map<int, string>, id: string, k: nat)
    requires OwnRanges(rs, own, id) && k <= |rs|
    ensures Covered(rs, k) <= OwnedBy(own, id)
  {
    if k > 0 {
      CoveredOwned(rs, own, id, k - 1);
      assert OwnRange(rs, own, id, k - 1);
    }
  }

  lemma IntervalFront(lo: int, hi: int)
    requires lo <= hi
    ensures hi in Interval(lo, hi) && Interval(lo, hi - 1) == Interval(lo, hi) - {hi}
  {
  }

  lemma MovePlans(t: Topology, v: int, src: string, x: int, s: Progress)
    requires t.Valid() && s.num.Keys == t.nodes.Keys && src in t.nodes
    requires s.emp < |t.empties| && src != t.empties[s.emp]
    ensures Planned(Move(t, v, src, x, s).tasks) == Planned(s.tasks) + {x}
  {
    assert Front(Move(t, v, src, x, s).tasks) == s.tasks;
  }

  lemma {:induction false} DrainRangePlans(t: Topology, v: int, src: string, lo: int, hi: int, s: Progress)
    requires t.Valid() && s.num.Keys == t.nodes.Keys && src in t.nodes
    ensures Planned(DrainRange(t, v, src, lo, hi, s).tasks) <= Planned(s.tasks) + Interval(lo, hi)
    decreases if hi < lo then 0 else hi - lo + 1
  {
    if !(hi < lo || s.emp >= |t.empties| || src == t.empties[s.emp]) {
      IntervalFront(lo, hi);
      MovePlans(t, v, src, hi, s);
      var mid := Move(t, v, src, hi, s);
      if mid.num[src] != v {
        DrainRangePlans(t, v, src, lo, hi - 1, mid);
      }
    }
  }

  lemma ShorterInterval(lo: int, hi: int, owned: set<int>, planned: set<int>)
    requires lo <= hi && Interval(lo, hi) <= owned && Interval(lo, hi) !! planned
    ensures hi in owned && hi !in planned
    ensures Interval(lo, hi - 1) <= owned && Interval(lo, hi - 1) !! planned + {hi}
  {
    IntervalFront(lo, hi);
  }

  // The slots from lo to hi are the master's and not planned yet.
  ghost predicate Unplanned(own: map<int, string>, src: string, lo: int, hi: int, s: Progress) {
    Interval(lo, hi) <= OwnedBy(own, src) && Interval(lo, hi) !! Planned(s.tasks)
  }

  lemma MoveNext(t: Topology, v: int, src: string, lo: int, hi: int, own: map<int, string>, s: Progress, mid: Progress)
    requires t.Valid() && Sound(t, own, s) && src in t.nodes && Unplanned(own, src, lo, hi, s)
    requires lo <= hi && s.emp < |t.empties| && src != t.empties[s.emp] && mid == Move(t, v, src, hi, s)
    ensures Sound(t, own, mid) && Unplanned(own, src, lo, hi - 1, mid)
  {
    ShorterInterval(lo, hi, OwnedBy(own, src), Planned(s.tasks));
    MoveSound(t, v, src, hi, own, s);
    MovePlans(t, v, src, hi, s);
  }

  // The loop over a range stops at once, or after one move.
  lemma DrainRangeStops(t: Topology, v: int, src: string, lo: int, hi: int, own: map<int, string>, s: Progress,
                        s': Progress)
    requires t.Valid() && Sound(t, own, s) && src in t.nodes && s' == DrainRange(t, v, src, lo, hi, s)
    requires Unplanned(own, src, lo, hi, s)
    requires lo <= hi && s.emp < |t.empties| && src != t.empties[s.emp] ==> Move(t, v, src, hi, s).num[src] == v
    ensures Sound(t, own, s')
  {
    if lo <= hi && s.emp < |t.empties| && src != t.empties[s.emp] {
      MoveNext(t, v, src, lo, hi, own, s, Move(t, v, src, hi, s));
      assert s' == Move(t, v, src, hi, s);
    } else {
      assert s' == s;
    }
  }

  lemma {:induction false} DrainRangeSound(t: Topology, v: int, src: string, lo: int, hi: int,
                                           own: map<int, string>, s: Progress, s': Progress)
    requires t.Valid() && Sound(t, own, s) && src in t.nodes && s' == DrainRange(t, v, src, lo, hi, s)
    requires Unplanned(own, src, lo, hi, s)
    ensures Sound(t, own, s')
    decreases if hi < lo then 0 else hi - lo + 1
  {
    if lo <= hi && s.emp < |t.empties| && src != t.empties[s.emp] && Move(t, v, src, hi, s).num[src] != v {
      var mid := Move(t, v, src, hi, s);
      MoveNext(t, v, src, lo, hi, own, s, mid);
      DrainRangeNext(t, v, src, lo, hi, s);
      DrainRangeSound(t, v, src, lo, hi - 1, own, mid, s');
    } else {
      DrainRangeStops(t, v, src, lo, hi, own, s, s');
    }
  }

  lemma StillDisjoint(before: set<int>, after: set<int>, covered: set<int>, owned: set<int>, next: set<int>)
    requires after <= before + covered && before !! owned && next <= owned && covered !! next
    ensures next !! after
  {
  }

  lemma StillWithin(before: set<int>, mid: set<int>, after: set<int>, covered: set<int>, next: set<int>)
    requires mid <= before + covered && after <= mid + next
    ensures after <= before + (covered + next)
  {
  }

  lemma {:induction false} OneRangeSound(t: Topology, v: int, src: string, k: nat, own: map<int, string>,
                                         s: Progress, mid: Progress, s': Progress)
    requires t.Valid() && Sound(t, own, mid) && src in t.nodes && 0 < k <= |t.nodes[src].slots|
    requires OwnRange(t.nodes[src].slots, own, src, k - 1)
    requires Planned(s.tasks) !! OwnedBy(own, src)
    requires Planned(mid.tasks) <= Planned(s.tasks) + Covered(t.nodes[src].slots, k - 1)
    requires var r := t.nodes[src].slots[k - 1]; s' == DrainRange(t, v, src, r.start, r.end, mid)
    ensures Sound(t, own, s')
  {
    var r := t.nodes[src].slots[k - 1];
    var covered, next := Covered(t.nodes[src].slots, k - 1), Interval(r.start, r.end);
    StillDisjoint(Planned(s.tasks), Planned(mid.tasks), covered, OwnedBy(own, src), next);
    DrainRangeSound(t, v, src, r.start, r.end, own, mid, s');
  }

  lemma {:induction false} DrainRangesPlan(t: Topology, v: int, src: string, k: nat, s: Progress, s': Progress)
    requires t.Valid() && s.num.Keys == t.nodes.Keys && src in t.nodes && k <= |t.nodes[src].slots|
    requires s' == DrainRanges(t, v, src, k, s)
    ensures Planned(s'.tasks) <= Planned(s.tasks) + Covered(t.nodes[src].slots, k)
  {
    if k > 0 {
      var r, mid := t.nodes[src].slots[k - 1], DrainRanges(t, v, src, k - 1, s);
      DrainRangesPlan(t, v, src, k - 1, s, mid);
      DrainRangePlans(t, v, src, r.start, r.end, mid);
      StillWithin(Planned(s.tasks), Planned(mid.tasks), Planned(s'.tasks), Covered(t.nodes[src].slots, k - 1),
                  Interval(r.start, r.end));
    }
  }

  lemma DrainRangesIs(t: Topology, v: int, src: string, k: nat, s: Progress, mid: Progress, s': Progress)
    requires t.Valid() && s.num.Keys == t.nodes.Keys && src in t.nodes && 0 < k <= |t.nodes[src].slots|
    requires mid == DrainRanges(t, v, src, k - 1, s) && s' == DrainRanges(t, v, src, k, s)
    ensures var r := t.nodes[src].slots[k - 1]; s' == DrainRange(t, v, src, r.start, r.end, mid)
  {
  }

  lemma NextRangeSound(t: Topology, v: int, src: string, k: nat, own: map<int, string>, s: Progress, mid: Progress,
                       s': Progress)
    requires t.Valid() && s.num.Keys == t.nodes.Keys && Sound(t, own, mid) && src in t.nodes
    requires 0 < k <= |t.nodes[src].slots| && OwnRanges(t.nodes[src].slots, own, src)
    requires Planned(s.tasks) !! OwnedBy(own, src)
    requires mid == DrainRanges(t, v, src, k - 1, s) && s' == DrainRanges(t, v, src, k, s)
    ensures Sound(t, own, s')
  {
    DrainRangesPlan(t, v, src, k - 1, s, mid);
    DrainRangesIs(t, v, src, k, s, mid, s');
    assert OwnRange(t.nodes[src].slots, own, src, k - 1);
    OneRangeSound(t, v, src, k, own, s, mid, s');
  }

  lemma {:induction false} DrainRangesSound(t: Topology, v: int, src: string, k: nat,
                                            own: map<int, string>, s: Progress, s': Progress)
    requires t.Valid() && Sound(t, own, s) && src in t.nodes && k <= |t.nodes[src].slots|
    requires OwnRanges(t.nodes[src].slots, own, src) && s' == DrainRanges(t, v, src, k, s)
    requires Planned(s.tasks) !! OwnedBy(own, src)
    ensures Sound(t, own, s')
  {
    if k > 0 {
      var mid := DrainRanges(t, v, src, k - 1, s);
      DrainRangesSound(t, v, src, k - 1, own, s, mid);
      NextRangeSound(t, v, src, k, own, s, mid, s');
    }
  }

  // The slots that belong to the first k masters.
  function OwnedByFirst(t: Topology, own: map<int, string>, k: nat): set<int>
    requires k <= |t.masterIds|
  {
    set x | x in own && own[x] in t.masterIds[..k]
  }

  lemma OwnedByNext(t: Topology, own: map<int, string>, k: nat)
    requires 0 < k <= |t.masterIds| && Distinct(t.masterIds)
    ensures OwnedByFirst(t, own, k) == OwnedByFirst(t, own, k - 1) + OwnedBy(own, t.masterIds[k - 1])
    ensures OwnedByFirst(t, own, k - 1) !! OwnedBy(own, t.masterIds[k - 1])
  {
    assert t.masterIds[..k] == t.masterIds[..k - 1] + [t.masterIds[k - 1]];
  }

  // One master's turn takes only slots of its own.
  lemma OneMasterSound(t: Topology, v: int, id: string, own: map<int, string>, before: set<int>, s: Progress)
    requires t.Valid() && Sound(t, own, s) && id in t.nodes && OwnRanges(t.nodes[id].slots, own, id)
    requires Planned(s.tasks) <= before && before !! OwnedBy(own, id)
    ensures var s' := DrainRanges(t, v, id, |t.nodes[id].slots|, s);
            Sound(t, own, s') && Planned(s'.tasks) <= before + OwnedBy(own, id)
  {
    CoveredOwned(t.nodes[id].slots, own, id, |t.nodes[id].slots|);
    var s' := DrainRanges(t, v, id, |t.nodes[id].slots|, s);
    DrainRangesSound(t, v, id, |t.nodes[id].slots|, own, s, s');
    DrainRangesPlan(t, v, id, |t.nodes[id].slots|, s, s');
  }

  lemma NextMasterSound(t: Topology, v: int, cluster: string, k: nat, own: map<int, string>, s: Progress, s': Progress)
    requires t.Valid() && 0 < k <= |t.masterIds| && Distinct(t.masterIds) && RangesOwned(t, own)
    requires Sound(t, own, s) && Planned(s.tasks) <= OwnedByFirst(t, own, k - 1)
    requires var id := t.masterIds[k - 1];
             s' == if Skips(t, v, cluster, id, s) then s else DrainRanges(t, v, id, |t.nodes[id].slots|, s)
    ensures Sound(t, own, s') && Planned(s'.tasks) <= OwnedByFirst(t, own, k)
  {
    var id := t.masterIds[k - 1];
    OwnedByNext(t, own, k);
    if !Skips(t, v, cluster, id, s) { OneMasterSound(t, v, id, own, OwnedByFirst(t, own, k - 1), s); }
  }

  lemma {:induction false} DrainMastersSound(t: Topology, v: int, cluster: string, k: nat,
                                             own: map<int, string>, num: map<string, int>, s: Progress)
    requires t.Valid() && num.Keys == t.nodes.Keys && k <= |t.masterIds| && s == DrainMasters(t, v, cluster, k, num)
    requires Distinct(t.masterIds) && RangesOwned(t, own) && Counted(own, num)
    ensures Sound(t, own, s) && Planned(s.tasks) <= OwnedByFirst(t, own, k)
  {
    if k > 0 {
      var before := DrainMasters(t, v, cluster, k - 1, num);
      DrainMastersSound(t, v, cluster, k - 1, own, num, before);
      NextMasterSound(t, v, cluster, k, own, before, s);
    }
  }

  // Every plan is sound: its slots are pairwise distinct, each belongs to the
  // master it is taken from and goes to another, empty one, and afterwards
  // SlotsNum is the number of slots each node owns.
  lemma {:induction false} PlanSound(t: Topology, cluster: string, own: map<int, string>, num: map<string, int>)
    requires t.Valid() && num.Keys == t.nodes.Keys && t.masterIds != []
    requires Distinct(t.masterIds) && RangesOwned(t, own) && Counted(own, num)
    ensures Sound(t, own, Plan(t, cluster, num))
  {
    DrainMastersSound(t, Target(t), cluster, |t.masterIds|, own, num, Plan(t, cluster, num));
  }

  // ----- The addresses in the tasks -----

  // The task names the addresses of its two nodes and the ports these listen on; the
  // ports of an unknown host are 0.
  ghost predicate Addressed(t: Topology, k: Task) {
    && k.toId in t.nodes && k.toIp == t.nodes[k.toId].ip
    && k.fromId in t.nodes && k.fromIp == t.nodes[k.fromId].ip
    && (k.toIp in t.hosts ==>
          k.destHostPort == t.hosts[k.toIp].hostPort && k.containerPort == t.hosts[k.toIp].conPort)
    && (k.toIp !in t.hosts ==> k.destHostPort == 0 && k.containerPort == 0)
    && (k.fromIp in t.hosts ==> k.fromHostPort == t.hosts[k.fromIp].hostPort)
    && (k.fromIp !in t.hosts ==> k.fromHostPort == 0)
  }

  ghost predicate AllAddressed(t: Topology, tasks: seq<Task>) {
    forall i :: 0 <= i < |tasks| ==> Addressed(t, tasks[i])
  }

  lemma {:induction false} DrainRangeAddresses(t: Topology, v: int, src: string, lo: int, hi: int, s: Progress)
    requires t.Valid() && s.num.Keys == t.nodes.Keys && src in t.nodes && AllAddressed(t, s.tasks)
    ensures AllAddressed(t, DrainRange(t, v, src, lo, hi, s).tasks)
    decreases if hi < lo then 0 else hi - lo + 1
  {
    if lo <= hi && s.emp < |t.empties| && src != t.empties[s.emp] {
      assert t.empties[s.emp] in t.empties;
      assert Addressed(t, BuildTask(t, hi, src, t.empties[s.emp]));
      var mid := Move(t, v, src, hi, s);
      if mid.num[src] != v { DrainRangeAddresses(t, v, src, lo, hi - 1, mid); }
    }
  }

  lemma {:induction false} DrainRangesAddress(t: Topology, v: int, src: string, k: nat, s: Progress)
    requires t.Valid() && s.num.Keys == t.nodes.Keys && src in t.nodes && k <= |t.nodes[src].slots|
    requires AllAddressed(t, s.tasks)
    ensures AllAddressed(t, DrainRanges(t, v, src, k, s).tasks)
  {
    if k > 0 {
      DrainRangesAddress(t, v, src, k - 1, s);
      var r := t.nodes[src].slots[k - 1];
      DrainRangeAddresses(t, v, src, r.start, r.end, DrainRanges(t, v, src, k - 1, s));
    }
  }

  lemma {:induction false} DrainMastersAddress(t: Topology, v: int, cluster: string, k: nat, num: map<string, int>)
    requires t.Valid() && num.Keys == t.nodes.Keys && k <= |t.masterIds|
    ensures AllAddressed(t, DrainMasters(t, v, cluster, k, num).tasks)
  {
    if k > 0 {
      DrainMastersAddress(t, v, cluster, k - 1, num);
      var s, id := DrainMasters(t, v, cluster, k - 1, num), t.masterIds[k - 1];
      if !Skips(t, v, cluster, id, s) { DrainRangesAddress(t, v, id, |t.nodes[id].slots|, s); }
    }
  }

  // No two hosts listen on the same port.
  ghost predicate DistinctPorts(hosts: map<string, Runtime>) {
    forall a, b :: a in hosts && b in hosts && hosts[a].hostPort == hosts[b].hostPort ==> a == b
  }

  // Every task of every plan is addressed to its own nodes: if no two hosts share a
  // port, only the destination listens on its destination port and only the source on
  // its source port.
  lemma PlanAddresses(t: Topology, cluster: string, num: map<string, int>, i: nat)
    requires t.Valid() && num.Keys == t.nodes.Keys && t.masterIds != [] && i < |Plan(t, cluster, num).tasks|
    ensures var k := Plan(t, cluster, num).tasks[i];
            && Addressed(t, k)
            && (DistinctPorts(t.hosts) ==>
                  forall h :: h in t.hosts ==>
                    && (k.toIp in t.hosts && t.hosts[h].hostPort == k.destHostPort ==> h == t.nodes[k.toId].ip)
                    && (k.fromIp in t.hosts && t.hosts[h].hostPort == k.fromHostPort ==> h == t.nodes[k.fromId].ip))
  {
    DrainMastersAddress(t, Target(t), cluster, |t.masterIds|, num);
    assert Addressed(t, Plan(t, cluster, num).tasks[i]);
  }

  lemma {:induction false} ApplyKeepsSlots(t: Topology, own: map<int, string>, s: Progress, n: nat)
    requires Sound(t, own, s) && n <= |s.tasks|
    ensures Apply(own, s.tasks[..n]).Keys == own.Keys
  {
    if n > 0 {
      ApplyKeepsSlots(t, own, s, n - 1);
      assert Front(s.tasks[..n]) == s.tasks[..n - 1];
    }
  }

  // After the first n moves exactly the slots moved so far have left their owners.
  lemma {:induction false} PlannedSlotsLeave(t: Topology, own: map<int, string>, s: Progress, n: nat, x: int)
    requires Sound(t, own, s) && n <= |s.tasks| && x in own
    ensures x in Apply(own, s.tasks[..n])
    ensures Apply(own, s.tasks[..n])[x] != own[x] <==> x in Planned(s.tasks[..n])
  {
    if n > 0 {
      PlannedSlotsLeave(t, own, s, n - 1, x);
      assert Front(s.tasks[..n]) == s.tasks[..n - 1];
      assert Last(s.tasks[..n]) == s.tasks[n - 1];
    }
  }

  // ----- Filling the empty masters -----

  // Before planning: the empty masters are distinct and hold nothing.
  ghost predicate Fresh(t: Topology, num: map<string, int>) {
    && t.Valid() && num.Keys == t.nodes.Keys
    && Distinct(t.empties)
    && forall e :: e in t.empties ==> num[e] == 0
  }

  // During planning the empty masters are filled one after the other, to v each.
  ghost predicate Filling(t: Topology, v: int, s: Progress)
    requires t.Valid() && s.num.Keys == t.nodes.Keys
  {
    && s.emp <= |t.empties|
    && (forall i :: 0 <= i < s.emp ==> s.num[t.empties[i]] == v)
    && (forall i :: s.emp < i < |t.empties| ==> s.num[t.empties[i]] == 0)
    && (s.emp < |t.empties| ==> 0 <= s.num[t.empties[s.emp]] < v)
    && |s.tasks| == s.emp * v + (if s.emp < |t.empties| then s.num[t.empties[s.emp]] else 0)
  }

  // How many slots the empty masters can still take.
  function Room(t: Topology, v: int, s: Progress): int {
    |t.empties| * v - |s.tasks|
  }

  lemma {:induction false} ScaledGap(a: nat, b: nat, v: int)
    requires a < b && 0 <= v
    ensures a * v + v <= b * v
  {
    assert b * v == a * v + v + (b - a - 1) * v;
  }

  lemma {:induction false} RoomLeft(t: Topology, v: int, s: Progress)
    requires t.Valid() && s.num.Keys == t.nodes.Keys && 1 <= v && Filling(t, v, s)
    ensures s.emp < |t.empties| ==> Room(t, v, s) >= 1
    ensures s.emp == |t.empties| ==> Room(t, v, s) == 0
  {
    if s.emp < |t.empties| { ScaledGap(s.emp, |t.empties|, v); }
  }

  lemma {:induction false} MoveFills(t: Topology, v: int, src: string, x: int, s: Progress)
    requires t.Valid() && s.num.Keys == t.nodes.Keys && src in t.nodes && 1 <= v
    requires Distinct(t.empties) && src !in t.empties
    requires s.emp < |t.empties| && Filling(t, v, s)
    ensures var s' := Move(t, v, src, x, s);
            && Filling(t, v, s')
            && |s'.tasks| == |s.tasks| + 1
            && s'.num[src] == s.num[src] - 1
  {
    var s' := Move(t, v, src, x, s);
    assert (s.emp + 1) * v == s.emp * v + v;
    assert forall i :: 0 <= i < |t.empties| && i != s.emp ==> s'.num[t.empties[i]] == s.num[t.empties[i]];
  }
}
