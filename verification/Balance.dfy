// How much the planner moves, and what balance it reaches.
module Rebalance {
  import opened Basics
  import opened SlotPlanner

  // ----- What one master gives -----

  // What a master with n slots gives of a range when nothing else stops it: it
  // stops at v only when it comes to v from above.
  function Wanted(len: nat, n: int, v: int): int {
    if n > v then Min(len, n - v) else len
  }

  // What it gives of its first k ranges.  Reaching v ends one range, not the loop
  // over the ranges.
  function Offer(rs: seq<SlotRange>, k: nat, n: int, v: int): int
    requires k <= |rs|
  {
    if k == 0 then 0
    else
      var o := Offer(rs, k - 1, n, v);
      o + Wanted(Length(rs[k - 1]), n - o, v)
  }

  // src gives exactly g slots and nobody but src and the empty masters changes.
  ghost predicate Gives(t: Topology, v: int, src: string, s: Progress, s': Progress, g: int)
    requires t.Valid() && s.num.Keys == t.nodes.Keys == s'.num.Keys && src in t.nodes
  {
    && Filling(t, v, s')
    && |s'.tasks| == |s.tasks| + g
    && s'.num[src] == s.num[src] - g
    && s.tasks <= s'.tasks
    && (forall i :: |s.tasks| <= i < |s'.tasks| ==> s'.tasks[i].fromId == src)
    && (forall id :: id in t.nodes && id != src && id !in t.empties ==> s'.num[id] == s.num[id])
  }

  lemma MoveGives(t: Topology, v: int, src: string, x: int, s: Progress)
    requires t.Valid() && s.num.Keys == t.nodes.Keys && src in t.nodes && 1 <= v
    requires Distinct(t.empties) && src !in t.empties && s.emp < |t.empties| && Filling(t, v, s)
    ensures Gives(t, v, src, s, Move(t, v, src, x, s), 1)
  {
    MoveFills(t, v, src, x, s);
  }

  lemma GivesInTurn(t: Topology, v: int, src: string, s: Progress, mid: Progress, s': Progress, g: int, g': int)
    requires t.Valid() && s.num.Keys == t.nodes.Keys == mid.num.Keys == s'.num.Keys && src in t.nodes
    requires Gives(t, v, src, s, mid, g) && Gives(t, v, src, mid, s', g')
    ensures Gives(t, v, src, s, s', g + g')
  {
    assert forall i :: 0 <= i < |mid.tasks| ==> s'.tasks[i] == mid.tasks[i];
  }

  lemma {:induction false} DrainRangeExact(t: Topology, v: int, src: string, lo: int, hi: int, s: Progress)
    requires t.Valid() && s.num.Keys == t.nodes.Keys && src in t.nodes && 1 <= v
    requires Distinct(t.empties) && src !in t.empties && Filling(t, v, s)
    ensures Gives(t, v, src, s, DrainRange(t, v, src, lo, hi, s),
                  Min(Wanted(Length(SlotRange(lo, hi)), s.num[src], v), Room(t, v, s)))
    decreases if hi < lo then 0 else hi - lo + 1
  {
    RoomLeft(t, v, s);
    if !(hi < lo || s.emp >= |t.empties| || src == t.empties[s.emp]) {
      MoveGives(t, v, src, hi, s);
      var s' := Move(t, v, src, hi, s);
      if s'.num[src] != v {
        DrainRangeExact(t, v, src, lo, hi - 1, s');
        GivesInTurn(t, v, src, s, s', DrainRange(t, v, src, lo, hi, s), 1,
                    Min(Wanted(hi - lo, s.num[src] - 1, v), Room(t, v, s) - 1));
      }
    }
  }

  lemma OfferInTurn(o: int, len: nat, n: int, v: int, room: int)
    requires room >= 0
    ensures Min(o, room) + Min(Wanted(len, n - Min(o, room), v), room - Min(o, room)) ==
            Min(o + Wanted(len, n - o, v), room)
  {
  }

  lemma OneMoreRange(t: Topology, v: int, src: string, r: SlotRange, s: Progress, mid: Progress, o: int)
    requires t.Valid() && s.num.Keys == t.nodes.Keys == mid.num.Keys && src in t.nodes && 1 <= v
    requires Distinct(t.empties) && src !in t.empties && Filling(t, v, s)
    requires Gives(t, v, src, s, mid, Min(o, Room(t, v, s)))
    ensures Gives(t, v, src, s, DrainRange(t, v, src, r.start, r.end, mid),
                  Min(o + Wanted(Length(r), s.num[src] - o, v), Room(t, v, s)))
  {
    var g := Min(o, Room(t, v, s));
    DrainRangeExact(t, v, src, r.start, r.end, mid);
    assert SlotRange(r.start, r.end) == r && Room(t, v, mid) == Room(t, v, s) - g;
    GivesInTurn(t, v, src, s, mid, DrainRange(t, v, src, r.start, r.end, mid), g,
                Min(Wanted(Length(r), s.num[src] - g, v), Room(t, v, s) - g));
    RoomLeft(t, v, s);
    OfferInTurn(o, Length(r), s.num[src], v, Room(t, v, s));
  }

  lemma NoRange(t: Topology, v: int, src: string, s: Progress)
    requires t.Valid() && s.num.Keys == t.nodes.Keys && src in t.nodes && 1 <= v && Filling(t, v, s)
    ensures Gives(t, v, src, s, s, Min(0, Room(t, v, s)))
  {
    RoomLeft(t, v, s);
  }

  lemma {:induction false} DrainRangesGive(t: Topology, v: int, src: string, k: nat, s: Progress, s': Progress)
    requires t.Valid() && s.num.Keys == t.nodes.Keys && src in t.nodes && 1 <= v
    requires Distinct(t.empties) && src !in t.empties && Filling(t, v, s)
    requires k <= |t.nodes[src].slots| && s' == DrainRanges(t, v, src, k, s)
    ensures Gives(t, v, src, s, s', Min(Offer(t.nodes[src].slots, k, s.num[src], v), Room(t, v, s)))
  {
    if k > 0 {
      var r, o := t.nodes[src].slots[k - 1], Offer(t.nodes[src].slots, k - 1, s.num[src], v);
      var mid := DrainRanges(t, v, src, k - 1, s);
      DrainRangesGive(t, v, src, k - 1, s, mid);
      OneMoreRange(t, v, src, r, s, mid, o);
      assert s' == DrainRange(t, v, src, r.start, r.end, mid);
    } else {
      NoRange(t, v, src, s);
    }
  }

  lemma DrainRangesExact(t: Topology, v: int, src: string, k: nat, s: Progress)
    requires t.Valid() && s.num.Keys == t.nodes.Keys && src in t.nodes && 1 <= v
    requires Distinct(t.empties) && src !in t.empties && Filling(t, v, s)
    requires k <= |t.nodes[src].slots|
    ensures Gives(t, v, src, s, DrainRanges(t, v, src, k, s),
                  Min(Offer(t.nodes[src].slots, k, s.num[src], v), Room(t, v, s)))
  {
    DrainRangesGive(t, v, src, k, s, DrainRanges(t, v, src, k, s));
  }

  // ----- Sums over ranges -----

  // calculateSlots on the first k ranges, for ranges that are not reversed.
  function Total(rs: seq<SlotRange>, k: nat): nat
    requires k <= |rs|
  {
    if k == 0 then 0 else Total(rs, k - 1) + Length(rs[k - 1])
  }

  lemma {:induction false} OfferBounds(rs: seq<SlotRange>, k: nat, n: int, v: int)
    requires k <= |rs| && n > v
    ensures Offer(rs, k, n, v) <= Total(rs, k)
    ensures Total(rs, k) <= n - v ==> Offer(rs, k, n, v) == Total(rs, k)
    ensures Total(rs, k) >= n - v ==> Offer(rs, k, n, v) >= n - v
  {
    if k > 0 { OfferBounds(rs, k - 1, n, v); }
  }

  // The length of the last range that is not empty.
  function LastLength(rs: seq<SlotRange>, k: nat): nat
    requires k <= |rs|
  {
    if k == 0 then 0
    else if Length(rs[k - 1]) > 0 then Length(rs[k - 1])
    else LastLength(rs, k - 1)
  }

  lemma {:induction false} OfferIsSurplus(rs: seq<SlotRange>, k: nat, v: int)
    requires k <= |rs| && 0 <= v < Total(rs, k)
    ensures Offer(rs, k, Total(rs, k), v) == Total(rs, k) - v <==> LastLength(rs, k) > v
  {
    if Length(rs[k - 1]) == 0 {
      OfferIsSurplus(rs, k - 1, v);
    } else {
      OfferBounds(rs, k - 1, Total(rs, k), v);
    }
  }

  // A master with a surplus is drained below the target v exactly when its last
  // range has at most v slots and the empty masters have room for more than the
  // surplus.
  lemma KeepsTarget(t: Topology, v: int, src: string, s: Progress)
    requires t.Valid() && s.num.Keys == t.nodes.Keys && src in t.nodes && 1 <= v
    requires Distinct(t.empties) && src !in t.empties && Filling(t, v, s)
    requires v < s.num[src] == Total(t.nodes[src].slots, |t.nodes[src].slots|)
    ensures var rs := t.nodes[src].slots;
            DrainRanges(t, v, src, |rs|, s).num[src] >= v
            <==> LastLength(rs, |rs|) > v || Room(t, v, s) <= s.num[src] - v
  {
    var rs := t.nodes[src].slots;
    DrainRangesExact(t, v, src, |rs|, s);
    OfferIsSurplus(rs, |rs|, v);
    OfferBounds(rs, |rs|, s.num[src], v);
  }

  // ----- All masters -----

  // What a master gives when there is room for all of it.
  function Asked(t: Topology, v: int, cluster: string, id: string, num: map<string, int>): int
    requires num.Keys == t.nodes.Keys
  {
    if id !in t.nodes || id in t.empties || t.nodes[id].clusterName != cluster || num[id] <= v then 0
    else Offer(t.nodes[id].slots, |t.nodes[id].slots|, num[id], v)
  }

  function AskedByFirst(t: Topology, v: int, cluster: string, k: nat, num: map<string, int>): int
    requires num.Keys == t.nodes.Keys && k <= |t.masterIds|
  {
    if k == 0 then 0
    else AskedByFirst(t, v, cluster, k - 1, num) + Asked(t, v, cluster, t.masterIds[k - 1], num)
  }

  // How many slots the new masters take in all.
  function Capacity(t: Topology, v: int): int {
    |t.empties| * v
  }

  // What master i gives: what it would, as far as the earlier ones leave room.
  function Gift(t: Topology, v: int, cluster: string, i: nat, num: map<string, int>): int
    requires num.Keys == t.nodes.Keys && i < |t.masterIds|
  {
    Min(AskedByFirst(t, v, cluster, i + 1, num), Capacity(t, v))
    - Min(AskedByFirst(t, v, cluster, i, num), Capacity(t, v))
  }

  lemma {:induction false} OfferIsNat(rs: seq<SlotRange>, k: nat, n: int, v: int)
    requires k <= |rs|
    ensures Offer(rs, k, n, v) >= 0
  {
    if k > 0 { OfferIsNat(rs, k - 1, n, v); }
  }

  lemma {:induction false} AskedGrows(t: Topology, v: int, cluster: string, i: nat, k: nat, num: map<string, int>)
    requires num.Keys == t.nodes.Keys && i <= k <= |t.masterIds|
    ensures 0 <= AskedByFirst(t, v, cluster, i, num) <= AskedByFirst(t, v, cluster, k, num)
    decreases i + k
  {
    if i < k {
      AskedGrows(t, v, cluster, i, k - 1, num);
      var id := t.masterIds[k - 1];
      if id in t.nodes { OfferIsNat(t.nodes[id].slots, |t.nodes[id].slots|, num[id], v); }
    } else if i > 0 {
      AskedGrows(t, v, cluster, i - 1, i, num);
    }
  }

  // How the plan stands after the first k masters: the empty masters are being
  // filled, they gave nothing, and every other master has what it had less its gift.
  ghost predicate Accounts(t: Topology, v: int, cluster: string, k: nat, num: map<string, int>, s: Progress)
    requires t.Valid() && num.Keys == t.nodes.Keys == s.num.Keys && k <= |t.masterIds|
  {
    && Filling(t, v, s)
    && |s.tasks| == Min(AskedByFirst(t, v, cluster, k, num), Capacity(t, v))
    && (forall i :: 0 <= i < |s.tasks| ==> s.tasks[i].fromId !in t.empties)
    && (forall i :: 0 <= i < |t.masterIds| && t.masterIds[i] in t.nodes && t.masterIds[i] !in t.empties ==>
          s.num[t.masterIds[i]] == num[t.masterIds[i]] - if i < k then Gift(t, v, cluster, i, num) else 0)
  }

  lemma NothingGiven(t: Topology, v: int, cluster: string, num: map<string, int>)
    requires Fresh(t, num) && 1 <= v
    ensures Accounts(t, v, cluster, 0, num, Progress(num, 0, []))
  {
    assert Capacity(t, v) >= 0;
  }

  lemma MasterSkipped(t: Topology, v: int, cluster: string, k: nat, num: map<string, int>, s: Progress)
    requires t.Valid() && num.Keys == t.nodes.Keys == s.num.Keys && 1 <= v && 0 < k <= |t.masterIds|
    requires Accounts(t, v, cluster, k - 1, num, s) && Skips(t, v, cluster, t.masterIds[k - 1], s)
    ensures Accounts(t, v, cluster, k, num, s)
  {
    assert Asked(t, v, cluster, t.masterIds[k - 1], num) == 0;
  }

  lemma EmptiesNeverGive(t: Topology, v: int, s: Progress, id: string)
    requires t.Valid() && s.num.Keys == t.nodes.Keys && 1 <= v && Filling(t, v, s)
    requires id in t.nodes && s.num[id] > v
    ensures id !in t.empties
  {
  }

  lemma GiftGiven(t: Topology, v: int, cluster: string, k: nat, num: map<string, int>, s: Progress, s': Progress)
    requires t.Valid() && num.Keys == t.nodes.Keys == s.num.Keys == s'.num.Keys && 0 < k <= |t.masterIds|
    requires Distinct(t.masterIds) && t.masterIds[k - 1] in t.nodes && t.masterIds[k - 1] !in t.empties
    requires Accounts(t, v, cluster, k - 1, num, s)
    requires Gives(t, v, t.masterIds[k - 1], s, s', Gift(t, v, cluster, k - 1, num))
    ensures Accounts(t, v, cluster, k, num, s')
  {
  }

  lemma MasterGives(t: Topology, v: int, cluster: string, k: nat, num: map<string, int>, s: Progress)
    requires t.Valid() && num.Keys == t.nodes.Keys == s.num.Keys && 1 <= v && 0 < k <= |t.masterIds|
    requires Distinct(t.masterIds) && Distinct(t.empties)
    requires Accounts(t, v, cluster, k - 1, num, s) && !Skips(t, v, cluster, t.masterIds[k - 1], s)
    ensures var id := t.masterIds[k - 1];
            Accounts(t, v, cluster, k, num, DrainRanges(t, v, id, |t.nodes[id].slots|, s))
  {
    var id := t.masterIds[k - 1];
    var rs := t.nodes[id].slots;
    EmptiesNeverGive(t, v, s, id);
    DrainRangesExact(t, v, id, |rs|, s);
    assert s.num[id] == num[id];
    AskedGrows(t, v, cluster, k - 1, k, num);
    var g := Min(Offer(rs, |rs|, num[id], v), Room(t, v, s));
    assert g == Gift(t, v, cluster, k - 1, num);
    GiftGiven(t, v, cluster, k, num, s, DrainRanges(t, v, id, |rs|, s));
  }

  lemma {:induction false} DrainMastersExact(t: Topology, v: int, cluster: string, k: nat, num: map<string, int>)
    requires Fresh(t, num) && 1 <= v && Distinct(t.masterIds) && k <= |t.masterIds|
    ensures Accounts(t, v, cluster, k, num, DrainMasters(t, v, cluster, k, num))
  {
    if k == 0 {
      NothingGiven(t, v, cluster, num);
    } else {
      DrainMastersExact(t, v, cluster, k - 1, num);
      var s := DrainMasters(t, v, cluster, k - 1, num);
      if Skips(t, v, cluster, t.masterIds[k - 1], s) {
        MasterSkipped(t, v, cluster, k, num, s);
      } else {
        MasterGives(t, v, cluster, k, num, s);
      }
    }
  }

  // ----- Sums over masters -----

  function Sum(num: map<string, int>, ids: seq<string>, k: nat): int
    requires k <= |ids| && forall id :: id in ids ==> id in num
  {
    if k == 0 then 0 else Sum(num, ids, k - 1) + num[ids[k - 1]]
  }

  // The slots of the first k masters.
  function SlotsOf(own: map<int, string>, ids: seq<string>, k: nat): set<int>
    requires k <= |ids|
  {
    if k == 0 then {} else SlotsOf(own, ids, k - 1) + OwnedBy(own, ids[k - 1])
  }

  lemma {:induction false} SlotsOfMember(own: map<int, string>, ids: seq<string>, k: nat, x: int)
    requires k <= |ids|
    ensures x in SlotsOf(own, ids, k) <==> x in own && own[x] in ids[..k]
  {
    if k > 0 {
      SlotsOfMember(own, ids, k - 1, x);
      assert ids[..k] == ids[..k - 1] + [ids[k - 1]];
    }
  }

  lemma NotAmongFirst(own: map<int, string>, ids: seq<string>, k: nat)
    requires Distinct(ids) && k < |ids|
    ensures SlotsOf(own, ids, k) !! OwnedBy(own, ids[k])
  {
    forall x | x in SlotsOf(own, ids, k) ensures x !in OwnedBy(own, ids[k]) {
      SlotsOfMember(own, ids, k, x);
    }
  }

  lemma UnionSize(a: set<int>, b: set<int>)
    requires a !! b
    ensures |a + b| == |a| + |b|
  {
  }

  // Distinct masters have as many slots as they count between them.
  lemma {:induction false} SumIsSlots(own: map<int, string>, num: map<string, int>, ids: seq<string>, k: nat)
    requires Counted(own, num) && Distinct(ids) && k <= |ids| && forall id :: id in ids ==> id in num
    ensures Sum(num, ids, k) == |SlotsOf(own, ids, k)|
  {
    if k > 0 {
      SumIsSlots(own, num, ids, k - 1);
      NotAmongFirst(own, ids, k - 1);
      UnionSize(SlotsOf(own, ids, k - 1), OwnedBy(own, ids[k - 1]));
    }
  }

  lemma {:induction false} IntervalSize(lo: int, hi: int)
    requires lo <= hi + 1
    ensures |Interval(lo, hi)| == hi - lo + 1
    decreases hi - lo + 1
  {
    if lo <= hi { IntervalSize(lo, hi - 1); }
  }

  // Masters that own all slots between them count all of them.
  lemma AllSlotsCounted(own: map<int, string>, num: map<string, int>, ids: seq<string>)
    requires Counted(own, num) && Distinct(ids) && forall id :: id in ids ==> id in num
    requires own.Keys == Interval(0, TOTAL_SLOTS - 1) && forall x :: x in own ==> own[x] in ids
    ensures Sum(num, ids, |ids|) == TOTAL_SLOTS
  {
    SumIsSlots(own, num, ids, |ids|);
    forall x ensures x in SlotsOf(own, ids, |ids|) <==> x in Interval(0, TOTAL_SLOTS - 1) {
      SlotsOfMember(own, ids, |ids|, x);
    }
    assert SlotsOf(own, ids, |ids|) == Interval(0, TOTAL_SLOTS - 1);
    IntervalSize(0, TOTAL_SLOTS - 1);
  }

  lemma {:induction false} SumAtMost(num: map<string, int>, ids: seq<string>, k: nat, v: int)
    requires k <= |ids| && forall id :: id in ids ==> id in num
    requires forall i :: 0 <= i < k ==> num[ids[i]] <= v
    ensures Sum(num, ids, k) <= k * v
    ensures (exists i :: 0 <= i < k && num[ids[i]] < v) ==> Sum(num, ids, k) < k * v
  {
    if k > 0 {
      SumAtMost(num, ids, k - 1, v);
      assert k * v == (k - 1) * v + v;
    }
  }

  lemma {:induction false} SumAtLeast(num: map<string, int>, ids: seq<string>, k: nat, v: int, j: nat)
    requires k <= |ids| && forall id :: id in ids ==> id in num
    requires forall i :: 0 <= i < k ==> num[ids[i]] >= v
    ensures Sum(num, ids, k) >= k * v
    ensures j < k ==> num[ids[j]] - v <= Sum(num, ids, k) - k * v
  {
    if k > 0 {
      SumAtLeast(num, ids, k - 1, v, j);
      assert k * v == (k - 1) * v + v;
    }
  }

  lemma WithinRemainder(num: map<string, int>, ids: seq<string>, v: int, rest: int)
    requires forall id :: id in ids ==> id in num
    requires forall i :: 0 <= i < |ids| ==> num[ids[i]] >= v
    requires Sum(num, ids, |ids|) == |ids| * v + rest
    ensures forall id :: id in ids ==> v <= num[id] <= v + rest
  {
    forall id | id in ids ensures v <= num[id] <= v + rest {
      var j :| 0 <= j < |ids| && ids[j] == id;
      SumAtLeast(num, ids, |ids|, v, j);
    }
  }

  // ----- Main results -----

  // SlotsNum says how many slots the ranges hold.
  ghost predicate Tallied(t: Topology, num: map<string, int>)
    requires num.Keys == t.nodes.Keys
  {
    forall id :: id in t.nodes ==> num[id] == Total(t.nodes[id].slots, |t.nodes[id].slots|)
  }

  // A cluster in which the masters own all slots between them, every master's
  // ranges list its slots, and the new masters hold nothing yet.
  ghost predicate Complete(t: Topology, cluster: string, own: map<int, string>, num: map<string, int>) {
    && Fresh(t, num) && Tallied(t, num)
    && Distinct(t.masterIds) && 1 <= |t.masterIds| <= TOTAL_SLOTS
    && (forall id :: id in t.masterIds ==> id in t.nodes && t.nodes[id].clusterName == cluster)
    && (forall e :: e in t.empties ==> e in t.masterIds)
    && own.Keys == Interval(0, TOTAL_SLOTS - 1)
    && (forall x :: x in own ==> own[x] in t.masterIds)
    && RangesOwned(t, own) && Counted(own, num)
  }

  lemma {:induction false} ApplyOwners(own: map<int, string>, tasks: seq<Task>, ids: seq<string>, x: int)
    requires forall i :: 0 <= i < |tasks| ==> tasks[i].toId in ids
    requires x in own && own[x] in ids
    ensures x in Apply(own, tasks) && Apply(own, tasks)[x] in ids
  {
    if tasks != [] {
      ApplyOwners(own, Front(tasks), ids, x);
      assert tasks[|tasks| - 1] == Last(tasks);
    }
  }

  // Planning conserves the total: afterwards the masters still own all the slots.
  lemma PlanConserves(t: Topology, cluster: string, own: map<int, string>, num: map<string, int>)
    requires Complete(t, cluster, own, num)
    ensures var s := Plan(t, cluster, num);
            && Apply(own, s.tasks).Keys == own.Keys
            && (forall x :: x in own ==> Apply(own, s.tasks)[x] in t.masterIds)
            && Counted(Apply(own, s.tasks), s.num)
            && Sum(s.num, t.masterIds, |t.masterIds|) == TOTAL_SLOTS
  {
    var s := Plan(t, cluster, num);
    PlanSound(t, cluster, own, num);
    var after := Apply(own, s.tasks);
    ApplyKeepsSlots(t, own, s, |s.tasks|);
    assert s.tasks[..|s.tasks|] == s.tasks;
    forall x | x in own ensures after[x] in t.masterIds {
      ApplyOwners(own, s.tasks, t.masterIds, x);
    }
    AllSlotsCounted(after, s.num, t.masterIds);
  }

  lemma TargetTimesMasters(n: int)
    requires 1 <= n <= TOTAL_SLOTS
    ensures TOTAL_SLOTS / n >= 1
    ensures n * (TOTAL_SLOTS / n) + TOTAL_SLOTS % n == TOTAL_SLOTS
  {
  }

  // As long as there is room, every master gives all it would, which leaves it
  // without a surplus.
  lemma NoSurplusWithRoom(t: Topology, v: int, cluster: string, num: map<string, int>, s: Progress, i: nat)
    requires t.Valid() && num.Keys == t.nodes.Keys == s.num.Keys && 1 <= v && Tallied(t, num)
    requires Accounts(t, v, cluster, |t.masterIds|, num, s) && s.emp < |t.empties|
    requires i < |t.masterIds| && t.masterIds[i] in t.nodes && t.nodes[t.masterIds[i]].clusterName == cluster
    ensures s.num[t.masterIds[i]] <= v
  {
    var id := t.masterIds[i];
    if id !in t.empties {
      RoomLeft(t, v, s);
      AskedGrows(t, v, cluster, i + 1, |t.masterIds|, num);
      AskedGrows(t, v, cluster, i, i + 1, num);
      assert Gift(t, v, cluster, i, num) == Asked(t, v, cluster, id, num);
      if num[id] > v { OfferBounds(t.nodes[id].slots, |t.nodes[id].slots|, num[id], v); }
    }
  }

  lemma SomeBelowTarget(t: Topology, v: int, s: Progress)
    requires t.Valid() && t.nodes.Keys == s.num.Keys && 1 <= v
    requires s.emp < |t.empties| && s.num[t.empties[s.emp]] < v
    requires forall e :: e in t.empties ==> e in t.masterIds
    requires forall id :: id in t.masterIds ==> id in s.num
    ensures exists i :: 0 <= i < |t.masterIds| && s.num[t.masterIds[i]] < v
  {
    var e := t.empties[s.emp];
    assert e in t.empties;
    assert e in t.masterIds;
    var i :| 0 <= i < |t.masterIds| && t.masterIds[i] == e;
    assert s.num[t.masterIds[i]] < v;
  }

  lemma RoomIsUsedUp(t: Topology, v: int, cluster: string, num: map<string, int>, s: Progress)
    requires t.Valid() && num.Keys == t.nodes.Keys == s.num.Keys && 1 <= v && Tallied(t, num)
    requires Accounts(t, v, cluster, |t.masterIds|, num, s)
    requires forall id :: id in t.masterIds ==> id in t.nodes && t.nodes[id].clusterName == cluster
    requires forall e :: e in t.empties ==> e in t.masterIds
    requires Sum(s.num, t.masterIds, |t.masterIds|) >= |t.masterIds| * v
    ensures s.emp == |t.empties|
  {
    if s.emp < |t.empties| {
      forall i | 0 <= i < |t.masterIds| ensures s.num[t.masterIds[i]] <= v {
        NoSurplusWithRoom(t, v, cluster, num, s, i);
      }
      SomeBelowTarget(t, v, s);
      SumAtMost(s.num, t.masterIds, |t.masterIds|, v);
      assert false;
    }
  }

  // Every new master ends with exactly the target, whatever ranges the others
  // have, and exactly that many slots move.
  lemma PlanFillsEmpties(t: Topology, cluster: string, own: map<int, string>, num: map<string, int>)
    requires Complete(t, cluster, own, num)
    ensures var s := Plan(t, cluster, num);
            && |s.tasks| == |t.empties| * Target(t)
            && (forall e :: e in t.empties ==> s.num[e] == Target(t))
            && (forall i :: 0 <= i < |s.tasks| ==> s.tasks[i].fromId !in t.empties)
  {
    var s, v, n := Plan(t, cluster, num), Target(t), |t.masterIds|;
    TargetTimesMasters(n);
    DrainMastersExact(t, v, cluster, n, num);
    PlanConserves(t, cluster, own, num);
    RoomIsUsedUp(t, v, cluster, num, s);
    forall e | e in t.empties ensures s.num[e] == v {
      var i :| 0 <= i < |t.empties| && t.empties[i] == e;
    }
  }

  // The masters end between the target and the target plus the remainder, the new
  // ones exactly at the target, and every slot has one owner, who counts it.
  ghost predicate Balanced(t: Topology, own: map<int, string>, s: Progress)
    requires t.Valid() && t.masterIds != [] && s.num.Keys == t.nodes.Keys
    requires forall id :: id in t.masterIds ==> id in t.nodes
  {
    var after, v := Apply(own, s.tasks), Target(t);
    && |s.tasks| == |t.empties| * v
    && after.Keys == Interval(0, TOTAL_SLOTS - 1)
    && (forall x :: x in after ==> after[x] in t.masterIds)
    && (forall id :: id in t.masterIds ==> s.num[id] == |OwnedBy(after, id)|)
    && (forall e :: e in t.empties ==> s.num[e] == v)
    && (forall id :: id in t.masterIds ==> v <= s.num[id] <= v + TOTAL_SLOTS % |t.masterIds|)
  }

  // Master i ends at or above the target: it has that much, and either no surplus,
  // or a last range longer than the target, or no more room left to it than its
  // surplus.
  predicate StaysAbove(t: Topology, cluster: string, num: map<string, int>, i: nat)
    requires num.Keys == t.nodes.Keys && i < |t.masterIds| && t.masterIds[i] in t.nodes
  {
    var id, v := t.masterIds[i], Target(t);
    var rs := t.nodes[id].slots;
    && num[id] >= v
    && (|| num[id] == v
        || LastLength(rs, |rs|) > v
        || Capacity(t, v) - AskedByFirst(t, v, cluster, i, num) <= num[id] - v)
  }

  lemma StaysAboveExactly(t: Topology, cluster: string, own: map<int, string>, num: map<string, int>, i: nat)
    requires Complete(t, cluster, own, num) && i < |t.masterIds| && t.masterIds[i] !in t.empties
    ensures Plan(t, cluster, num).num[t.masterIds[i]] >= Target(t) <==> StaysAbove(t, cluster, num, i)
  {
    var id, v := t.masterIds[i], Target(t);
    var rs := t.nodes[id].slots;
    TargetTimesMasters(|t.masterIds|);
    DrainMastersExact(t, v, cluster, |t.masterIds|, num);
    AskedGrows(t, v, cluster, i, i + 1, num);
    if num[id] > v {
      OfferBounds(rs, |rs|, num[id], v);
      OfferIsSurplus(rs, |rs|, v);
    }
  }

  ghost predicate AllAbove(t: Topology, s: Progress)
    requires t.masterIds != [] && forall id :: id in t.masterIds ==> id in s.num
  {
    forall i :: 0 <= i < |t.masterIds| && t.masterIds[i] !in t.empties ==> s.num[t.masterIds[i]] >= Target(t)
  }

  // Every master has the target and together they have all slots.
  lemma AllWithinRemainder(t: Topology, s: Progress)
    requires 1 <= |t.masterIds| <= TOTAL_SLOTS && forall id :: id in t.masterIds ==> id in s.num
    requires AllAbove(t, s) && Sum(s.num, t.masterIds, |t.masterIds|) == TOTAL_SLOTS
    requires forall e :: e in t.empties ==> e in s.num && s.num[e] == Target(t)
    ensures forall id :: id in t.masterIds ==> Target(t) <= s.num[id] <= Target(t) + TOTAL_SLOTS % |t.masterIds|
  {
    var v, n := Target(t), |t.masterIds|;
    TargetTimesMasters(n);
    assert forall i :: 0 <= i < n ==> s.num[t.masterIds[i]] >= v;
    WithinRemainder(s.num, t.masterIds, v, TOTAL_SLOTS % n);
  }

  // Since the slots are conserved and the new masters get the target, it is enough
  // that no old master falls below it.
  lemma AboveBalances(t: Topology, cluster: string, own: map<int, string>, num: map<string, int>, s: Progress)
    requires Complete(t, cluster, own, num) && s == Plan(t, cluster, num) && AllAbove(t, s)
    ensures Balanced(t, own, s)
  {
    PlanFillsEmpties(t, cluster, own, num);
    PlanConserves(t, cluster, own, num);
    AllWithinRemainder(t, s);
  }

  lemma BalancedIsAbove(t: Topology, own: map<int, string>, s: Progress)
    requires t.Valid() && t.masterIds != [] && s.num.Keys == t.nodes.Keys
    requires (forall id :: id in t.masterIds ==> id in t.nodes) && Balanced(t, own, s)
    ensures AllAbove(t, s)
  {
    assert forall i :: 0 <= i < |t.masterIds| ==> t.masterIds[i] in t.masterIds;
  }

  lemma AboveExactly(t: Topology, cluster: string, own: map<int, string>, num: map<string, int>)
    requires Complete(t, cluster, own, num)
    ensures AllAbove(t, Plan(t, cluster, num))
            <==> forall i :: 0 <= i < |t.masterIds| && t.masterIds[i] !in t.empties ==> StaysAbove(t, cluster, num, i)
  {
    forall i | 0 <= i < |t.masterIds| && t.masterIds[i] !in t.empties
      ensures Plan(t, cluster, num).num[t.masterIds[i]] >= Target(t) <==> StaysAbove(t, cluster, num, i)
    {
      StaysAboveExactly(t, cluster, own, num, i);
    }
  }

  // The plan balances the cluster exactly when every old master stays above the
  // target, a condition on the ranges and counters before planning.
  lemma PlanBalances(t: Topology, cluster: string, own: map<int, string>, num: map<string, int>)
    requires Complete(t, cluster, own, num)
    ensures Balanced(t, own, Plan(t, cluster, num))
            <==> forall i :: 0 <= i < |t.masterIds| && t.masterIds[i] !in t.empties ==> StaysAbove(t, cluster, num, i)
  {
    var s := Plan(t, cluster, num);
    if Balanced(t, own, s) { BalancedIsAbove(t, own, s); }
    if AllAbove(t, s) { AboveBalances(t, cluster, own, num, s); }
    AboveExactly(t, cluster, own, num);
  }

  // So it does when no old master has more than one range, as in a cluster that was
  // created and never resharded, or fewer slots than the target.
  lemma OneRangeBalances(t: Topology, cluster: string, own: map<int, string>, num: map<string, int>)
    requires Complete(t, cluster, own, num)
    requires forall id :: id in t.masterIds && id !in t.empties ==>
               |t.nodes[id].slots| <= 1 && num[id] >= Target(t)
    ensures Balanced(t, own, Plan(t, cluster, num))
  {
    forall i | 0 <= i < |t.masterIds| && t.masterIds[i] !in t.empties ensures StaysAbove(t, cluster, num, i) {
      var rs := t.nodes[t.masterIds[i]].slots;
      assert num[t.masterIds[i]] == Total(rs, |rs|);
      if |rs| == 1 { assert Total(rs, 1) == Total(rs, 0) + Length(rs[0]); }
    }
    PlanBalances(t, cluster, own, num);
  }
}
