// A cluster that the plan does not balance: a master with two ranges loses all its
// slots (cluster/model/manager.go, collectTasksFromMaster).
module Unbalanced {
  import opened Basics
  import opened SlotPlanner
  import opened Rebalance

  // Masters a and b have half of the slots each, a in two ranges of q slots; c and d
  // are new.
  function TwoRanges(q: nat): Topology {
    Topology(map["a" := Node("a", [SlotRange(0, q - 1), SlotRange(q, 2 * q - 1)], "x"),
                 "b" := Node("b", [SlotRange(2 * q, 4 * q - 1)], "x"),
                 "c" := Node("c", [], "x"),
                 "d" := Node("d", [], "x")],
             ["a", "b", "c", "d"], ["c", "d"], map[])
  }

  function Halves(q: nat): map<string, int> {
    map["a" := 2 * q, "b" := 2 * q, "c" := 0, "d" := 0]
  }

  function Half(q: nat, x: int): string {
    if x < 2 * q then "a" else "b"
  }

  function Owners(q: nat): map<int, string> {
    map x | 0 <= x < 4 * q :: Half(q, x)
  }

  lemma GiftOfA(q: nat)
    requires q > 0
    ensures Gift(TwoRanges(q), q, "x", 0, Halves(q)) == 2 * q
  {
    var t, num := TwoRanges(q), Halves(q);
    var rs := t.nodes["a"].slots;
    assert Offer(rs, 0, 2 * q, q) == 0 && Offer(rs, 1, 2 * q, q) == q && Offer(rs, 2, 2 * q, q) == 2 * q;
    assert t.masterIds[0] == "a" && AskedByFirst(t, q, "x", 0, num) == 0;
  }

  lemma Owned(q: nat)
    ensures OwnedBy(Owners(q), "a") == Interval(0, 2 * q - 1)
    ensures OwnedBy(Owners(q), "b") == Interval(2 * q, 4 * q - 1)
    ensures OwnedBy(Owners(q), "c") == {} && OwnedBy(Owners(q), "d") == {}
  {
  }

  lemma Counters(q: nat)
    ensures Counted(Owners(q), Halves(q))
  {
    Owned(q);
    IntervalSize(0, 2 * q - 1);
    IntervalSize(2 * q, 4 * q - 1);
  }

  lemma Totals(q: nat)
    ensures Tallied(TwoRanges(q), Halves(q))
  {
    var a, b := TwoRanges(q).nodes["a"].slots, TwoRanges(q).nodes["b"].slots;
    assert Total(a, 0) == 0 && Total(a, 1) == q && Total(a, 2) == 2 * q;
    assert Total(b, 0) == 0 && Total(b, 1) == 2 * q;
  }

  lemma RangesOfA(q: nat)
    ensures OwnRanges(TwoRanges(q).nodes["a"].slots, Owners(q), "a")
  {
    var rs := TwoRanges(q).nodes["a"].slots;
    Owned(q);
    assert Covered(rs, 0) == {} && Covered(rs, 1) == Interval(0, q - 1);
    assert OwnRange(rs, Owners(q), "a", 0) && OwnRange(rs, Owners(q), "a", 1);
  }

  lemma RangesOfB(q: nat)
    ensures OwnRanges(TwoRanges(q).nodes["b"].slots, Owners(q), "b")
  {
    var rs := TwoRanges(q).nodes["b"].slots;
    Owned(q);
    assert Covered(rs, 0) == {};
    assert OwnRange(rs, Owners(q), "b", 0);
  }

  lemma AllRanges(q: nat)
    ensures RangesOwned(TwoRanges(q), Owners(q))
  {
    RangesOfA(q);
    RangesOfB(q);
  }

  lemma Members(q: nat)
    ensures var t := TwoRanges(q);
            && Fresh(t, Halves(q)) && Distinct(t.masterIds)
            && (forall id :: id in t.masterIds ==> id in t.nodes && t.nodes[id].clusterName == "x")
            && (forall e :: e in t.empties ==> e in t.masterIds)
  {
  }

  lemma Slots(q: nat)
    requires 4 * q == TOTAL_SLOTS
    ensures Owners(q).Keys == Interval(0, TOTAL_SLOTS - 1)
    ensures forall x :: x in Owners(q) ==> Owners(q)[x] in TwoRanges(q).masterIds
  {
    assert forall x :: Half(q, x) == "a" || Half(q, x) == "b";
    assert TwoRanges(q).masterIds[0] == "a" && TwoRanges(q).masterIds[1] == "b";
  }

  lemma MeetsThePremises(q: nat)
    requires 4 * q == TOTAL_SLOTS
    ensures Complete(TwoRanges(q), "x", Owners(q), Halves(q)) && Target(TwoRanges(q)) == q
  {
    Members(q);
    Slots(q);
    Counters(q);
    Totals(q);
    AllRanges(q);
  }

  // The cluster meets every premise of the planner, the target is 4096, and the plan
  // takes all 8192 slots of a.
  lemma DrainedEmpty(q: nat)
    requires 4 * q == TOTAL_SLOTS
    ensures Complete(TwoRanges(q), "x", Owners(q), Halves(q)) && Target(TwoRanges(q)) == q
    ensures Plan(TwoRanges(q), "x", Halves(q)).num["a"] == 0
    ensures !Balanced(TwoRanges(q), Owners(q), Plan(TwoRanges(q), "x", Halves(q)))
  {
    var t, num := TwoRanges(q), Halves(q);
    MeetsThePremises(q);
    GiftOfA(q);
    DrainMastersExact(t, q, "x", 4, num);
    assert t.masterIds[0] == "a";
    assert "a" in t.masterIds;
  }
}
