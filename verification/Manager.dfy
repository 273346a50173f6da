// The cluster manager object (cluster/model/manager.go): nodes are shared between
// the node map and the list of empty masters, and planning updates their
// SlotsNum in place.
module ClusterModel {
  import opened Basics
  import opened SlotPlanner

  class ClusterNode {
    const id: string
    const ip: string
    const slots: seq<SlotRange>   // set when the node is first seen, never rewritten
    const clusterName: string
    var slotsNum: int

    constructor (id: string, ip: string, slots: seq<SlotRange>, clusterName: string)
      ensures this.id == id && this.ip == ip && this.slots == slots && this.clusterName == clusterName
      ensures slotsNum == 0
    {
      this.id, this.ip, this.slots, this.clusterName := id, ip, slots, clusterName;
      slotsNum := 0;
    }
  }

  function Ids(ns: seq<ClusterNode>): (ids: seq<string>)
    ensures |ids| == |ns| && forall i :: 0 <= i < |ns| ==> ids[i] == ns[i].id
  {
    seq(|ns|, i requires 0 <= i < |ns| => ns[i].id)
  }

  class ClusterManager {
    var nodes: map<string, ClusterNode>
    var masterIDs: seq<string>
    var empty: seq<ClusterNode>
    const hosts: map<string, Runtime>   // the node manager's view, by host

    // Nodes are filed under their own IDs, and the empty masters are the very
    // objects in the node map.
    ghost predicate Valid()
      reads this
    {
      && (forall id :: id in nodes ==> nodes[id].id == id)
      && (forall i :: 0 <= i < |empty| ==> empty[i].id in nodes && nodes[empty[i].id] == empty[i])
    }

    ghost function Topo(): (t: Topology)
      requires Valid()
      reads this
      ensures t.Valid() && t.nodes.Keys == nodes.Keys
    {
      Topology(map id | id in nodes :: Node(nodes[id].ip, nodes[id].slots, nodes[id].clusterName),
               masterIDs, Ids(empty), hosts)
    }

    ghost function Num(): (num: map<string, int>)
      reads this, nodes.Values
      ensures num.Keys == nodes.Keys
    {
      map id | id in nodes :: nodes[id].slotsNum
    }

    constructor (hosts: map<string, Runtime>)
      ensures Valid() && nodes == map[] && masterIDs == [] && empty == [] && this.hosts == hosts
    {
      this.hosts := hosts;
      nodes, masterIDs, empty := map[], [], [];
    }

    method AddNewMaster(masterID: string)
      requires Valid()
      modifies this`masterIDs, this`empty
      ensures Valid() && masterIDs == old(masterIDs) + [masterID]
      ensures empty == old(empty) + if masterID in nodes then [nodes[masterID]] else []
    {
      masterIDs := masterIDs + [masterID];
      if masterID in nodes {
        empty := empty + [nodes[masterID]];
      }
    }

    function BuildSlotTask(slotNum: int, masterNode: ClusterNode, empIdx: nat): (task: Task)
      requires Valid() && empIdx < |empty| && masterNode.id in nodes && nodes[masterNode.id] == masterNode
      reads this
      ensures task == BuildTask(Topo(), slotNum, masterNode.id, Ids(empty)[empIdx])
    {
      var toIP, toID, fromIP := empty[empIdx].ip, empty[empIdx].id, masterNode.ip;
      Task(slotNum, masterNode.id, fromIP, toID, toIP,
           if toIP in hosts then hosts[toIP].hostPort else 0,
           if fromIP in hosts then hosts[fromIP].hostPort else 0,
           if toIP in hosts then hosts[toIP].conPort else 0)
    }

    // One pass through the body of the innermost loop of collectTasksFromMaster.
    method GiveSlot(masterNode: ClusterNode, newV: int, slotNum: int, empIdx: nat, tasks: seq<Task>)
        returns (empIdx': nat, tasks': seq<Task>)
      requires Valid() && masterNode.id in nodes && nodes[masterNode.id] == masterNode
      requires empIdx < |empty| && masterNode.id != empty[empIdx].id
      modifies nodes.Values`slotsNum
      ensures Progress(Num(), empIdx', tasks')
              == Move(Topo(), newV, masterNode.id, slotNum, Progress(old(Num()), empIdx, tasks))
    {
      tasks' := tasks + [BuildSlotTask(slotNum, masterNode, empIdx)];
      empty[empIdx].slotsNum := empty[empIdx].slotsNum + 1;
      masterNode.slotsNum := masterNode.slotsNum - 1;
      empIdx' := empIdx;
      if empty[empIdx].slotsNum == newV {
        empIdx' := empIdx + 1;
      }
      ghost var dst := empty[empIdx].id;
      ghost var up := old(Num())[dst := old(Num())[dst] + 1];
      assert Num() == up[masterNode.id := up[masterNode.id] - 1];
    }

    method DrainSlotRange(masterNode: ClusterNode, slot: SlotRange, newV: int, empIdx: nat, tasks: seq<Task>)
        returns (empIdx': nat, tasks': seq<Task>)
      requires Valid() && masterNode.id in nodes && nodes[masterNode.id] == masterNode
      modifies nodes.Values`slotsNum
      ensures Progress(Num(), empIdx', tasks')
              == DrainRange(Topo(), newV, masterNode.id, slot.start, slot.end, Progress(old(Num()), empIdx, tasks))
    {
      ghost var t := Topo();
      ghost var goal := DrainRange(t, newV, masterNode.id, slot.start, slot.end, Progress(Num(), empIdx, tasks));
      empIdx', tasks' := empIdx, tasks;
      var slotNum := slot.end;
      while slotNum >= slot.start && empIdx' < |empty|
        invariant DrainRange(t, newV, masterNode.id, slot.start, slotNum, Progress(Num(), empIdx', tasks')) == goal
        decreases slotNum - slot.start + 1
      {
        if masterNode.id == empty[empIdx'].id {
          return;
        }
        DrainRangeNext(t, newV, masterNode.id, slot.start, slotNum, Progress(Num(), empIdx', tasks'));
        empIdx', tasks' := GiveSlot(masterNode, newV, slotNum, empIdx', tasks');
        if masterNode.slotsNum == newV {
          return;
        }
        slotNum := slotNum - 1;
      }
    }

    method CollectTasksFromMaster(masterNode: ClusterNode, newV: int, empIdx: nat, tasks: seq<Task>)
        returns (empIdx': nat, tasks': seq<Task>)
      requires Valid() && masterNode.id in nodes && nodes[masterNode.id] == masterNode
      modifies nodes.Values`slotsNum
      ensures Progress(Num(), empIdx', tasks')
              == DrainRanges(Topo(), newV, masterNode.id, |masterNode.slots|, Progress(old(Num()), empIdx, tasks))
    {
      ghost var t, start := Topo(), Progress(Num(), empIdx, tasks);
      empIdx', tasks' := empIdx, tasks;
      for i := 0 to |masterNode.slots|
        invariant Progress(Num(), empIdx', tasks') == DrainRanges(t, newV, masterNode.id, i, start)
      {
        empIdx', tasks' := DrainSlotRange(masterNode, masterNode.slots[i], newV, empIdx', tasks');
      }
    }

    // The caller has made sure that there is a master.
    method CollectSlotTasks(clusterName: string) returns (tasks: seq<Task>)
      requires Valid() && masterIDs != []
      modifies nodes.Values`slotsNum
      ensures var plan := Plan(Topo(), clusterName, old(Num()));
              tasks == plan.tasks && Num() == plan.num
    {
      ghost var t, num := Topo(), Num();
      var newV := TOTAL_SLOTS / |masterIDs|;
      tasks := [];
      var empIdx := 0;
      for i := 0 to |masterIDs|
        invariant Progress(Num(), empIdx, tasks) == DrainMasters(t, newV, clusterName, i, num)
      {
        var masterID := masterIDs[i];
        if masterID !in nodes || nodes[masterID].slotsNum == 0
           || nodes[masterID].clusterName != clusterName || nodes[masterID].slotsNum <= newV
        {
          continue;
        }
        empIdx, tasks := CollectTasksFromMaster(nodes[masterID], newV, empIdx, tasks);
      }
    }
  }
}
