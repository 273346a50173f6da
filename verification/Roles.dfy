// Who becomes a master and who replicates whom: the bootstrap layout
// (cluster/model/manager.go, assignMastersAndSlaves and SetNodeAsSlave).
module RoleLayout {
  import opened Basics

  datatype Member = Member(id: string, cluster: string)

  ghost predicate DistinctIds(list: seq<Member>) {
    forall i, j :: 0 <= i < j < |list| ==> list[i].id != list[j].id
  }

  // The node list, the number n of masters, w replicas for each, and the cluster.
  datatype Layout = Layout(list: seq<Member>, n: nat, w: nat, cluster: string) {
    ghost predicate Valid() {
      n <= |list| && DistinctIds(list)
    }

    // Node i leads a block.
    predicate Leads(i: int) {
      0 <= i < n && i < |list| && list[i].cluster == cluster
    }
  }

  // What a replication command comes to.  Refused: nothing changed.  Otherwise the
  // master list is read from the cluster anew; Lost: and that failed.
  datatype Answer = Refused | Lost(ids: seq<string>) | Refreshed(ids: seq<string>)

  type Answers = nat -> Answer

  // placed: the nodes for which a replication command was successful; sent: how many
  // commands were sent; stopped: one of them failed.
  datatype Roles = Roles(slavesOf: map<string, seq<string>>, masterIDs: seq<string>, placed: set<string>,
                         sent: nat, stopped: bool)

  function Ours(cluster: string): Member -> bool {
    (m: Member) => m.cluster == cluster
  }

  function Ids(s: seq<Member>): (r: seq<string>)
    ensures |r| == |s| && forall i :: 0 <= i < |s| ==> r[i] == s[i].id
  {
    seq(|s|, i requires 0 <= i < |s| => s[i].id)
  }

  // ----- The loops on values: masters first, then blocks of replicas -----

  function Promote(r: Roles, id: string): Roles {
    r.(slavesOf := r.slavesOf[id := []], masterIDs := r.masterIDs + [id])
  }

  function Attach(answers: Answers, r: Roles, master: string, slave: string): (r': Roles)
    requires master in r.slavesOf
    ensures master in r'.slavesOf
  {
    if r.stopped || (master in r.placed && slave in r.placed) then r
    else
      var slavesOf := r.slavesOf[master := r.slavesOf[master] + [slave]];
      match answers(r.sent)
      case Refused => Roles(slavesOf, r.masterIDs, r.placed, r.sent + 1, true)
      case Lost(ids) => Roles(slavesOf, ids, r.placed, r.sent + 1, true)
      case Refreshed(ids) => Roles(slavesOf, ids, r.placed + {master, slave}, r.sent + 1, false)
  }

  function Enlist(answers: Answers, r: Roles, master: string, block: seq<Member>, cluster: string): (r': Roles)
    requires master in r.slavesOf
    ensures master in r'.slavesOf
  {
    if block == [] then r
    else
      var rest := Enlist(answers, r, master, Front(block), cluster);
      if Last(block).cluster == cluster then Attach(answers, rest, master, Last(block).id) else rest
  }

  // Where block i of width w begins, counted from the first block.
  function Offset(w: nat, i: nat): nat {
    if i == 0 then 0 else Offset(w, i - 1) + w
  }

  // Block i of the replicas, which follow the masters: w nodes, cut at the end of the
  // list.
  function Block(l: Layout, i: nat): seq<Member> {
    var start := l.n + Offset(l.w, i);
    if start >= |l.list| then [] else l.list[start..Min(start + l.w, |l.list|)]
  }

  // The roles after node i led its block.
  function Led(answers: Answers, l: Layout, i: nat, before: Roles): Roles
    requires i < |l.list|
  {
    Enlist(answers, Promote(before, l.list[i].id), l.list[i].id, Block(l, i), l.cluster)
  }

  // The roles after the first count masters.
  function Lay(answers: Answers, l: Layout, count: nat, r: Roles): Roles
    requires count <= |l.list|
  {
    if count == 0 then r
    else
      var before := Lay(answers, l, count - 1, r);
      var node := l.list[count - 1];
      if before.stopped || node.cluster != l.cluster then before
      else Led(answers, l, count - 1, before)
  }

  // Before the first command, with some nodes placed by an earlier layout.
  function Before(masterIDs: seq<string>, placed: set<string>): Roles {
    Roles(map[], masterIDs, placed, 0, false)
  }

  // ----- One block -----

  // The cluster's nodes in block i.
  function Followers(l: Layout, i: nat): seq<string> {
    Ids(Filter(Ours(l.cluster), Block(l, i)))
  }

  // Which of the ids the master gets: a placed one is passed over if the master is
  // placed too, by an earlier layout or by an earlier replica.
  function Kept(master: string, ids: seq<string>, placed: set<string>): seq<string> {
    if ids == [] then []
    else
      var before := Kept(master, Front(ids), placed);
      if Last(ids) in placed && (master in placed || before != []) then before else before + [Last(ids)]
  }

  lemma {:induction false} KeptMember(master: string, ids: seq<string>, placed: set<string>)
    ensures forall x :: x in Kept(master, ids, placed) ==> x in ids
    ensures |Kept(master, ids, placed)| <= |ids|
  {
    if ids != [] {
      KeptMember(master, Front(ids), placed);
      assert ids == Front(ids) + [Last(ids)];
    }
  }

  // Nothing is passed over exactly when no id is placed, except possibly the first
  // one if the master is not.
  ghost predicate NonePlaced(master: string, ids: seq<string>, placed: set<string>) {
    forall j :: 0 <= j < |ids| && ids[j] in placed ==> j == 0 && master !in placed
  }

  lemma {:induction false} KeptAll(master: string, ids: seq<string>, placed: set<string>)
    ensures NonePlaced(master, ids, placed) ==> Kept(master, ids, placed) == ids
    ensures |Kept(master, ids, placed)| == |ids| ==> NonePlaced(master, ids, placed)
  {
    if ids != [] {
      KeptAll(master, Front(ids), placed);
      KeptMember(master, Front(ids), placed);
      assert ids == Front(ids) + [Last(ids)];
    }
  }

  lemma {:induction false} KeptNone(master: string, ids: seq<string>, placed: set<string>)
    requires master in placed && forall x :: x in ids ==> x in placed
    ensures Kept(master, ids, placed) == []
  {
    if ids != [] { KeptNone(master, Front(ids), placed); }
  }

  lemma {:induction false} KeptAgrees(master: string, ids: seq<string>, placed: set<string>, placed': set<string>)
    requires master in placed <==> master in placed'
    requires forall x :: x in ids ==> (x in placed <==> x in placed')
    ensures Kept(master, ids, placed) == Kept(master, ids, placed')
  {
    if ids != [] { KeptAgrees(master, Front(ids), placed, placed'); }
  }

  // The replicas a block brings its master, who is placed then, and the master list:
  // one command is sent for each, and the last answer stands.
  ghost predicate Enlisted(answers: Answers, r: Roles, master: string, kept: seq<string>, r': Roles)
    requires master in r.slavesOf
  {
    && r'.sent == r.sent + |kept|
    && (kept == [] ==> r'.masterIDs == r.masterIDs)
    && (kept != [] ==> answers(r'.sent - 1).Refreshed? && r'.masterIDs == answers(r'.sent - 1).ids)
    && r'.slavesOf == r.slavesOf[master := r.slavesOf[master] + kept]
    && !r'.stopped
    && (forall x :: x in r'.placed <==> x in r.placed || x in kept || (kept != [] && x == master))
  }

  lemma NotYetListed(block: seq<Member>, cluster: string)
    requires block != [] && DistinctIds(block)
    ensures Last(block).id !in Ids(Filter(Ours(cluster), Front(block)))
  {
    var kept := Filter(Ours(cluster), Front(block));
    forall i | 0 <= i < |kept| ensures kept[i].id != Last(block).id {
      FilterMember(Ours(cluster), Front(block), kept[i]);
    }
  }

  lemma KeptNext(master: string, ids: seq<string>, placed: set<string>, slave: string)
    ensures var kept := Kept(master, ids, placed);
            Kept(master, ids + [slave], placed) ==
            if slave in placed && (master in placed || kept != []) then kept else kept + [slave]
  {
    assert Front(ids + [slave]) == ids;
  }

  lemma AttachOne(answers: Answers, r: Roles, master: string, slave: string, kept: seq<string>, mid: Roles, r': Roles)
    requires master in r.slavesOf && slave != master && master in mid.slavesOf
    requires Enlisted(answers, r, master, kept, mid) && slave !in kept
    requires r' == Attach(answers, mid, master, slave) && !r'.stopped
    ensures Enlisted(answers, r, master, if slave in r.placed && (master in r.placed || kept != []) then kept
                                         else kept + [slave], r')
  {
    if slave in r.placed && (master in r.placed || kept != []) {
      assert master in mid.placed && slave in mid.placed;
    } else {
      assert r.slavesOf[master] + kept + [slave] == r.slavesOf[master] + (kept + [slave]);
      assert r'.slavesOf == r.slavesOf[master := r.slavesOf[master] + (kept + [slave])];
    }
  }

  lemma {:induction false} EnlistAll(answers: Answers, r: Roles, master: string, block: seq<Member>, cluster: string)
    requires master in r.slavesOf && !r.stopped && DistinctIds(block)
    requires !Enlist(answers, r, master, block, cluster).stopped
    requires forall b :: b in block ==> b.id != master
    ensures Enlisted(answers, r, master, Kept(master, Ids(Filter(Ours(cluster), block)), r.placed),
                     Enlist(answers, r, master, block, cluster))
  {
    if block == [] {
      assert Ids(Filter(Ours(cluster), block)) == [];
      assert r.slavesOf[master] + [] == r.slavesOf[master];
    } else {
      EnlistAll(answers, r, master, Front(block), cluster);
      var ours := Filter(Ours(cluster), Front(block));
      if Last(block).cluster == cluster {
        assert Ids(Filter(Ours(cluster), block)) == Ids(ours) + [Last(block).id];
        NotYetListed(block, cluster);
        KeptMember(master, Ids(ours), r.placed);
        KeptNext(master, Ids(ours), r.placed, Last(block).id);
        AttachOne(answers, r, master, Last(block).id, Kept(master, Ids(ours), r.placed),
                  Enlist(answers, r, master, Front(block), cluster), Enlist(answers, r, master, block, cluster));
      } else {
        assert Filter(Ours(cluster), block) == ours;
      }
    }
  }

  // ----- All blocks -----

  lemma {:induction false} OffsetGrows(w: nat, i: nat, j: nat)
    requires i < j
    ensures Offset(w, i) + w <= Offset(w, j)
  {
    if i < j - 1 { OffsetGrows(w, i, j - 1); }
  }

  // Where the first count masters and their blocks have not been, nothing changed.
  ghost predicate Untouched(l: Layout, count: nat, placed: set<string>, placed': set<string>) {
    forall k :: 0 <= k < |l.list| && (count <= k < l.n || l.n + Offset(l.w, count) <= k) ==>
      (l.list[k].id in placed' <==> l.list[k].id in placed)
  }

  ghost predicate IsLeader(l: Layout, count: nat, id: string) {
    exists i :: 0 <= i < count && l.Leads(i) && l.list[i].id == id
  }

  // Node i leads what it gets of its block, and all of these are placed.
  ghost predicate LeadsBlock(l: Layout, placed: set<string>, i: nat, r: Roles)
    requires i < |l.list|
  {
    && l.list[i].id in r.slavesOf
    && r.slavesOf[l.list[i].id] == Kept(l.list[i].id, Followers(l, i), placed)
    && (forall x :: x in r.slavesOf[l.list[i].id] ==> x in r.placed && l.list[i].id in r.placed)
  }

  ghost predicate LaidOut(l: Layout, count: nat, placed: set<string>, r: Roles) {
    && !r.stopped && placed <= r.placed
    && (forall i :: 0 <= i < count && l.Leads(i) ==> LeadsBlock(l, placed, i, r))
    && (forall m :: m in r.slavesOf ==> IsLeader(l, count, m))
  }

  lemma BlockDistinct(l: Layout, i: nat)
    requires l.Valid()
    ensures DistinctIds(Block(l, i))
    ensures i < l.n ==> forall b :: b in Block(l, i) ==> b.id != l.list[i].id
  {
    var block := Block(l, i);
    assert forall k :: 0 <= k < |block| ==> block[k] == l.list[l.n + Offset(l.w, i) + k];
  }

  lemma FollowerPosition(l: Layout, i: nat, x: string) returns (k: nat)
    requires x in Followers(l, i)
    ensures l.n + Offset(l.w, i) <= k < l.n + Offset(l.w, i) + l.w && k < |l.list| && l.list[k].id == x
    ensures l.list[k].cluster == l.cluster
  {
    var block, kept := Block(l, i), Filter(Ours(l.cluster), Block(l, i));
    var j :| 0 <= j < |kept| && Ids(kept)[j] == x;
    FilterMember(Ours(l.cluster), block, kept[j]);
    var h :| 0 <= h < |block| && block[h] == kept[j];
    k := l.n + Offset(l.w, i) + h;
    assert l.list[k] == block[h];
  }

  lemma BlockUntouched(l: Layout, i: nat, placed: set<string>, placed': set<string>)
    requires i < l.n && l.Valid() && Untouched(l, i, placed, placed')
    ensures l.list[i].id in placed' <==> l.list[i].id in placed
    ensures forall x :: x in Followers(l, i) ==> (x in placed' <==> x in placed)
  {
    forall x | x in Followers(l, i) ensures x in placed' <==> x in placed {
      var k := FollowerPosition(l, i, x);
    }
  }

  lemma EnlistBlock(answers: Answers, l: Layout, i: nat, placed: set<string>, before: Roles, r: Roles)
    requires i < l.n && l.Valid() && !before.stopped && Untouched(l, i, placed, before.placed)
    requires r == Led(answers, l, i, before) && !r.stopped
    ensures Enlisted(answers, Promote(before, l.list[i].id), l.list[i].id,
                     Kept(l.list[i].id, Followers(l, i), placed), r)
  {
    var id := l.list[i].id;
    BlockDistinct(l, i);
    EnlistAll(answers, Promote(before, id), id, Block(l, i), l.cluster);
    BlockUntouched(l, i, placed, before.placed);
    KeptAgrees(id, Followers(l, i), before.placed, placed);
  }

  lemma StillLeads(l: Layout, placed: set<string>, j: nat, before: Roles, r: Roles, id: string, ids: seq<string>)
    requires j < |l.list| && LeadsBlock(l, placed, j, before) && l.list[j].id != id
    requires r.slavesOf == before.slavesOf[id := ids] && before.placed <= r.placed
    ensures LeadsBlock(l, placed, j, r)
  {
    assert r.slavesOf[l.list[j].id] == before.slavesOf[l.list[j].id];
  }

  lemma OneMoreLeader(l: Layout, i: nat, slavesOf: map<string, seq<string>>, m: string)
    requires i < l.n && l.Leads(i) && (m in slavesOf ==> IsLeader(l, i, m))
    ensures m in slavesOf || m == l.list[i].id ==> IsLeader(l, i + 1, m)
  {
    if m in slavesOf {
      var j :| 0 <= j < i && l.Leads(j) && l.list[j].id == m;
      assert j < i + 1;
    }
  }

  lemma OneMore(l: Layout, i: nat, placed: set<string>, before: Roles, r: Roles, ids: seq<string>)
    requires i < l.n && l.Valid() && l.Leads(i) && LaidOut(l, i, placed, before)
    requires before.placed <= r.placed && !r.stopped
    requires r.slavesOf == before.slavesOf[l.list[i].id := ids] && LeadsBlock(l, placed, i, r)
    ensures LaidOut(l, i + 1, placed, r)
  {
    forall m | m in r.slavesOf ensures IsLeader(l, i + 1, m) { OneMoreLeader(l, i, before.slavesOf, m); }
    forall j | 0 <= j < i + 1 && l.Leads(j) ensures LeadsBlock(l, placed, j, r) {
      if j < i { StillLeads(l, placed, j, before, r, l.list[i].id, ids); }
    }
  }

  lemma BlockTouched(l: Layout, i: nat, placed: set<string>, before: set<string>, placed': set<string>)
    requires i < l.n && l.Valid() && Untouched(l, i, placed, before) && before <= placed'
    requires forall x :: x in placed' ==> x in before || x == l.list[i].id || x in Followers(l, i)
    ensures Untouched(l, i + 1, placed, placed')
  {
    forall k | 0 <= k < |l.list| && (i + 1 <= k < l.n || l.n + Offset(l.w, i + 1) <= k)
      ensures l.list[k].id in placed' <==> l.list[k].id in placed
    {
      if l.list[k].id in Followers(l, i) {
        var j := FollowerPosition(l, i, l.list[k].id);
        assert false;
      }
    }
  }

  lemma LeaderTouches(answers: Answers, l: Layout, i: nat, placed: set<string>, before: Roles, r: Roles)
    requires i < l.n && l.Valid() && !before.stopped && Untouched(l, i, placed, before.placed)
    requires r == Led(answers, l, i, before) && !r.stopped
    ensures Untouched(l, i + 1, placed, r.placed)
  {
    var id := l.list[i].id;
    EnlistBlock(answers, l, i, placed, before, r);
    KeptMember(id, Followers(l, i), placed);
    BlockTouched(l, i, placed, before.placed, r.placed);
  }

  lemma StillUntouched(l: Layout, i: nat, placed: set<string>, placed': set<string>)
    requires Untouched(l, i, placed, placed')
    ensures Untouched(l, i + 1, placed, placed')
  {
    assert Offset(l.w, i) <= Offset(l.w, i + 1);
  }

  // One more node: it leads its block or is passed over.
  lemma LayNext(answers: Answers, l: Layout, count: nat, r: Roles, r': Roles) returns (before: Roles)
    requires 0 < count <= l.n <= |l.list| && r' == Lay(answers, l, count, r) && !r'.stopped
    ensures before == Lay(answers, l, count - 1, r) && !before.stopped
    ensures r' == if l.Leads(count - 1) then Led(answers, l, count - 1, before) else before
  {
    before := Lay(answers, l, count - 1, r);
  }

  lemma TouchNext(answers: Answers, l: Layout, count: nat, placed: set<string>, before: Roles, r: Roles)
    requires 0 < count <= l.n && l.Valid() && !before.stopped && Untouched(l, count - 1, placed, before.placed)
    requires r == (if l.Leads(count - 1) then Led(answers, l, count - 1, before) else before) && !r.stopped
    ensures Untouched(l, count, placed, r.placed)
  {
    if l.Leads(count - 1) {
      LeaderTouches(answers, l, count - 1, placed, before, r);
    } else {
      StillUntouched(l, count - 1, placed, before.placed);
    }
  }

  lemma {:induction false} LayTouches(answers: Answers, l: Layout, count: nat, r: Roles, r': Roles)
    requires l.Valid() && count <= l.n && r' == Lay(answers, l, count, r) && !r'.stopped
    ensures Untouched(l, count, r.placed, r'.placed)
  {
    if count > 0 {
      var before := LayNext(answers, l, count, r, r');
      LayTouches(answers, l, count - 1, r, before);
      TouchNext(answers, l, count, r.placed, before, r');
    }
  }

  lemma NextLeader(answers: Answers, l: Layout, i: nat, placed: set<string>, before: Roles, r: Roles)
    requires i < l.n && l.Valid() && l.Leads(i)
    requires LaidOut(l, i, placed, before) && Untouched(l, i, placed, before.placed)
    requires r == Led(answers, l, i, before) && !r.stopped
    ensures LaidOut(l, i + 1, placed, r)
  {
    var id := l.list[i].id;
    var kept := Kept(id, Followers(l, i), placed);
    EnlistBlock(answers, l, i, placed, before, r);
    assert [] + kept == kept;
    assert r.slavesOf == before.slavesOf[id := kept];
    OneMore(l, i, placed, before, r, kept);
  }

  lemma NoLeader(l: Layout, i: nat, placed: set<string>, before: Roles)
    requires i < l.n && LaidOut(l, i, placed, before) && !l.Leads(i)
    ensures LaidOut(l, i + 1, placed, before)
  {
    forall m | m in before.slavesOf ensures IsLeader(l, i + 1, m) { assert IsLeader(l, i, m); }
    forall j | 0 <= j < i + 1 && l.Leads(j) ensures LeadsBlock(l, placed, j, before) { assert j < i; }
  }

  lemma LaidNext(answers: Answers, l: Layout, count: nat, placed: set<string>, before: Roles, r: Roles)
    requires 0 < count <= l.n && l.Valid()
    requires LaidOut(l, count - 1, placed, before) && Untouched(l, count - 1, placed, before.placed)
    requires r == (if l.Leads(count - 1) then Led(answers, l, count - 1, before) else before) && !r.stopped
    ensures LaidOut(l, count, placed, r)
  {
    if l.Leads(count - 1) {
      NextLeader(answers, l, count - 1, placed, before, r);
    } else {
      NoLeader(l, count - 1, placed, before);
    }
  }

  lemma {:induction false} LayInv(answers: Answers, l: Layout, count: nat, r: Roles, r': Roles)
    requires l.Valid() && count <= l.n && r.slavesOf == map[] && r' == Lay(answers, l, count, r) && !r'.stopped
    ensures LaidOut(l, count, r.placed, r')
  {
    if count > 0 {
      var before := LayNext(answers, l, count, r, r');
      LayInv(answers, l, count - 1, r, before);
      LayTouches(answers, l, count - 1, r, before);
      LaidNext(answers, l, count, r.placed, before, r');
    }
  }

  // ----- What the layout achieves -----

  ghost predicate Replicates(slavesOf: map<string, seq<string>>, slave: string, master: string) {
    master in slavesOf && slave in slavesOf[master]
  }

  // The node is a master and nobody's replica, or the replica of exactly one master.
  ghost predicate OneRole(slavesOf: map<string, seq<string>>, id: string) {
    if id in slavesOf then forall m :: !Replicates(slavesOf, id, m)
    else exists m :: Replicates(slavesOf, id, m) && forall m' :: Replicates(slavesOf, id, m') ==> m' == m
  }

  // Every node of the cluster has one role, and every master its w replicas.
  ghost predicate Staffed(l: Layout, slavesOf: map<string, seq<string>>) {
    && (forall b :: b in l.list && b.cluster == l.cluster ==> OneRole(slavesOf, b.id))
    && (forall m :: m in slavesOf ==> |slavesOf[m]| == l.w)
  }

  predicate InBlock(l: Layout, i: nat, k: int) {
    l.n + Offset(l.w, i) <= k < l.n + Offset(l.w, i) + l.w
  }

  // Node k stands in the block of a leader.
  ghost predicate Follows(l: Layout, k: nat) {
    exists i :: l.Leads(i) && InBlock(l, i, k)
  }

  // Every position of block i holds a node of the cluster.
  ghost predicate Solid(l: Layout, i: nat) {
    forall k :: InBlock(l, i, k) ==> k < |l.list| && l.list[k].cluster == l.cluster
  }

  // The cluster's nodes stand where the layout looks for them.
  ghost predicate Aligned(l: Layout) {
    && (forall k :: l.n <= k < |l.list| && l.list[k].cluster == l.cluster ==> Follows(l, k))
    && (forall i :: l.Leads(i) ==> Solid(l, i))
  }

  // No earlier layout makes this one pass over a node.
  ghost predicate Unplaced(l: Layout, placed: set<string>) {
    forall i :: l.Leads(i) ==> NonePlaced(l.list[i].id, Followers(l, i), placed)
  }

  lemma FollowerExactly(l: Layout, i: nat, k: nat)
    requires l.Valid() && k < |l.list|
    ensures l.list[k].id in Followers(l, i) <==> InBlock(l, i, k) && l.list[k].cluster == l.cluster
  {
    var block, kept := Block(l, i), Filter(Ours(l.cluster), Block(l, i));
    if InBlock(l, i, k) && l.list[k].cluster == l.cluster {
      assert block[k - l.n - Offset(l.w, i)] == l.list[k];
      FilterMember(Ours(l.cluster), block, l.list[k]);
      var j :| 0 <= j < |kept| && kept[j] == l.list[k];
      assert Ids(kept)[j] == l.list[k].id;
    }
    if l.list[k].id in Followers(l, i) {
      var j := FollowerPosition(l, i, l.list[k].id);
    }
  }

  lemma BlockFull(l: Layout, i: nat)
    ensures |Followers(l, i)| <= l.w
    ensures |Followers(l, i)| == l.w <==> Solid(l, i)
  {
    var block, start := Block(l, i), l.n + Offset(l.w, i);
    FilterLength(Ours(l.cluster), block);
    if |Filter(Ours(l.cluster), block)| == l.w {
      forall k | InBlock(l, i, k) ensures k < |l.list| && l.list[k].cluster == l.cluster {
        var x := block[k - start];
        assert l.list[k] == x && x in block && Ours(l.cluster)(x);
      }
    }
    if Solid(l, i) {
      if l.w > 0 { assert InBlock(l, i, start + l.w - 1); }
      forall x | x in block ensures Ours(l.cluster)(x) {
        var j :| 0 <= j < |block| && block[j] == x;
        assert InBlock(l, i, start + j);
      }
    }
  }

  // Every leader gets exactly the cluster's nodes in its block.
  ghost predicate Complete(l: Layout, slavesOf: map<string, seq<string>>) {
    && (forall i :: l.Leads(i) ==> l.list[i].id in slavesOf && slavesOf[l.list[i].id] == Followers(l, i))
    && (forall m :: m in slavesOf ==> IsLeader(l, l.n, m))
  }

  // The masters of node k are the leaders of the block it stands in.
  lemma MastersOf(l: Layout, slavesOf: map<string, seq<string>>, k: nat, m: string)
    requires l.Valid() && Complete(l, slavesOf) && k < |l.list| && l.list[k].cluster == l.cluster
    ensures Replicates(slavesOf, l.list[k].id, m) <==> exists i :: l.Leads(i) && InBlock(l, i, k) && l.list[i].id == m
  {
    if IsLeader(l, l.n, m) {
      var i :| 0 <= i < l.n && l.Leads(i) && l.list[i].id == m;
      FollowerExactly(l, i, k);
      assert forall j :: l.Leads(j) && l.list[j].id == m ==> j == i;
    }
  }

  lemma NodeRole(l: Layout, slavesOf: map<string, seq<string>>, k: nat)
    requires l.Valid() && Complete(l, slavesOf) && k < |l.list| && l.list[k].cluster == l.cluster
    ensures OneRole(slavesOf, l.list[k].id) <==> k < l.n || Follows(l, k)
  {
    var id := l.list[k].id;
    forall m ensures Replicates(slavesOf, id, m) <==> exists i :: l.Leads(i) && InBlock(l, i, k) && l.list[i].id == m {
      MastersOf(l, slavesOf, k, m);
    }
    if k < l.n {
      assert l.Leads(k);
    } else {
      assert !IsLeader(l, l.n, id);
      if Follows(l, k) {
        var i :| l.Leads(i) && InBlock(l, i, k);
        assert Replicates(slavesOf, id, l.list[i].id);
        forall j | l.Leads(j) && InBlock(l, j, k) ensures j == i {
          if i < j { OffsetGrows(l.w, i, j); }
          if j < i { OffsetGrows(l.w, j, i); }
        }
      }
    }
  }

  lemma RolesExactly(l: Layout, slavesOf: map<string, seq<string>>)
    requires l.Valid() && Complete(l, slavesOf)
    ensures (forall b :: b in l.list && b.cluster == l.cluster ==> OneRole(slavesOf, b.id))
            <==> forall k :: l.n <= k < |l.list| && l.list[k].cluster == l.cluster ==> Follows(l, k)
  {
    forall k | 0 <= k < |l.list| && l.list[k].cluster == l.cluster
      ensures OneRole(slavesOf, l.list[k].id) <==> k < l.n || Follows(l, k)
    {
      NodeRole(l, slavesOf, k);
    }
  }

  lemma ReplicasExactly(l: Layout, slavesOf: map<string, seq<string>>)
    requires l.Valid() && Complete(l, slavesOf)
    ensures (forall m :: m in slavesOf ==> |slavesOf[m]| == l.w) <==> forall i :: l.Leads(i) ==> Solid(l, i)
  {
    forall i | l.Leads(i) ensures |slavesOf[l.list[i].id]| == l.w <==> Solid(l, i) { BlockFull(l, i); }
    assert forall m :: m in slavesOf ==> IsLeader(l, l.n, m);
  }

  lemma StaffedExactly(l: Layout, slavesOf: map<string, seq<string>>)
    requires l.Valid() && Complete(l, slavesOf)
    ensures Staffed(l, slavesOf) <==> Aligned(l)
  {
    RolesExactly(l, slavesOf);
    ReplicasExactly(l, slavesOf);
  }

  lemma CompleteWhenUnplaced(l: Layout, placed: set<string>, r: Roles)
    requires l.Valid() && LaidOut(l, l.n, placed, r) && Unplaced(l, placed)
    ensures Complete(l, r.slavesOf)
  {
    forall i | l.Leads(i) ensures l.list[i].id in r.slavesOf && r.slavesOf[l.list[i].id] == Followers(l, i) {
      assert LeadsBlock(l, placed, i, r);
      KeptAll(l.list[i].id, Followers(l, i), placed);
    }
  }

  // If no command fails: every node of the cluster gets exactly one role and every
  // master its w replicas exactly when the positions of the cluster's nodes line up
  // and no earlier layout makes this one pass over a node.
  lemma StaffedWhenAligned(answers: Answers, l: Layout, r: Roles)
    requires l.Valid() && r.slavesOf == map[] && !Lay(answers, l, l.n, r).stopped
    ensures Staffed(l, Lay(answers, l, l.n, r).slavesOf) <==> Aligned(l) && Unplaced(l, r.placed)
  {
    LayInv(answers, l, l.n, r, Lay(answers, l, l.n, r));
    var slavesOf := Lay(answers, l, l.n, r).slavesOf;
    if Unplaced(l, r.placed) {
      CompleteWhenUnplaced(l, r.placed, Lay(answers, l, l.n, r));
      StaffedExactly(l, slavesOf);
    } else {
      var i :| l.Leads(i) && !NonePlaced(l.list[i].id, Followers(l, i), r.placed);
      assert LeadsBlock(l, r.placed, i, Lay(answers, l, l.n, r));
      KeptAll(l.list[i].id, Followers(l, i), r.placed);
      KeptMember(l.list[i].id, Followers(l, i), r.placed);
      BlockFull(l, i);
    }
  }

  lemma {:induction false} OffsetIsProduct(w: nat, i: nat)
    ensures Offset(w, i) == i * w
  {
    if i > 0 { OffsetIsProduct(w, i - 1); }
  }

  lemma {:induction false} FindBlock(start: nat, w: nat, count: nat, k: nat) returns (i: nat)
    requires start <= k < start + Offset(w, count)
    ensures i < count && start + Offset(w, i) <= k < start + Offset(w, i) + w
  {
    i := count - 1;
    if k < start + Offset(w, i) { i := FindBlock(start, w, i, k); }
  }

  lemma Quotient(len: nat, p: nat, n: nat, rest: nat)
    requires len == n * p + rest && p > 0
    ensures n <= len
    ensures n + n * (p - 1) == len - rest
  {
    assert n * (p - 1) == n * p - n;
    assert n * (p - 1) >= 0;
  }

  // The layout of shards of p nodes: as many masters as there are whole shards.
  function LayoutOf(list: seq<Member>, p: nat, cluster: string): (l: Layout)
    requires p > 0
    ensures l.n <= |list|
  {
    Quotient(|list|, p, |list| / p, |list| % p);
    Layout(list, |list| / p, p - 1, cluster)
  }

  ghost predicate OneCluster(list: seq<Member>, cluster: string) {
    forall b :: b in list ==> b.cluster == cluster
  }

  lemma WholeShards(list: seq<Member>, p: nat, cluster: string)
    requires p > 0
    ensures var l := LayoutOf(list, p, cluster);
            && l.n + Offset(l.w, l.n) <= |list|
            && (l.n + Offset(l.w, l.n) == |list| <==> |list| % p == 0)
  {
    var l := LayoutOf(list, p, cluster);
    Quotient(|list|, p, l.n, |list| % p);
    OffsetIsProduct(l.w, l.n);
  }

  lemma AlignedWhenWhole(l: Layout)
    requires l.n + Offset(l.w, l.n) <= |l.list| && OneCluster(l.list, l.cluster)
    ensures Aligned(l) <==> l.n + Offset(l.w, l.n) == |l.list|
  {
    assert forall k :: 0 <= k < |l.list| ==> l.list[k] in l.list;
    forall k | l.n <= k < |l.list| ensures Follows(l, k) <==> k < l.n + Offset(l.w, l.n) {
      if k < l.n + Offset(l.w, l.n) {
        var i := FindBlock(l.n, l.w, l.n, k);
        assert l.Leads(i) && InBlock(l, i, k);
      } else {
        forall i | l.Leads(i) ensures !InBlock(l, i, k) { OffsetGrows(l.w, i, l.n); }
      }
    }
    forall i | l.Leads(i) ensures Solid(l, i) { OffsetGrows(l.w, i, l.n); }
    if l.n + Offset(l.w, l.n) < |l.list| {
      assert !Follows(l, l.n + Offset(l.w, l.n));
    }
  }

  // A first layout of one cluster succeeds exactly when the shards use up all nodes.
  lemma OneRoleEach(answers: Answers, list: seq<Member>, p: nat, cluster: string, r: Roles)
    requires p > 0 && DistinctIds(list) && OneCluster(list, cluster) && r.slavesOf == map[] && r.placed == {}
    requires !Lay(answers, LayoutOf(list, p, cluster), LayoutOf(list, p, cluster).n, r).stopped
    ensures var l := LayoutOf(list, p, cluster);
            Staffed(l, Lay(answers, l, l.n, r).slavesOf) <==> |list| % p == 0
  {
    WholeShards(list, p, cluster);
    AlignedWhenWhole(LayoutOf(list, p, cluster));
    StaffedWhenAligned(answers, LayoutOf(list, p, cluster), r);
  }

  lemma {:induction false} NobodyEnlisted(answers: Answers, r: Roles, master: string, block: seq<Member>,
                                          cluster: string)
    requires master in r.slavesOf && forall b :: b in block ==> b.cluster != cluster
    ensures Enlist(answers, r, master, block, cluster) == r
  {
    if block != [] { NobodyEnlisted(answers, r, master, Front(block), cluster); }
  }

  // Two clusters in one list: whatever the answers, the first cluster gets two masters
  // and no replica.
  lemma MixedListsLoseReplicas(answers: Answers)
    ensures var list := [Member("a", "x"), Member("b", "x"), Member("c", "y"), Member("d", "y")];
            Lay(answers, Layout(list, 2, 1, "x"), 2, Before([], {})).slavesOf == map["a" := [], "b" := []]
  {
    var list := [Member("a", "x"), Member("b", "x"), Member("c", "y"), Member("d", "y")];
    var l := Layout(list, 2, 1, "x");
    assert Offset(1, 0) == 0 && Offset(1, 1) == 1;
    assert Block(l, 0) == list[2..3] && Block(l, 1) == list[3..4];
    NobodyEnlisted(answers, Promote(Before([], {}), "a"), "a", Block(l, 0), "x");
    var r := Lay(answers, l, 1, Before([], {}));
    assert r == Promote(Lay(answers, l, 0, Before([], {})), "a");
    NobodyEnlisted(answers, Promote(r, "b"), "b", Block(l, 1), "x");
    assert Lay(answers, l, 2, Before([], {})) == Promote(r, "b");
  }

  // ----- A second layout with the same manager -----

  // A successful layout places every node of the cluster.
  lemma StaffedPlacesAll(answers: Answers, l: Layout, r: Roles, b: Member)
    requires l.Valid() && r.slavesOf == map[] && !Lay(answers, l, l.n, r).stopped && l.w > 0
    requires Staffed(l, Lay(answers, l, l.n, r).slavesOf) && b in l.list && b.cluster == l.cluster
    ensures b.id in Lay(answers, l, l.n, r).placed
  {
    LayInv(answers, l, l.n, r, Lay(answers, l, l.n, r));
    var r' := Lay(answers, l, l.n, r);
    assert OneRole(r'.slavesOf, b.id);
    var m := b.id;
    if b.id !in r'.slavesOf { m :| Replicates(r'.slavesOf, b.id, m); }
    assert IsLeader(l, l.n, m);
    var i :| 0 <= i < l.n && l.Leads(i) && l.list[i].id == m;
    assert LeadsBlock(l, r.placed, i, r');
    assert r'.slavesOf[m][0] in r'.slavesOf[m];
  }

  // So the next one hands out masters without replicas.
  lemma SecondLayoutIsEmpty(answers: Answers, answers': Answers, l: Layout, r: Roles, m: string)
    requires l.Valid() && r.slavesOf == map[] && !Lay(answers, l, l.n, r).stopped && l.w > 0
    requires Staffed(l, Lay(answers, l, l.n, r).slavesOf)
    requires var first := Lay(answers, l, l.n, r);
             var second := Lay(answers', l, l.n, Before(first.masterIDs, first.placed));
             !second.stopped && m in second.slavesOf
    ensures var first := Lay(answers, l, l.n, r);
            Lay(answers', l, l.n, Before(first.masterIDs, first.placed)).slavesOf[m] == []
  {
    var first := Lay(answers, l, l.n, r);
    var again := Before(first.masterIDs, first.placed);
    LayInv(answers', l, l.n, again, Lay(answers', l, l.n, again));
    assert IsLeader(l, l.n, m);
    var i :| 0 <= i < l.n && l.Leads(i) && l.list[i].id == m;
    assert LeadsBlock(l, first.placed, i, Lay(answers', l, l.n, again));
    StaffedPlacesAll(answers, l, r, l.list[i]);
    forall x | x in Followers(l, i) ensures x in first.placed {
      var k := FollowerPosition(l, i, x);
      StaffedPlacesAll(answers, l, r, l.list[k]);
    }
    KeptNone(m, Followers(l, i), first.placed);
  }

  // ----- The master list afterwards -----

  // What node i gets of its block.
  function Gets(l: Layout, placed: set<string>, i: nat): seq<string>
    requires i < |l.list|
  {
    Kept(l.list[i].id, Followers(l, i), placed)
  }

  // How many commands the first count masters take.
  function Commands(l: Layout, placed: set<string>, count: nat): nat
    requires count <= |l.list|
  {
    if count == 0 then 0
    else Commands(l, placed, count - 1) + if l.Leads(count - 1) then |Gets(l, placed, count - 1)| else 0
  }

  // The masters after the last one that gets a replica.
  function Childless(l: Layout, placed: set<string>, count: nat): seq<string>
    requires count <= |l.list|
  {
    if count == 0 || (l.Leads(count - 1) && Gets(l, placed, count - 1) != []) then []
    else Childless(l, placed, count - 1) + if l.Leads(count - 1) then [l.list[count - 1].id] else []
  }

  // The master list is what the cluster reported after the last command, if any,
  // followed by the masters promoted since.
  ghost predicate Reported(answers: Answers, r: Roles, r': Roles, commands: nat, childless: seq<string>) {
    && r'.sent == r.sent + commands
    && (commands > 0 ==> answers(r'.sent - 1).Refreshed?)
    && r'.masterIDs == (if commands > 0 then answers(r'.sent - 1).ids else r.masterIDs) + childless
  }

  // What one leader does to the master list.
  ghost predicate LeaderReports(answers: Answers, id: string, gets: seq<string>, before: Roles, r: Roles) {
    && r.sent == before.sent + |gets|
    && (gets == [] ==> r.masterIDs == before.masterIDs + [id])
    && (gets != [] ==> answers(r.sent - 1).Refreshed? && r.masterIDs == answers(r.sent - 1).ids)
  }

  lemma LedReports(answers: Answers, l: Layout, i: nat, placed: set<string>, before: Roles, r: Roles)
    requires i < l.n && l.Valid() && !before.stopped && Untouched(l, i, placed, before.placed)
    requires r == Led(answers, l, i, before) && !r.stopped
    ensures LeaderReports(answers, l.list[i].id, Gets(l, placed, i), before, r)
  {
    EnlistBlock(answers, l, i, placed, before, r);
  }

  lemma ChildlessNext(answers: Answers, r: Roles, before: Roles, r': Roles, commands: nat, childless: seq<string>,
                      id: string)
    requires Reported(answers, r, before, commands, childless) && LeaderReports(answers, id, [], before, r')
    ensures Reported(answers, r, r', commands, childless + [id])
  {
    var list := if commands > 0 then answers(before.sent - 1).ids else r.masterIDs;
    assert list + childless + [id] == list + (childless + [id]);
  }

  lemma CommandsNext(answers: Answers, r: Roles, before: Roles, r': Roles, commands: nat, childless: seq<string>,
                     id: string, gets: seq<string>)
    requires Reported(answers, r, before, commands, childless) && LeaderReports(answers, id, gets, before, r')
    requires gets != []
    ensures Reported(answers, r, r', commands + |gets|, [])
  {
    assert r'.masterIDs + [] == r'.masterIDs;
  }

  lemma NextReport(answers: Answers, l: Layout, i: nat, r: Roles, before: Roles, r': Roles, gets: seq<string>)
    requires i < |l.list| && l.Leads(i) && gets == Gets(l, r.placed, i)
    requires Reported(answers, r, before, Commands(l, r.placed, i), Childless(l, r.placed, i))
    requires LeaderReports(answers, l.list[i].id, gets, before, r')
    ensures Reported(answers, r, r', Commands(l, r.placed, i + 1), Childless(l, r.placed, i + 1))
  {
    var commands, childless := Commands(l, r.placed, i), Childless(l, r.placed, i);
    if gets == [] {
      ChildlessNext(answers, r, before, r', commands, childless, l.list[i].id);
    } else {
      CommandsNext(answers, r, before, r', commands, childless, l.list[i].id, gets);
    }
  }

  // Whatever the answers, the last one stands.
  lemma {:induction false} LastAnswerStands(answers: Answers, l: Layout, count: nat, r: Roles, r': Roles)
    requires l.Valid() && count <= l.n && r' == Lay(answers, l, count, r) && !r'.stopped
    ensures Reported(answers, r, r', Commands(l, r.placed, count), Childless(l, r.placed, count))
  {
    if count == 0 {
      assert r.masterIDs + [] == r.masterIDs;
    } else {
      var before := LayNext(answers, l, count, r, r');
      LastAnswerStands(answers, l, count - 1, r, before);
      if l.Leads(count - 1) {
        LayTouches(answers, l, count - 1, r, before);
        LedReports(answers, l, count - 1, r.placed, before, r');
        NextReport(answers, l, count - 1, r, before, r', Gets(l, r.placed, count - 1));
      }
    }
  }

  ghost predicate Unled(slavesOf: map<string, seq<string>>, x: string) {
    forall m :: !Replicates(slavesOf, x, m)
  }

  // Nodes that replicate nobody report as masters.
  ghost predicate Honest(l: Layout, slavesOf: map<string, seq<string>>, ids: seq<string>) {
    forall x :: x in ids <==> x in Ids(l.list) && Unled(slavesOf, x)
  }

  lemma LastMasterGetsReplicas(l: Layout)
    requires 0 < l.n && 0 < l.w && l.n + Offset(l.w, l.n) <= |l.list| && OneCluster(l.list, l.cluster)
    ensures l.Leads(l.n - 1) && Followers(l, l.n - 1) != []
  {
    OffsetGrows(l.w, l.n - 1, l.n);
    assert l.list[l.n - 1] in l.list;
    var block := Block(l, l.n - 1);
    assert block[0] in l.list;
    FilterMember(Ours(l.cluster), block, block[0]);
  }

  lemma FirstLayoutIsComplete(answers: Answers, l: Layout, masterIDs: seq<string>, r: Roles)
    requires l.Valid() && r == Lay(answers, l, l.n, Before(masterIDs, {})) && !r.stopped
    ensures Complete(l, r.slavesOf)
  {
    LayInv(answers, l, l.n, Before(masterIDs, {}), r);
    CompleteWhenUnplaced(l, {}, r);
  }

  lemma MasterListed(l: Layout, slavesOf: map<string, seq<string>>, ids: seq<string>, x: string)
    requires l.Valid() && Complete(l, slavesOf) && Staffed(l, slavesOf) && OneCluster(l.list, l.cluster)
    requires Honest(l, slavesOf, ids)
    ensures x in ids <==> x in slavesOf
  {
    if x in slavesOf {
      assert IsLeader(l, l.n, x);
      var i :| 0 <= i < l.n && l.Leads(i) && l.list[i].id == x;
      assert Ids(l.list)[i] == x;
    }
    if x in Ids(l.list) {
      var i :| 0 <= i < |l.list| && Ids(l.list)[i] == x;
      assert l.list[i] in l.list && OneRole(slavesOf, l.list[i].id);
    }
  }

  lemma LeftoverListed(l: Layout, slavesOf: map<string, seq<string>>, ids: seq<string>)
    requires l.Valid() && Complete(l, slavesOf) && l.n + Offset(l.w, l.n) < |l.list| && OneCluster(l.list, l.cluster)
    requires Honest(l, slavesOf, ids)
    ensures exists x :: x in ids && x !in slavesOf
  {
    var k := l.n + Offset(l.w, l.n);
    var x := l.list[k].id;
    assert l.list[k] in l.list && Ids(l.list)[k] == x;
    forall i | l.Leads(i) ensures !InBlock(l, i, k) { OffsetGrows(l.w, i, l.n); }
    forall m ensures !Replicates(slavesOf, x, m) { MastersOf(l, slavesOf, k, m); }
    assert !IsLeader(l, l.n, x);
  }

  lemma ListedExactly(l: Layout, slavesOf: map<string, seq<string>>, ids: seq<string>)
    requires l.Valid() && Complete(l, slavesOf) && OneCluster(l.list, l.cluster) && Honest(l, slavesOf, ids)
    requires l.n + Offset(l.w, l.n) <= |l.list|
    ensures (forall x :: x in ids <==> x in slavesOf) <==> l.n + Offset(l.w, l.n) == |l.list|
  {
    AlignedWhenWhole(l);
    StaffedExactly(l, slavesOf);
    if l.n + Offset(l.w, l.n) == |l.list| {
      forall x ensures x in ids <==> x in slavesOf { MasterListed(l, slavesOf, ids, x); }
    } else {
      LeftoverListed(l, slavesOf, ids);
    }
  }

  lemma LastMasterReports(answers: Answers, l: Layout, r: Roles, r': Roles)
    requires 0 < l.n <= |l.list| && 0 < l.w && l.n + Offset(l.w, l.n) <= |l.list| && OneCluster(l.list, l.cluster)
    requires r.placed == {} && Reported(answers, r, r', Commands(l, {}, l.n), Childless(l, {}, l.n))
    ensures r'.sent > r.sent && answers(r'.sent - 1).Refreshed? && r'.masterIDs == answers(r'.sent - 1).ids
  {
    LastMasterGetsReplicas(l);
    KeptAll(l.list[l.n - 1].id, Followers(l, l.n - 1), {});
    assert Gets(l, {}, l.n - 1) != [];
    assert Childless(l, {}, l.n) == [];
    assert r'.masterIDs == answers(r'.sent - 1).ids + [];
  }

  // In a first layout of one cluster masterIDs ends as the masters of the layout
  // exactly when the shards use up all nodes; otherwise the nodes left over are in it.
  lemma LeftoversBecomeMasters(answers: Answers, l: Layout, masterIDs: seq<string>, r: Roles)
    requires l.Valid() && OneCluster(l.list, l.cluster)
    requires 0 < l.n && 0 < l.w && l.n + Offset(l.w, l.n) <= |l.list|
    requires r == Lay(answers, l, l.n, Before(masterIDs, {})) && !r.stopped
    requires r.sent > 0 && answers(r.sent - 1).Refreshed? ==> Honest(l, r.slavesOf, answers(r.sent - 1).ids)
    ensures (forall x :: x in r.masterIDs <==> x in r.slavesOf) <==> l.n + Offset(l.w, l.n) == |l.list|
  {
    LastAnswerStands(answers, l, l.n, Before(masterIDs, {}), r);
    LastMasterReports(answers, l, Before(masterIDs, {}), r);
    FirstLayoutIsComplete(answers, l, masterIDs, r);
    ListedExactly(l, r.slavesOf, r.masterIDs);
  }

  // ----- A layout that fails -----

  // The command that ended the layout, if one did, was refused.
  predicate EndsRefused(answers: Answers, r: Roles) {
    r.stopped && r.sent > 0 && answers(r.sent - 1).Refused?
  }

  // The master list before the last command, if that was refused, else after it: what
  // the cluster reported last, or the old list.
  function LastReport(answers: Answers, r: Roles, r': Roles): seq<string> {
    var n := if EndsRefused(answers, r') then r'.sent - 1 else r'.sent;
    if n > r.sent && !answers(n - 1).Refused? then answers(n - 1).ids else r.masterIDs
  }

  // Every command but one that ended the layout was accepted; each accepted one places
  // at most its two nodes, and the one that ended it none; a refused one leaves the
  // master list alone.
  ghost predicate Halts(answers: Answers, r: Roles, r': Roles) {
    && r.sent <= r'.sent && (r'.stopped ==> r.sent < r'.sent)
    && (forall k :: r.sent <= k < r'.sent ==> (answers(k).Refreshed? <==> !(r'.stopped && k == r'.sent - 1)))
    && r.placed <= r'.placed
    && |r'.placed - r.placed| <= 2 * (r'.sent - r.sent - if r'.stopped then 1 else 0)
    && LastReport(answers, r, r') <= r'.masterIDs
  }

  lemma PlacesTwo(placed: set<string>, before: set<string>, a: string, b: string)
    requires placed <= before
    ensures |before + {a, b} - placed| <= |before - placed| + 2
  {
    var more := before + {a, b} - placed;
    assert more <= (before - placed) + {a, b};
    SubsetAtMost(more, (before - placed) + {a, b});
    assert |(before - placed) + {a, b}| <= |before - placed| + |{a, b}|;
  }

  lemma AttachHalts(answers: Answers, r: Roles, mid: Roles, master: string, slave: string)
    requires !r.stopped && Halts(answers, r, mid) && master in mid.slavesOf
    ensures Halts(answers, r, Attach(answers, mid, master, slave))
  {
    if !mid.stopped { PlacesTwo(r.placed, mid.placed, master, slave); }
  }

  lemma {:induction false} EnlistHalts(answers: Answers, r: Roles, mid: Roles, master: string, block: seq<Member>,
                                       cluster: string)
    requires !r.stopped && Halts(answers, r, mid) && master in mid.slavesOf
    ensures Halts(answers, r, Enlist(answers, mid, master, block, cluster))
  {
    if block != [] {
      EnlistHalts(answers, r, mid, master, Front(block), cluster);
      AttachHalts(answers, r, Enlist(answers, mid, master, Front(block), cluster), master, Last(block).id);
    }
  }

  // Whatever the answers, also when one is a failure: the layout stops at the first
  // command that is not accepted, and that command has placed nobody.
  lemma {:induction false} StopsAtFirstFailure(answers: Answers, l: Layout, count: nat, r: Roles)
    requires count <= |l.list| && !r.stopped
    ensures Halts(answers, r, Lay(answers, l, count, r))
  {
    if count > 0 {
      StopsAtFirstFailure(answers, l, count - 1, r);
      var before, id := Lay(answers, l, count - 1, r), l.list[count - 1].id;
      if !before.stopped { EnlistHalts(answers, r, Promote(before, id), id, Block(l, count - 1), l.cluster); }
    }
  }

  // ----- No replica is listed twice -----

  lemma {:induction false} DistinctMembers(keep: Member -> bool, s: seq<Member>)
    requires DistinctIds(s)
    ensures Distinct(Ids(Filter(keep, s)))
  {
    if s != [] {
      var kept := Filter(keep, Front(s));
      DistinctMembers(keep, Front(s));
      forall i | 0 <= i < |kept| ensures Ids(kept)[i] != Last(s).id {
        FilterMember(keep, Front(s), kept[i]);
      }
    }
  }

  lemma {:induction false} KeptDistinct(master: string, ids: seq<string>, placed: set<string>)
    requires Distinct(ids)
    ensures Distinct(Kept(master, ids, placed))
  {
    if ids != [] {
      KeptDistinct(master, Front(ids), placed);
      KeptMember(master, Front(ids), placed);
      assert Last(ids) !in Front(ids);
    }
  }

  // No master lists a replica twice, which is what the check of the reported roles
  // asks for.
  lemma NoReplicaTwice(answers: Answers, l: Layout, r: Roles, m: string)
    requires l.Valid() && r.slavesOf == map[] && !Lay(answers, l, l.n, r).stopped
    requires m in Lay(answers, l, l.n, r).slavesOf
    ensures Distinct(Lay(answers, l, l.n, r).slavesOf[m])
  {
    LayInv(answers, l, l.n, r, Lay(answers, l, l.n, r));
    assert IsLeader(l, l.n, m);
    var i :| 0 <= i < l.n && l.Leads(i) && l.list[i].id == m;
    assert LeadsBlock(l, r.placed, i, Lay(answers, l, l.n, r));
    BlockDistinct(l, i);
    DistinctMembers(Ours(l.cluster), Block(l, i));
    KeptDistinct(m, Followers(l, i), r.placed);
  }

  lemma {:induction false} StaysStopped(answers: Answers, l: Layout, i: nat, n: nat, r: Roles)
    requires i <= n <= |l.list|
    requires i < n ==> Lay(answers, l, i, r).stopped
    ensures Lay(answers, l, n, r) == Lay(answers, l, i, r)
  {
    if i < n { StaysStopped(answers, l, i, n - 1, r); }
  }

  lemma {:induction false} BlockStopped(answers: Answers, r: Roles, master: string, block: seq<Member>, i: nat,
                                        cluster: string)
    requires master in r.slavesOf && i <= |block|
    requires i < |block| ==> Enlist(answers, r, master, block[..i], cluster).stopped
    ensures Enlist(answers, r, master, block, cluster) == Enlist(answers, r, master, block[..i], cluster)
  {
    if i < |block| {
      assert Front(block)[..i] == block[..i];
      BlockStopped(answers, r, master, Front(block), i, cluster);
    } else {
      assert block[..i] == block;
    }
  }

  // ----- The role part of the cluster manager -----

  class RoleManager {
    var masterIDs: seq<string>
    var placed: set<string>

    constructor ()
      ensures masterIDs == [] && placed == {}
    {
      masterIDs, placed := [], {};
    }

    // answers(k) is what the command number k of this call comes to.
    method AssignMastersAndSlaves(list: seq<Member>, nodesPerShard: nat, cluster: string, answers: Answers)
        returns (masterToSlave: map<string, seq<string>>, sent: nat, failed: bool)
      requires nodesPerShard > 0
      modifies this
      ensures var l := LayoutOf(list, nodesPerShard, cluster);
              Roles(masterToSlave, masterIDs, placed, sent, failed) ==
              Lay(answers, l, l.n, Before(old(masterIDs), old(placed)))
    {
      var l := LayoutOf(list, nodesPerShard, cluster);
      ghost var before := Before(masterIDs, placed);
      masterToSlave, sent, failed := map[], 0, false;
      var i := 0;
      while i < l.n && !failed
        invariant i <= l.n
        invariant Roles(masterToSlave, masterIDs, placed, sent, failed) == Lay(answers, l, i, before)
      {
        if list[i].cluster == cluster {
          var masterID := list[i].id;
          masterToSlave := masterToSlave[masterID := []];
          masterIDs := masterIDs + [masterID];
          masterToSlave, sent, failed := AttachBlock(masterToSlave, sent, masterID, l, i, answers);
        }
        i := i + 1;
      }
      StaysStopped(answers, l, i, l.n, before);
    }

    // The inner loop: the replicas of master i.
    method AttachBlock(masterToSlave: map<string, seq<string>>, sent: nat, masterID: string, l: Layout, i: nat,
        answers: Answers) returns (r: map<string, seq<string>>, sent': nat, failed: bool)
      requires masterID in masterToSlave
      modifies this
      ensures var before := Roles(masterToSlave, old(masterIDs), old(placed), sent, false);
              Roles(r, masterIDs, placed, sent', failed) ==
              Enlist(answers, before, masterID, Block(l, i), l.cluster)
    {
      ghost var before, block := Roles(masterToSlave, masterIDs, placed, sent, false), Block(l, i);
      r, sent', failed := masterToSlave, sent, false;
      OffsetIsProduct(l.w, i);
      var start := l.n + i * l.w;
      var j := start;
      while j < start + l.w && j < |l.list| && !failed
        invariant start <= j && j - start <= |block|
        invariant Roles(r, masterIDs, placed, sent', failed) ==
                  Enlist(answers, before, masterID, block[..j - start], l.cluster)
      {
        assert Front(block[..j - start + 1]) == block[..j - start];
        assert block[j - start] == l.list[j];
        if l.list[j].cluster == l.cluster && !(masterID in placed && l.list[j].id in placed) {
          r := r[masterID := r[masterID] + [l.list[j].id]];
          failed := SetNodeAsSlave(answers(sent'));
          sent' := sent' + 1;
          if !failed {
            placed := placed + {masterID, l.list[j].id};
          }
        }
        j := j + 1;
      }
      BlockStopped(answers, before, masterID, block, j - start, l.cluster);
    }

    // The master list is read anew after an accepted command.
    method SetNodeAsSlave(answer: Answer) returns (failed: bool)
      modifies this`masterIDs
      ensures failed == !answer.Refreshed?
      ensures masterIDs == if answer.Refused? then old(masterIDs) else answer.ids
    {
      if answer.Refused? {
        return true;
      }
      masterIDs := answer.ids;
      return answer.Lost?;
    }
  }
}
