// Scaling out: the new nodes are cut into consecutive shards
// (cluster/model/manager.go, assignRolesToNewNodes, and the set-roles step of
// cluster/ops/scale.go).
module ShardCutting {
  import opened Basics
  import opened RoleLayout

  // masters are the new ones; count is the number of nodes in the last shard.
  datatype Cutting = Cutting(slavesOf: map<string, seq<string>>, masters: seq<string>, count: nat) {
    ghost predicate Valid() {
      count > 0 ==> masters != [] && Last(masters) in slavesOf
    }
  }

  // The first node of a shard leads it.
  function Place(c: Cutting, p: nat, id: string): (c': Cutting)
    requires c.Valid()
    ensures c'.Valid()
  {
    var count := if c.count == p then 0 else c.count;
    if count == 0 then Cutting(c.slavesOf[id := []], c.masters + [id], 1)
    else
      var master := Last(c.masters);
      Cutting(c.slavesOf[master := c.slavesOf[master] + [id]], c.masters, count + 1)
  }

  // After the first n new nodes, with the roles there were before.
  function Cut(olds: map<string, seq<string>>, ids: seq<string>, p: nat, n: nat): (c: Cutting)
    requires n <= |ids|
    ensures c.Valid()
  {
    if n == 0 then Cutting(olds, [], 0) else Place(Cut(olds, ids, p, n - 1), p, ids[n - 1])
  }

  // The roles of the new nodes alone.
  function NewRoles(ids: seq<string>, p: nat): map<string, seq<string>> {
    Cut(map[], ids, p, |ids|).slavesOf
  }

  // The loop; masterToSlave holds the roles there were before.
  method CutIntoShards(masterToSlave: map<string, seq<string>>, ids: seq<string>, nodesPerShard: nat)
      returns (r: map<string, seq<string>>, newMasters: seq<string>)
    ensures var c := Cut(masterToSlave, ids, nodesPerShard, |ids|); r == c.slavesOf && newMasters == c.masters
  {
    r, newMasters := masterToSlave, [];
    var count, masterID := 0, "";
    for i := 0 to |ids|
      invariant Cutting(r, newMasters, count) == Cut(masterToSlave, ids, nodesPerShard, i)
      invariant newMasters != [] ==> masterID == Last(newMasters)
    {
      if count == nodesPerShard {
        count := 0;
      }
      if count == 0 {
        r := r[ids[i] := []];
        masterID := ids[i];
        newMasters := newMasters + [masterID];
      } else {
        r := r[masterID := r[masterID] + [ids[i]]];
      }
      count := count + 1;
    }
  }

  lemma PlaceBeside(olds: map<string, seq<string>>, c: Cutting, alone: Cutting, p: nat, id: string)
    requires c.Valid() && alone.Valid()
    requires c == Cutting(olds + alone.slavesOf, alone.masters, alone.count)
    ensures var a := Place(alone, p, id); Place(c, p, id) == Cutting(olds + a.slavesOf, a.masters, a.count)
  {
    var a := Place(alone, p, id);
    if alone.count == p || alone.count == 0 {
      assert (olds + alone.slavesOf)[id := []] == olds + alone.slavesOf[id := []];
    } else {
      var m := Last(alone.masters);
      var list := alone.slavesOf[m] + [id];
      assert (olds + alone.slavesOf)[m := list] == olds + alone.slavesOf[m := list];
    }
  }

  // The old roles stay as they are, beside the new ones.
  lemma {:induction false} OldRolesStay(olds: map<string, seq<string>>, ids: seq<string>, p: nat, n: nat)
    requires n <= |ids|
    ensures var c, alone := Cut(olds, ids, p, n), Cut(map[], ids, p, n);
            c.slavesOf == olds + alone.slavesOf && c.masters == alone.masters && c.count == alone.count
  {
    if n > 0 {
      OldRolesStay(olds, ids, p, n - 1);
      PlaceBeside(olds, Cut(olds, ids, p, n - 1), Cut(map[], ids, p, n - 1), p, ids[n - 1]);
    } else {
      assert olds + map[] == olds;
    }
  }

  // The shard that begins at position start, with j nodes behind its master.
  function WithShard(ids: seq<string>, start: nat, j: nat, c: Cutting): Cutting
    requires start + j < |ids|
  {
    Cutting(c.slavesOf[ids[start] := ids[start + 1..start + 1 + j]], c.masters + [ids[start]], 1 + j)
  }

  lemma PlaceNext(ids: seq<string>, p: nat, start: nat, j: nat, c: Cutting)
    requires 0 < j < p && start + j < |ids|
    ensures Place(WithShard(ids, start, j - 1, c), p, ids[start + j]) == WithShard(ids, start, j, c)
  {
    var slaves := ids[start + 1..start + j];
    var before := WithShard(ids, start, j - 1, c);
    assert Last(before.masters) == ids[start] && before.slavesOf[ids[start]] == slaves;
    assert ids[start + 1..start + 1 + j] == slaves + [ids[start + j]];
    assert c.slavesOf[ids[start] := slaves][ids[start] := slaves + [ids[start + j]]]
        == c.slavesOf[ids[start] := slaves + [ids[start + j]]];
  }

  lemma {:induction false} CutShard(ids: seq<string>, p: nat, start: nat, j: nat)
    requires j < p && start + j < |ids|
    requires Cut(map[], ids, p, start).count == 0 || Cut(map[], ids, p, start).count == p
    ensures Cut(map[], ids, p, start + 1 + j) == WithShard(ids, start, j, Cut(map[], ids, p, start))
  {
    var c := Cut(map[], ids, p, start);
    if j > 0 {
      CutShard(ids, p, start, j - 1);
      PlaceNext(ids, p, start, j, c);
    } else {
      assert ids[start + 1..start + 1] == [];
    }
  }

  ghost predicate Chunk(ids: seq<string>, p: nat, g: nat, c: Cutting) {
    && g < |c.masters| && Offset(p, g) < Offset(p, g) + p <= |ids|
    && c.masters[g] == ids[Offset(p, g)] && c.masters[g] in c.slavesOf
    && c.slavesOf[c.masters[g]] == ids[Offset(p, g) + 1..Offset(p, g) + p]
  }

  // The first h shards are as the nodes stand in the list.
  ghost predicate Sharded(ids: seq<string>, p: nat, h: nat, c: Cutting) {
    && |c.masters| == h
    && (forall g :: 0 <= g < h ==> Chunk(ids, p, g, c))
    && (forall m :: m in c.slavesOf ==> m in c.masters)
  }

  lemma NextShard(ids: seq<string>, p: nat, h: nat, c: Cutting)
    requires Distinct(ids) && p > 0 && Offset(p, h) + p <= |ids| && Sharded(ids, p, h, c)
    ensures Sharded(ids, p, h + 1, WithShard(ids, Offset(p, h), p - 1, c))
  {
    var c' := WithShard(ids, Offset(p, h), p - 1, c);
    forall g | 0 <= g < h ensures Chunk(ids, p, g, c') {
      assert Chunk(ids, p, g, c);
      OffsetGrows(p, g, h);
    }
    assert Chunk(ids, p, h, c');
  }

  lemma {:induction false} CutShards(ids: seq<string>, p: nat, h: nat, c: Cutting)
    requires Distinct(ids) && p > 0 && Offset(p, h) <= |ids| && c == Cut(map[], ids, p, Offset(p, h))
    ensures (c.count == 0 || c.count == p) && Sharded(ids, p, h, c)
  {
    if h > 0 {
      var start := Offset(p, h - 1);
      var before := Cut(map[], ids, p, start);
      CutShards(ids, p, h - 1, before);
      CutShard(ids, p, start, p - 1);
      assert c == WithShard(ids, start, p - 1, before);
      NextShard(ids, p, h - 1, before);
    }
  }

  // Node k of shard h is led by the first node of that shard, and by no other.
  lemma ChunkRole(ids: seq<string>, p: nat, s: nat, c: Cutting, x: string)
    requires Distinct(ids) && p > 0 && |ids| == Offset(p, s) && Sharded(ids, p, s, c)
    requires x in ids
    ensures OneRole(c.slavesOf, x)
  {
    var k :| 0 <= k < |ids| && ids[k] == x;
    var h := FindBlock(0, p, s, k);
    assert Chunk(ids, p, h, c);
    forall m | m in c.slavesOf ensures m == x ==> k == Offset(p, h)
                               ensures x in c.slavesOf[m] ==> m == c.masters[h] && k != Offset(p, h)
    {
      var g :| 0 <= g < s && c.masters[g] == m;
      assert Chunk(ids, p, g, c);
      if g < h { OffsetGrows(p, g, h); }
      if h < g { OffsetGrows(p, h, g); }
    }
    if k != Offset(p, h) {
      var block := ids[Offset(p, h) + 1..Offset(p, h) + p];
      assert block[k - Offset(p, h) - 1] == x;
      assert Replicates(c.slavesOf, x, c.masters[h]);
    }
  }

  // The new nodes of s shards all get exactly one role: the first of each shard leads
  // exactly the p - 1 nodes right behind it.
  lemma NewNodesGetOneRole(ids: seq<string>, p: nat, s: nat)
    requires Distinct(ids) && |ids| == s * p
    ensures ids != [] ==> Sharded(ids, p, s, Cut(map[], ids, p, |ids|))
    ensures forall x :: x in ids ==> OneRole(NewRoles(ids, p), x)
  {
    if ids != [] {
      OffsetIsProduct(p, s);
      assert p > 0;
      CutShards(ids, p, s, Cut(map[], ids, p, |ids|));
      forall x | x in ids ensures OneRole(NewRoles(ids, p), x) {
        ChunkRole(ids, p, s, Cut(map[], ids, p, |ids|), x);
      }
    }
  }

  // New masters are new nodes, each once.
  lemma NewMastersAreDistinct(ids: seq<string>, p: nat, s: nat)
    requires Distinct(ids) && |ids| == s * p && p > 0
    ensures var c := Cut(map[], ids, p, |ids|);
            Distinct(c.masters) && |c.masters| == s && forall m :: m in c.masters ==> m in ids
  {
    OffsetIsProduct(p, s);
    CutShards(ids, p, s, Cut(map[], ids, p, |ids|));
    var c := Cut(map[], ids, p, |ids|);
    forall g | 0 <= g < s ensures Offset(p, g) < |ids| && c.masters[g] == ids[Offset(p, g)] {
      assert Chunk(ids, p, g, c);
    }
    forall g, h | 0 <= g < h < s ensures c.masters[g] != c.masters[h] { OffsetGrows(p, g, h); }
  }

  // The new masters are the new nodes that replicate nobody.
  lemma NewMastersReplicateNobody(ids: seq<string>, p: nat, s: nat, x: string)
    requires Distinct(ids) && |ids| == s * p && p > 0
    ensures x in Cut(map[], ids, p, |ids|).masters <==> x in ids && Unled(NewRoles(ids, p), x)
  {
    NewNodesGetOneRole(ids, p, s);
    NewMastersAreDistinct(ids, p, s);
    var c := Cut(map[], ids, p, |ids|);
    if x in c.masters {
      var g :| 0 <= g < |c.masters| && c.masters[g] == x;
      assert Chunk(ids, p, g, c);
    }
    if x in ids { assert OneRole(c.slavesOf, x); }
  }

  lemma NoNewReplicaTwice(ids: seq<string>, p: nat, s: nat, m: string)
    requires Distinct(ids) && |ids| == s * p && m in NewRoles(ids, p)
    ensures Distinct(NewRoles(ids, p)[m]) && m in ids
  {
    OffsetIsProduct(p, s);
    if ids != [] {
      CutShards(ids, p, s, Cut(map[], ids, p, |ids|));
      var c := Cut(map[], ids, p, |ids|);
      var h :| 0 <= h < s && c.masters[h] == m;
      assert Chunk(ids, p, h, c);
    }
  }

  lemma SameRole(a: map<string, seq<string>>, b: map<string, seq<string>>, x: string)
    requires x in a <==> x in b
    requires forall m :: Replicates(a, x, m) <==> Replicates(b, x, m)
    ensures OneRole(a, x) <==> OneRole(b, x)
  {
  }

  lemma RoleTogether(olds: map<string, seq<string>>, news: map<string, seq<string>>, x: string, m: string)
    requires m in olds ==> m !in news
    ensures Replicates(olds + news, x, m) <==> Replicates(olds, x, m) || Replicates(news, x, m)
  {
  }

  lemma NewRolesAreNew(ids: seq<string>, p: nat, s: nat, m: string)
    requires Distinct(ids) && |ids| == s * p && m in NewRoles(ids, p)
    ensures m in ids && forall y :: y in NewRoles(ids, p)[m] ==> y in ids
  {
    OffsetIsProduct(p, s);
    if ids != [] {
      CutShards(ids, p, s, Cut(map[], ids, p, |ids|));
      var c := Cut(map[], ids, p, |ids|);
      var h :| 0 <= h < s && c.masters[h] == m;
      assert Chunk(ids, p, h, c);
    }
  }

  // After a scale-out every node that had one role has it still, and every new node
  // has one.
  lemma EveryNodeHasOneRole(olds: map<string, seq<string>>, ids: seq<string>, p: nat, s: nat, x: string)
    requires Distinct(ids) && |ids| == s * p
    requires forall m :: m in olds ==> m !in ids && forall y :: y in olds[m] ==> y !in ids
    requires x in ids || OneRole(olds, x)
    ensures OneRole(Cut(olds, ids, p, |ids|).slavesOf, x)
  {
    OldRolesStay(olds, ids, p, |ids|);
    NewNodesGetOneRole(ids, p, s);
    forall m | m in NewRoles(ids, p) ensures m in ids && forall y :: y in NewRoles(ids, p)[m] ==> y in ids {
      NewRolesAreNew(ids, p, s, m);
    }
    var news := NewRoles(ids, p);
    forall m ensures Replicates(olds + news, x, m) <==> Replicates(olds, x, m) || Replicates(news, x, m) {
      RoleTogether(olds, news, x, m);
    }
    if x in ids { SameRole(olds + news, news, x); } else { SameRole(olds + news, olds, x); }
  }
}
