// The peer registry (cache/peer/registry.go): the ring and the table of peer
// clients, changed together by membership events.
module PeerRegistry {
  import opened Basics
  import opened ConsistentHash
  import Decimal

  // A gRPC client, known by the address it was dialled with.
  datatype Peer = Peer(addr: string)

  // ----- Values -----

  const REPLICAS := 50

  // dialled says whether the client for the joining peer could be created.
  datatype Event = Join(addr: string, dialled: bool) | Leave(addr: string) | Update(addr: string)

  datatype RegistryState = RegistryState(ring: RingState, clients: map<string, Peer>)

  function Start(hash: Hash, local: string): RegistryState {
    RegistryState(AddNode(RingState([], map[]), VirtualPoints(hash, REPLICAS, local), local), map[])
  }

  function Step(hash: Hash, s: RegistryState, e: Event): RegistryState {
    match e
    case Join(addr, dialled) =>
      if addr in s.clients || !dialled then s
      else RegistryState(AddNode(s.ring, VirtualPoints(hash, REPLICAS, addr), addr),
                         s.clients[addr := Peer(addr)])
    case Leave(addr) =>
      RegistryState(RemoveNode(s.ring, addr), s.clients - {addr})
    case Update(_) => s
  }

  function Run(hash: Hash, local: string, events: seq<Event>): RegistryState {
    if events == [] then Start(hash, local)
    else Step(hash, Run(hash, local, Front(events)), Last(events))
  }

  // The clients for a list of addresses, leaving out the local one.
  function Clients(s: RegistryState, local: string, addrs: seq<string>): seq<Peer> {
    if addrs == [] then []
    else
      var a := Last(addrs);
      Clients(s, local, Front(addrs))
      + (if a != local && a in s.clients then [s.clients[a]] else [])
  }

  function Addresses(ps: seq<Peer>): (addrs: seq<string>)
    ensures |addrs| == |ps| && forall i :: 0 <= i < |ps| ==> addrs[i] == ps[i].addr
  {
    if ps == [] then [] else Addresses(Front(ps)) + [Last(ps).addr]
  }

  // ----- What every event keeps -----

  // Every owner on the ring can be reached: it is this node or it has a client.
  ghost predicate Reachable(s: RegistryState, local: string) {
    && s.ring.Valid()
    && (forall p :: p in s.ring.owner ==> s.ring.owner[p] == local || s.ring.owner[p] in s.clients)
    && (forall a :: a in s.clients ==> s.clients[a].addr == a)
  }

  lemma StepKeepsReachable(hash: Hash, local: string, s: RegistryState, e: Event)
    requires Reachable(s, local)
    ensures Reachable(Step(hash, s, e), local)
  {
    match e
    case Join(addr, dialled) =>
      AddNodeValid(s.ring, VirtualPoints(hash, REPLICAS, addr), addr);
    case Leave(addr) =>
      RemoveNodeValid(s.ring, addr);
    case Update(_) =>
  }

  lemma {:induction false} RunIsReachable(hash: Hash, local: string, events: seq<Event>)
    ensures Reachable(Run(hash, local, events), local)
  {
    if events == [] {
      AddNodeValid(RingState([], map[]), VirtualPoints(hash, REPLICAS, local), local);
    } else {
      RunIsReachable(hash, local, Front(events));
      StepKeepsReachable(hash, local, Run(hash, local, Front(events)), Last(events));
    }
  }

  lemma {:induction false} ClientsOfOwners(s: RegistryState, local: string, addrs: seq<string>)
    requires Reachable(s, local)
    requires forall a :: a in addrs ==> a in s.ring.owner.Values
    ensures Addresses(Clients(s, local, addrs)) == Filter(Not(local), addrs)
  {
    if addrs != [] {
      ClientsOfOwners(s, local, Front(addrs));
      var before := Clients(s, local, Front(addrs));
      if Last(addrs) != local {
        assert Last(addrs) in s.ring.owner.Values;
        assert Front(before + [s.clients[Last(addrs)]]) == before;
      } else {
        assert Clients(s, local, addrs) == before;
      }
    }
  }

  // After any run of events no candidate is lost: the peers offered for a key
  // are exactly its replica list without the local node.
  lemma CandidatesAreReplicaList(hash: Hash, local: string, events: seq<Event>, h: Point, n: nat)
    ensures var s := Run(hash, local, events);
            && s.ring.Valid()
            && Addresses(Clients(s, local, Take(Preference(s.ring, h), n)))
               == Filter(Not(local), Take(Preference(s.ring, h), n))
  {
    var s := Run(hash, local, events);
    RunIsReachable(hash, local, events);
    PreferenceByDistance(s.ring, h);
    ClientsOfOwners(s, local, Take(Preference(s.ring, h), n));
  }

  // When a peer leaves, the peers offered for a key are those of the old replica
  // list without it, in the old order, topped up from further along the ring.
  lemma FailoverFollowsReplicaList(hash: Hash, local: string, events: seq<Event>, gone: string,
                                   h: Point, n: nat)
    ensures var s, s' := Run(hash, local, events), Run(hash, local, events + [Leave(gone)]);
            && s.ring.Valid() && s'.ring.Valid()
            && Addresses(Clients(s', local, Take(Preference(s'.ring, h), n)))
               == Filter(Not(local), Take(Filter(Not(gone), Preference(s.ring, h)), n))
  {
    assert Front(events + [Leave(gone)]) == events;
    RunIsReachable(hash, local, events);
    CandidatesAreReplicaList(hash, local, events + [Leave(gone)], h, n);
    RemovalFiltersPreference(Run(hash, local, events).ring, gone, h);
  }

  // PickPeer: None when the key is local, or its owner has no client.
  function Pick(s: RegistryState, local: string, h: Point): Option<Peer>
    requires s.ring.Valid()
  {
    var addr := Primary(s.ring, h);
    if addr == "" || addr == local || addr !in s.clients then None else Some(s.clients[addr])
  }

  lemma FilterKeepsHead<T>(x: T, s: seq<T>)
    requires s != [] && s[0] != x
    ensures Filter(Not(x), s) != [] && Filter(Not(x), s)[0] == s[0]
  {
    assert s == [s[0]] + s[1..];
    FilterConcat(Not(x), [s[0]], s[1..]);
    assert Filter(Not(x), [s[0]]) == [s[0]];
  }

  lemma PrimaryIsOwner(s: RegistryState, local: string, h: Point)
    requires Reachable(s, local)
    ensures Preference(s.ring, h) == [] ==> Primary(s.ring, h) == ""
    ensures Preference(s.ring, h) != [] ==>
              && Preference(s.ring, h)[0] == Primary(s.ring, h)
              && (Primary(s.ring, h) == local || Primary(s.ring, h) in s.clients)
  {
    PrimaryHeadsPreference(s.ring, h);
    PreferenceByDistance(s.ring, h);
    if Preference(s.ring, h) != [] { assert Preference(s.ring, h)[0] in s.ring.owner.Values; }
  }

  lemma FirstClient(s: RegistryState, local: string, h: Point, n: nat)
    requires Reachable(s, local) && 1 <= n && Preference(s.ring, h) != [] && Preference(s.ring, h)[0] != local
    ensures var cs := Clients(s, local, Take(Preference(s.ring, h), n));
            cs != [] && cs[0].addr == Preference(s.ring, h)[0]
  {
    var list := Take(Preference(s.ring, h), n);
    PreferenceByDistance(s.ring, h);
    ClientsOfOwners(s, local, list);
    FilterKeepsHead(local, list);
    assert Addresses(Clients(s, local, list))[0] == list[0];
  }

  lemma {:induction false} ClientsAreOwn(s: RegistryState, local: string, addrs: seq<string>, i: nat)
    requires i < |Clients(s, local, addrs)| && forall a :: a in s.clients ==> s.clients[a].addr == a
    ensures var c := Clients(s, local, addrs)[i]; c.addr in s.clients && s.clients[c.addr] == c
  {
    if i < |Clients(s, local, Front(addrs))| { ClientsAreOwn(s, local, Front(addrs), i); }
  }

  // PickPeer finds a peer exactly when the primary owner is another, named node,
  // and then it is the first candidate of PickPeerWithFallback for every n >= 1.
  lemma PickIsFirstCandidate(hash: Hash, local: string, events: seq<Event>, h: Point, n: nat)
    requires 1 <= n
    ensures var s := Run(hash, local, events);
            && s.ring.Valid()
            && (Pick(s, local, h).Some? <==> Primary(s.ring, h) !in {"", local})
            && (Pick(s, local, h).Some? ==>
                  var cs := Clients(s, local, Take(Preference(s.ring, h), n));
                  cs != [] && cs[0] == Pick(s, local, h).value)
  {
    var s := Run(hash, local, events);
    RunIsReachable(hash, local, events);
    PrimaryIsOwner(s, local, h);
    if Pick(s, local, h).Some? {
      FirstClient(s, local, h, n);
      ClientsAreOwn(s, local, Take(Preference(s.ring, h), n), 0);
    }
  }

  // ----- Who is on the ring -----

  lemma {:induction false} VirtualPointMember(hash: Hash, replicas: nat, node: string, i: nat)
    requires i < replicas
    ensures hash(Decimal.Itoa(i) + node) in VirtualPoints(hash, replicas, node)
  {
    if i < replicas - 1 { VirtualPointMember(hash, replicas - 1, node, i); }
  }

  lemma {:induction false} VirtualPointIs(hash: Hash, replicas: nat, node: string, p: Point) returns (i: nat)
    requires p in VirtualPoints(hash, replicas, node)
    ensures i < replicas && p == hash(Decimal.Itoa(i) + node)
  {
    if p == hash(Decimal.Itoa(replicas - 1) + node) {
      i := replicas - 1;
    } else {
      assert p in VirtualPoints(hash, replicas - 1, node);
      i := VirtualPointIs(hash, replicas - 1, node, p);
    }
  }

  // One of the node's fifty points.
  ghost predicate PointOf(hash: Hash, addr: string, p: Point) {
    exists i: nat :: i < 50 && p == hash(Decimal.Itoa(i) + addr)
  }

  lemma PointsOf(hash: Hash, addr: string, p: Point)
    ensures p in VirtualPoints(hash, REPLICAS, addr) <==> PointOf(hash, addr, p)
  {
    if p in VirtualPoints(hash, REPLICAS, addr) {
      var i := VirtualPointIs(hash, REPLICAS, addr, p);
    }
    if PointOf(hash, addr, p) {
      var i: nat :| i < 50 && p == hash(Decimal.Itoa(i) + addr);
      VirtualPointMember(hash, REPLICAS, addr, i);
    }
  }

  // A key that hashes to a point of the ring belongs to the owner of that point.
  lemma PrimaryAtPoint(r: RingState, p: Point)
    requires r.Valid() && p in r.owner
    ensures Primary(r, p) == r.owner[p]
  {
    PrimaryIsNearest(r, p, p);
  }

  // A dialled join of an address without a client, after any run: the address owns its
  // fifty points, every other point keeps its owner, and keys that hash to one of its
  // points are picked from it, unless it is this node.
  lemma JoinTakesItsPoints(hash: Hash, local: string, events: seq<Event>, addr: string, p: Point)
    requires addr !in Run(hash, local, events).clients
    ensures var s, s' := Run(hash, local, events), Run(hash, local, events + [Join(addr, true)]);
            && s'.ring.Valid()
            && (PointOf(hash, addr, p) ==> p in s'.ring.owner && s'.ring.owner[p] == addr)
            && (!PointOf(hash, addr, p) ==>
                  && (p in s'.ring.owner <==> p in s.ring.owner)
                  && (p in s.ring.owner ==> s'.ring.owner[p] == s.ring.owner[p]))
            && (PointOf(hash, addr, p) && addr !in {"", local} ==> Pick(s', local, p) == Some(Peer(addr)))
  {
    var after := events + [Join(addr, true)];
    assert Front(after) == events;
    RunIsReachable(hash, local, after);
    PointsOf(hash, addr, p);
    if PointOf(hash, addr, p) { PrimaryAtPoint(Run(hash, local, after).ring, p); }
  }

  // After construction this node owns its fifty points, and no other point is owned.
  lemma StartsWithItsPoints(hash: Hash, local: string, p: Point)
    ensures var r := Start(hash, local).ring;
            && r.Valid()
            && (p in r.owner <==> PointOf(hash, local, p)) && (p in r.owner ==> r.owner[p] == local)
  {
    AddNodeValid(RingState([], map[]), VirtualPoints(hash, REPLICAS, local), local);
    PointsOf(hash, local, p);
  }

  // The address was dialled successfully since it last left.
  predicate Joined(events: seq<Event>, addr: string) {
    events != [] &&
    match Last(events)
    case Join(a, dialled) => (a == addr && dialled) || Joined(Front(events), addr)
    case Leave(a) => a != addr && Joined(Front(events), addr)
    case Update(_) => Joined(Front(events), addr)
  }

  // It has not left, and it is this node or was dialled.
  predicate OnRing(local: string, events: seq<Event>, addr: string) {
    if events == [] then addr == local
    else
      match Last(events)
      case Join(a, dialled) => (a == addr && dialled) || OnRing(local, Front(events), addr)
      case Leave(a) => a != addr && OnRing(local, Front(events), addr)
      case Update(_) => OnRing(local, Front(events), addr)
  }

  // After any run exactly the joined peers have a client, and it is their own.
  lemma {:induction false} ClientsAreJoined(hash: Hash, local: string, events: seq<Event>, addr: string)
    ensures var s := Run(hash, local, events);
            (addr in s.clients <==> Joined(events, addr)) && (addr in s.clients ==> s.clients[addr] == Peer(addr))
  {
    if events != [] { ClientsAreJoined(hash, local, Front(events), addr); }
  }

  lemma {:induction false} JoinedIsOnRing(local: string, events: seq<Event>, addr: string)
    requires Joined(events, addr)
    ensures OnRing(local, events, addr)
  {
    match Last(events)
    case Join(a, dialled) => if !(a == addr && dialled) { JoinedIsOnRing(local, Front(events), addr); }
    case Leave(_) => JoinedIsOnRing(local, Front(events), addr);
    case Update(_) => JoinedIsOnRing(local, Front(events), addr);
  }

  // The owner of a point is on the ring, and the point is one of its fifty.
  ghost predicate OwnedByMember(hash: Hash, local: string, events: seq<Event>, p: Point) {
    var owner := Run(hash, local, events).ring.owner;
    p in owner ==> OnRing(local, events, owner[p]) && PointOf(hash, owner[p], p)
  }

  // After any run, also one in which points collide.
  lemma {:induction false} OwnersAreMembers(hash: Hash, local: string, events: seq<Event>, p: Point)
    ensures OwnedByMember(hash, local, events, p)
  {
    if events == [] {
      StartsWithItsPoints(hash, local, p);
    } else {
      OwnersAreMembers(hash, local, Front(events), p);
      if Last(events).Join? { PointsOf(hash, Last(events).addr, p); }
    }
  }

  // This node and the addresses in the events.
  predicate Named(local: string, events: seq<Event>, addr: string) {
    addr == local || exists i :: 0 <= i < |events| && events[i].addr == addr
  }

  // No point belongs to two of them.
  ghost predicate Apart(hash: Hash, local: string, events: seq<Event>) {
    forall a, b, p :: Named(local, events, a) && Named(local, events, b) && PointOf(hash, a, p) && PointOf(hash, b, p)
                      ==> a == b
  }

  lemma NamedBefore(local: string, events: seq<Event>, addr: string)
    requires events != [] && Named(local, Front(events), addr)
    ensures Named(local, events, addr)
  {
    if addr != local {
      var i :| 0 <= i < |Front(events)| && Front(events)[i].addr == addr;
      assert events[i].addr == addr;
    }
  }

  lemma {:induction false} MembersAreNamed(local: string, events: seq<Event>, addr: string)
    requires OnRing(local, events, addr)
    ensures Named(local, events, addr)
  {
    if events != [] {
      if Last(events) == Join(addr, true) {
        assert events[|events| - 1].addr == addr;
      } else {
        MembersAreNamed(local, Front(events), addr);
        NamedBefore(local, events, addr);
      }
    }
  }

  lemma ApartBefore(hash: Hash, local: string, events: seq<Event>)
    requires events != [] && Apart(hash, local, events)
    ensures Apart(hash, local, Front(events))
  {
    forall a, b, p | && Named(local, Front(events), a) && Named(local, Front(events), b)
                     && PointOf(hash, a, p) && PointOf(hash, b, p)
      ensures a == b
    {
      NamedBefore(local, events, a);
      NamedBefore(local, events, b);
    }
  }

  ghost predicate Owns(hash: Hash, local: string, events: seq<Event>, addr: string, p: Point) {
    var owner := Run(hash, local, events).ring.owner;
    p in owner && owner[p] == addr
  }

  // If no points collide, every member owns all its points, after any run.
  lemma {:induction false} MembersOwnTheirPoints(hash: Hash, local: string, events: seq<Event>, addr: string, p: Point)
    requires Apart(hash, local, events) && OnRing(local, events, addr) && PointOf(hash, addr, p)
    ensures Owns(hash, local, events, addr, p)
  {
    if events == [] {
      StartsWithItsPoints(hash, local, p);
    } else {
      ApartBefore(hash, local, events);
      MembersAreNamed(local, events, addr);
      var last := Last(events);
      assert last == events[|events| - 1] && Named(local, events, last.addr);
      PointsOf(hash, last.addr, p);
      if last == Join(addr, true) && !OnRing(local, Front(events), addr) {
        ClientsAreJoined(hash, local, Front(events), addr);
        if Joined(Front(events), addr) { JoinedIsOnRing(local, Front(events), addr); }
      } else {
        MembersOwnTheirPoints(hash, local, Front(events), addr, p);
      }
    }
  }

  // So the ring is exactly the membership: a point is owned when it belongs to a
  // member, and then by that member.
  lemma RingIsMembership(hash: Hash, local: string, events: seq<Event>, addr: string, p: Point)
    requires Apart(hash, local, events)
    ensures Owns(hash, local, events, addr, p) <==> OnRing(local, events, addr) && PointOf(hash, addr, p)
  {
    OwnersAreMembers(hash, local, events, p);
    if OnRing(local, events, addr) && PointOf(hash, addr, p) { MembersOwnTheirPoints(hash, local, events, addr, p); }
  }

  // ----- The registry object -----

  lemma AddOne(r: RingState, hash: Hash, addr: string)
    ensures AddNodes(r, hash, REPLICAS, [addr])
            == AddNode(r, VirtualPoints(hash, REPLICAS, addr), addr)
  {
    assert Front([addr]) == [];
  }

  class Registry {
    const localAddr: string
    const hashRing: Ring
    var grpcGetters: map<string, Peer>

    ghost function State(): RegistryState
      reads this, hashRing
    {
      RegistryState(hashRing.State(), grpcGetters)
    }

    ghost predicate Valid()
      reads this, hashRing
    {
      hashRing.State().Valid() && hashRing.replicas == REPLICAS
    }

    constructor (localCacheAddr: string, hash: Hash)
      ensures Valid() && fresh(hashRing)
      ensures localAddr == localCacheAddr && hashRing.hash == hash
      ensures State() == Start(hash, localCacheAddr)
    {
      localAddr := localCacheAddr;
      hashRing := new Ring(REPLICAS, hash);
      grpcGetters := map[];
      new;
      hashRing.Add([localCacheAddr]);
      AddOne(RingState([], map[]), hash, localCacheAddr);
    }

    method AddToRing(addr: string, dialled: bool)
      requires Valid()
      modifies this, hashRing
      ensures Valid()
      ensures State() == Step(hashRing.hash, old(State()), Join(addr, dialled))
    {
      if addr in grpcGetters {
        return;
      }
      if !dialled {
        return;
      }
      AddOne(hashRing.State(), hashRing.hash, addr);
      hashRing.Add([addr]);
      grpcGetters := grpcGetters[addr := Peer(addr)];
    }

    method RemoveFromRing(addr: string)
      requires Valid()
      modifies this, hashRing
      ensures Valid()
      ensures State() == Step(hashRing.hash, old(State()), Leave(addr))
    {
      hashRing.Remove(addr);
      grpcGetters := grpcGetters - {addr};
    }

    method PickPeer(key: string) returns (peer: Option<Peer>)
      requires Valid()
      ensures peer == Pick(State(), localAddr, hashRing.hash(key))
    {
      var addr := hashRing.Get(key);
      if addr == "" || addr == localAddr {
        return None;
      }
      if addr !in grpcGetters {
        return None;
      }
      return Some(grpcGetters[addr]);
    }

    method PickPeerWithFallback(key: string, n: nat) returns (result: seq<Peer>)
      requires Valid()
      ensures result == Clients(State(), localAddr,
                                Take(Preference(State().ring, hashRing.hash(key)), n))
    {
      var candidates := hashRing.GetN(key, n);
      result := [];
      for i := 0 to |candidates|
        invariant result == Clients(State(), localAddr, candidates[..i])
      {
        var addr := candidates[i];
        assert Front(candidates[..i + 1]) == candidates[..i];
        if addr == localAddr {
          continue;
        }
        if addr in grpcGetters {
          result := result + [grpcGetters[addr]];
        }
      }
      assert candidates[..|candidates|] == candidates;
    }
  }
}
