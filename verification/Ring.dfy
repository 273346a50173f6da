// The consistent-hash ring (cache/consistenthash/consistenthash.go).
//
// A ring is a sorted list of 32-bit points, possibly with repetitions, and a map
// that gives every point the node that owns it.  The hash is a parameter.
module ConsistentHash {
  import opened Basics
  import Decimal

  // Hash values are uint32, widened to int by the code.
  const MODULUS := 0x1_0000_0000

  newtype Point = p: int | 0 <= p < MODULUS

  type Hash = string -> Point

  // ----- Values -----

  predicate Ascending(s: seq<Point>) {
    forall i, j :: 0 <= i < j < |s| ==> s[i] <= s[j]
  }

  datatype RingState = RingState(points: seq<Point>, owner: map<Point, string>) {

    // Sorted points, and exactly these points have an owner.
    ghost predicate Valid() {
      && Ascending(points)
      && (forall p :: p in points <==> p in owner)
    }
  }

  function Insert(p: Point, s: seq<Point>): (r: seq<Point>)
    requires Ascending(s)
    ensures Ascending(r)
    ensures r != [] && (Last(r) == p || (s != [] && Last(r) == Last(s)))
  {
    if s == [] || Last(s) <= p then s + [p] else Insert(p, Front(s)) + [Last(s)]
  }

  // sort.Ints
  function Sort(s: seq<Point>): (r: seq<Point>)
    ensures Ascending(r)
  {
    if s == [] then [] else Insert(Last(s), Sort(Front(s)))
  }

  lemma {:induction false} InsertPermutes(p: Point, s: seq<Point>)
    requires Ascending(s)
    ensures multiset(Insert(p, s)) == multiset(s) + multiset{p}
  {
    if !(s == [] || Last(s) <= p) {
      InsertPermutes(p, Front(s));
      assert s == Front(s) + [Last(s)];
    }
  }

  lemma {:induction false} SortPermutes(s: seq<Point>)
    ensures multiset(Sort(s)) == multiset(s)
  {
    if s != [] {
      SortPermutes(Front(s));
      InsertPermutes(Last(s), Sort(Front(s)));
      assert s == Front(s) + [Last(s)];
    }
  }

  // The virtual points of a node: one per replica, hashing the replica number
  // printed in front of the address.
  function VirtualPoints(hash: Hash, replicas: nat, node: string): (ps: seq<Point>) {
    if replicas == 0 then []
    else VirtualPoints(hash, replicas - 1, node) + [hash(Decimal.Itoa(replicas - 1) + node)]
  }

  // A node takes over every point in ps, whoever owned it before.
  function Claim(owner: map<Point, string>, ps: seq<Point>, node: string): (r: map<Point, string>)
    ensures forall p :: p in r <==> p in owner || p in ps
    ensures forall p :: p in r ==> r[p] == if p in ps then node else owner[p]
  {
    if ps == [] then owner else Claim(owner, Front(ps), node)[Last(ps) := node]
  }

  function AddNode(r: RingState, ps: seq<Point>, node: string): RingState {
    RingState(Sort(r.points + ps), Claim(r.owner, ps, node))
  }

  function NotOwnedBy(owner: map<Point, string>, node: string): Point -> bool {
    p => !(p in owner && owner[p] == node)
  }

  function RemoveNode(r: RingState, node: string): RingState {
    RingState(Filter(NotOwnedBy(r.owner, node), r.points),
              map p | p in r.owner && r.owner[p] != node :: r.owner[p])
  }

  // sort.Search: the least index whose point is at or after h.
  function Search(s: seq<Point>, h: Point, lo: nat, hi: nat): (i: nat)
    requires Ascending(s) && lo <= hi <= |s|
    requires lo > 0 ==> s[lo - 1] < h
    requires hi < |s| ==> h <= s[hi]
    ensures lo <= i <= hi
    ensures forall j :: 0 <= j < i ==> s[j] < h
    ensures forall j :: i <= j < |s| ==> h <= s[j]
    decreases hi - lo
  {
    if lo == hi then lo
    else
      var mid := lo + (hi - lo) / 2;
      if s[mid] < h then Search(s, h, mid + 1, hi) else Search(s, h, lo, mid)
  }

  // The points in clockwise order from h.
  function Rotation(s: seq<Point>, h: Point): (t: seq<Point>)
    requires Ascending(s)
  {
    var k := Search(s, h, 0, |s|);
    s[k..] + s[..k]
  }

  function Owners(owner: map<Point, string>, ps: seq<Point>): (w: seq<string>)
    requires forall p :: p in ps ==> p in owner
    ensures |w| == |ps| && forall i :: 0 <= i < |ps| ==> w[i] == owner[ps[i]]
  {
    if ps == [] then [] else Owners(owner, Front(ps)) + [owner[Last(ps)]]
  }

  // The owners met when walking the whole ring clockwise from h.
  function Walk(r: RingState, h: Point): (w: seq<string>)
    requires r.Valid()
    ensures |w| == |r.points|
  {
    Owners(r.owner, Rotation(r.points, h))
  }

  // The distinct owners in clockwise order: the replica list of a key.
  function Preference(r: RingState, h: Point): (w: seq<string>)
    requires r.Valid()
  {
    Dedup(Walk(r, h))
  }

  // Get: the owner of the first point clockwise, "" on an empty ring.
  function Primary(r: RingState, h: Point): string
    requires r.Valid()
  {
    if r.points == [] then "" else Walk(r, h)[0]
  }

  // ----- Every operation keeps the ring valid -----

  lemma AddNodeValid(r: RingState, ps: seq<Point>, node: string)
    requires r.Valid()
    ensures AddNode(r, ps, node).Valid()
  {
    var r' := AddNode(r, ps, node);
    SortPermutes(r.points + ps);
    forall p: Point ensures p in r'.points <==> p in r'.owner {
      assert p in r'.points <==> p in multiset(r'.points);
      assert p in r.points + ps <==> p in multiset(r.points + ps);
    }
  }

  lemma {:induction false} FilterAscending(keep: Point -> bool, s: seq<Point>)
    requires Ascending(s)
    ensures Ascending(Filter(keep, s))
  {
    if s != [] {
      FilterAscending(keep, Front(s));
      var t := Filter(keep, Front(s));
      forall i | 0 <= i < |t| ensures t[i] <= Last(s) {
        FilterMember(keep, Front(s), t[i]);
      }
    }
  }

  lemma RemoveNodeValid(r: RingState, node: string)
    requires r.Valid()
    ensures RemoveNode(r, node).Valid()
  {
    FilterAscending(NotOwnedBy(r.owner, node), r.points);
    forall p: Point ensures p in RemoveNode(r, node).points <==> p in RemoveNode(r, node).owner {
      FilterMember(NotOwnedBy(r.owner, node), r.points, p);
    }
  }

  // ----- Lookup is the nearest point clockwise -----

  // How far p lies clockwise of h.
  function Clockwise(h: Point, p: Point): (d: nat)
    ensures d < MODULUS && (p as int == h as int + d || p as int == h as int + d - MODULUS)
  {
    if h <= p then p as int - h as int else p as int - h as int + MODULUS
  }

  lemma RotationByDistance(s: seq<Point>, h: Point, i: nat, j: nat)
    requires Ascending(s) && i <= j < |s|
    ensures Clockwise(h, Rotation(s, h)[i]) <= Clockwise(h, Rotation(s, h)[j])
  {
  }

  lemma RotationMember(s: seq<Point>, h: Point, p: Point)
    requires Ascending(s)
    ensures p in Rotation(s, h) <==> p in s
  {
    var k := Search(s, h, 0, |s|);
    assert s == s[..k] + s[k..];
  }

  // Get returns the owner of the point at the least clockwise distance.
  lemma PrimaryIsNearest(r: RingState, h: Point, p: Point)
    requires r.Valid()
    requires p in r.owner && forall q :: q in r.owner ==> Clockwise(h, p) <= Clockwise(h, q)
    ensures Primary(r, h) == r.owner[p]
  {
    var t := Rotation(r.points, h);
    RotationMember(r.points, h, p);
    RotationMember(r.points, h, t[0]);
    var i :| 0 <= i < |t| && t[i] == p;
    RotationByDistance(r.points, h, 0, i);
    assert t[0] == p;
  }

  // a is met before b: some point of a is nearer than every point of b.
  ghost predicate Precedes(r: RingState, h: Point, a: string, b: string) {
    exists p ::
      && p in r.owner && r.owner[p] == a
      && forall q :: q in r.owner && r.owner[q] == b ==> Clockwise(h, p) < Clockwise(h, q)
  }

  lemma PreferenceMember(r: RingState, h: Point, a: string)
    requires r.Valid()
    ensures a in Preference(r, h) <==> a in r.owner.Values
  {
    var t := Rotation(r.points, h);
    DedupMember(Walk(r, h), a);
    if a in r.owner.Values {
      var p :| p in r.owner && r.owner[p] == a;
      RotationMember(r.points, h, p);
      var i :| 0 <= i < |t| && t[i] == p;
      assert Walk(r, h)[i] == a;
    }
    if a in Preference(r, h) {
      var i :| 0 <= i < |t| && Walk(r, h)[i] == a;
      RotationMember(r.points, h, t[i]);
    }
  }

  lemma PreferenceOrder(r: RingState, h: Point, i: nat, j: nat)
    requires r.Valid() && i < j < |Preference(r, h)|
    ensures Precedes(r, h, Preference(r, h)[i], Preference(r, h)[j])
  {
    var w, t := Preference(r, h), Rotation(r.points, h);
    var a := DedupOrder(Walk(r, h), i, j);
    RotationMember(r.points, h, t[a]);
    forall q | q in r.owner && r.owner[q] == w[j]
      ensures Clockwise(h, t[a]) < Clockwise(h, q)
    {
      RotationMember(r.points, h, q);
      var b :| 0 <= b < |t| && t[b] == q;
      assert Walk(r, h)[b] == w[j];
      RotationByDistance(r.points, h, a, b);
      DedupDistinct(Walk(r, h));
      assert t[a] != q;
    }
  }

  // The replica list holds every owner once, sorted by its nearest point.
  lemma PreferenceByDistance(r: RingState, h: Point)
    requires r.Valid()
    ensures var w := Preference(r, h);
            && Distinct(w)
            && (forall a :: a in w <==> a in r.owner.Values)
            && (forall i, j :: 0 <= i < j < |w| ==> Precedes(r, h, w[i], w[j]))
  {
    var w := Preference(r, h);
    DedupDistinct(Walk(r, h));
    forall a ensures a in w <==> a in r.owner.Values { PreferenceMember(r, h, a); }
    forall i, j | 0 <= i < j < |w| ensures Precedes(r, h, w[i], w[j]) {
      PreferenceOrder(r, h, i, j);
    }
  }

  lemma PreferenceSize(r: RingState, h: Point)
    requires r.Valid()
    ensures |Preference(r, h)| == |r.owner.Values|
  {
    var w := Preference(r, h);
    DedupDistinct(Walk(r, h));
    SetOfDistinct(w);
    assert (set a | a in w) == r.owner.Values by {
      forall a ensures a in w <==> a in r.owner.Values { PreferenceMember(r, h, a); }
    }
  }

  lemma {:induction false} SortedListsAgree(r: RingState, h: Point, w: seq<string>, v: seq<string>)
    requires Distinct(w) && Distinct(v)
    requires forall a :: a in w <==> a in v
    requires forall i, j :: 0 <= i < j < |w| ==> Precedes(r, h, w[i], w[j])
    requires forall i, j :: 0 <= i < j < |v| ==> Precedes(r, h, v[i], v[j])
    ensures w == v
  {
    if w == [] {
      NonEmptyHasMember(v);
    } else {
      assert w[0] in v;
      assert v[0] in w;
      var i :| 0 <= i < |v| && v[i] == w[0];
      var j :| 0 <= j < |w| && w[j] == v[0];
      assert w[0] == v[0];
      forall a ensures a in w[1..] <==> a in v[1..] {
        assert a in w <==> a == w[0] || a in w[1..];
        assert a in v <==> a == v[0] || a in v[1..];
      }
      SortedListsAgree(r, h, w[1..], v[1..]);
      assert w == [w[0]] + w[1..] && v == [v[0]] + v[1..];
    }
  }

  // A list of the owners that is sorted this way is the replica list.
  lemma PreferenceUnique(r: RingState, h: Point, w: seq<string>)
    requires r.Valid() && Distinct(w)
    requires forall a :: a in w <==> a in r.owner.Values
    requires forall i, j :: 0 <= i < j < |w| ==> Precedes(r, h, w[i], w[j])
    ensures w == Preference(r, h)
  {
    PreferenceByDistance(r, h);
    SortedListsAgree(r, h, w, Preference(r, h));
  }

  // ----- Removing a node -----

  function AtOrAfter(h: Point): Point -> bool { p => h <= p }

  function Before(h: Point): Point -> bool { p => p < h }

  lemma SplitAt(a: seq<Point>, b: seq<Point>, h: Point)
    requires forall p :: p in a ==> p < h
    requires forall p :: p in b ==> h <= p
    ensures Filter(AtOrAfter(h), a + b) == b && Filter(Before(h), a + b) == a
  {
    FilterConcat(AtOrAfter(h), a, b);
    FilterConcat(Before(h), a, b);
    FilterNone(AtOrAfter(h), a);
    FilterAll(AtOrAfter(h), b);
    FilterAll(Before(h), a);
    FilterNone(Before(h), b);
  }

  lemma RotationAsFilters(s: seq<Point>, h: Point)
    requires Ascending(s)
    ensures Rotation(s, h) == Filter(AtOrAfter(h), s) + Filter(Before(h), s)
  {
    var k := Search(s, h, 0, |s|);
    assert s == s[..k] + s[k..];
    assert forall p :: p in s[..k] ==> p < h;
    assert forall p :: p in s[k..] ==> h <= p;
    SplitAt(s[..k], s[k..], h);
  }

  lemma RotationFilter(keep: Point -> bool, s: seq<Point>, h: Point)
    requires Ascending(s)
    ensures Ascending(Filter(keep, s))
    ensures Rotation(Filter(keep, s), h) == Filter(keep, Rotation(s, h))
  {
    FilterAscending(keep, s);
    RotationAsFilters(s, h);
    RotationAsFilters(Filter(keep, s), h);
    FilterConcat(keep, Filter(AtOrAfter(h), s), Filter(Before(h), s));
    FilterCommutes(keep, AtOrAfter(h), s);
    FilterCommutes(keep, Before(h), s);
  }

  lemma {:induction false} OwnersFilter(r: RingState, node: string, ps: seq<Point>)
    requires forall p :: p in ps ==> p in r.owner
    ensures var kept := Filter(NotOwnedBy(r.owner, node), ps);
            && (forall p :: p in kept ==> p in RemoveNode(r, node).owner)
            && Owners(RemoveNode(r, node).owner, kept) == Filter(Not(node), Owners(r.owner, ps))
  {
    if ps != [] {
      OwnersFilter(r, node, Front(ps));
      var kept := Filter(NotOwnedBy(r.owner, node), Front(ps));
      if r.owner[Last(ps)] != node {
        assert Front(kept + [Last(ps)]) == kept;
      }
      assert Front(Owners(r.owner, ps)) == Owners(r.owner, Front(ps));
    }
  }

  // Removing a node strikes it from every replica list and moves nothing else.
  lemma RemovalFiltersPreference(r: RingState, node: string, h: Point)
    requires r.Valid()
    ensures RemoveNode(r, node).Valid()
    ensures Preference(RemoveNode(r, node), h) == Filter(Not(node), Preference(r, h))
  {
    RemoveNodeValid(r, node);
    RotationFilter(NotOwnedBy(r.owner, node), r.points, h);
    forall p | p in Rotation(r.points, h) ensures p in r.owner {
      RotationMember(r.points, h, p);
    }
    OwnersFilter(r, node, Rotation(r.points, h));
    DedupFilter(Not(node), Walk(r, h));
  }

  lemma {:induction false} DedupHead<T>(s: seq<T>)
    requires s != []
    ensures Dedup(s) != [] && Dedup(s)[0] == s[0]
  {
    if |s| > 1 { DedupHead(Front(s)); }
  }

  lemma PrimaryHeadsPreference(r: RingState, h: Point)
    requires r.Valid()
    ensures Preference(r, h) == [] <==> r.points == []
    ensures r.points != [] ==> Preference(r, h)[0] == Primary(r, h)
  {
    if r.points != [] { DedupHead(Walk(r, h)); }
  }

  // Keys of other nodes stay; keys of the removed node go to the next in line.
  lemma RemovalPromotesSecondary(r: RingState, node: string, h: Point)
    requires r.Valid() && RemoveNode(r, node).Valid()
    ensures var w := Preference(r, h);
            Primary(RemoveNode(r, node), h)
            == if w == [] || (|w| == 1 && w[0] == node) then ""
               else if w[0] == node then w[1]
               else w[0]
  {
    var w := Preference(r, h);
    RemovalFiltersPreference(r, node, h);
    PrimaryHeadsPreference(r, h);
    PrimaryHeadsPreference(RemoveNode(r, node), h);
    if w != [] {
      DedupDistinct(Walk(r, h));
      assert w == [w[0]] + w[1..];
      FilterConcat(Not(node), [w[0]], w[1..]);
      assert Filter(Not(node), [w[0]]) == if w[0] == node then [] else [w[0]];
      if w[0] == node {
        FilterAll(Not(node), w[1..]);
      }
    }
  }

  // What GetN answers for n: distinct nodes, as many as n allows, Get's answer
  // first, and every shorter answer a prefix of every longer one.
  lemma ReplicaList(r: RingState, h: Point, n: nat, m: nat)
    requires r.Valid() && n <= m
    ensures var list := Take(Preference(r, h), n);
            && Distinct(list)
            && |list| == (if n < |r.owner.Values| then n else |r.owner.Values|)
            && list <= Take(Preference(r, h), m)
            && (list != [] ==> list[0] == Primary(r, h))
  {
    DedupDistinct(Walk(r, h));
    PrimaryHeadsPreference(r, h);
    PreferenceSize(r, h);
  }

  // ----- Adding a node -----

  // A new node only ever takes keys: no key moves between old nodes, whatever
  // points collide.
  lemma AddMovesKeysOnlyToNewNode(r: RingState, ps: seq<Point>, node: string, h: Point)
    requires r.Valid() && AddNode(r, ps, node).Valid()
    ensures Primary(AddNode(r, ps, node), h) in {node, Primary(r, h)}
  {
    var r' := AddNode(r, ps, node);
    if r'.points != [] {
      var t := Rotation(r'.points, h);
      RotationMember(r'.points, h, t[0]);
      if t[0] !in ps {
        forall q | q in r.owner ensures Clockwise(h, t[0]) <= Clockwise(h, q) {
          RotationMember(r'.points, h, q);
          var i :| 0 <= i < |t| && t[i] == q;
          RotationByDistance(r'.points, h, 0, i);
        }
        PrimaryIsNearest(r, h, t[0]);
      }
    } else {
      assert forall p :: p in r.points ==> p in r'.owner;
      assert r.points == [];
    }
  }

  lemma OwnersAfterAddRemove(r: RingState, ps: seq<Point>, node: string)
    ensures RemoveNode(AddNode(r, ps, node), node).owner == r.owner
            <==> node !in r.owner.Values && forall p :: p in ps ==> p !in r.owner
  {
    var claimed := Claim(r.owner, ps, node);
    var back := RemoveNode(AddNode(r, ps, node), node).owner;
    assert forall p :: p in back <==> p in claimed && claimed[p] != node;
    assert forall p :: p in back <==> p in r.owner && p !in ps && r.owner[p] != node;
    assert forall p :: p in back ==> back[p] == r.owner[p];
    assert forall p :: p in r.owner && r.owner[p] == node ==> node in r.owner.Values;
  }

  lemma {:induction false} InsertFilter(keep: Point -> bool, p: Point, s: seq<Point>)
    requires Ascending(s) && Ascending(Filter(keep, s))
    ensures Filter(keep, Insert(p, s))
            == if keep(p) then Insert(p, Filter(keep, s)) else Filter(keep, s)
  {
    var t := Filter(keep, s);
    if s == [] || Last(s) <= p {
      FilterSnoc(keep, s, p);
      if t != [] { FilterMember(keep, s, Last(t)); }
    } else {
      var front := Front(s);
      FilterAscending(keep, front);
      InsertFilter(keep, p, front);
      FilterSnoc(keep, Insert(p, front), Last(s));
      if keep(Last(s)) {
        assert Front(t) == Filter(keep, front);
      } else {
        assert t == Filter(keep, front);
      }
    }
  }

  lemma {:induction false} SortFilter(keep: Point -> bool, s: seq<Point>)
    ensures Filter(keep, Sort(s)) == Sort(Filter(keep, s))
  {
    if s != [] {
      var front := Front(s);
      SortFilter(keep, front);
      FilterAscending(keep, Sort(front));
      InsertFilter(keep, Last(s), Sort(front));
      if keep(Last(s)) {
        assert Filter(keep, s) == Filter(keep, front) + [Last(s)];
        assert Front(Filter(keep, s)) == Filter(keep, front);
      } else {
        assert Filter(keep, s) == Filter(keep, front);
      }
    }
  }

  lemma {:induction false} SortAscending(s: seq<Point>)
    requires Ascending(s)
    ensures Sort(s) == s
  {
    if s != [] { SortAscending(Front(s)); }
  }

  lemma PointsAfterAddRemove(r: RingState, ps: seq<Point>, node: string)
    requires r.Valid() && node !in r.owner.Values
    requires forall p :: p in ps ==> p !in r.owner
    ensures RemoveNode(AddNode(r, ps, node), node).points == r.points
  {
    var keep := NotOwnedBy(AddNode(r, ps, node).owner, node);
    SortFilter(keep, r.points + ps);
    FilterConcat(keep, r.points, ps);
    FilterAll(keep, r.points);
    FilterNone(keep, ps);
    assert Filter(keep, r.points + ps) == r.points;
    SortAscending(r.points);
  }

  // Exactly the nodes that are new and touch no existing point leave no trace.
  lemma AddThenRemoveRestores(r: RingState, ps: seq<Point>, node: string)
    requires r.Valid()
    ensures RemoveNode(AddNode(r, ps, node), node) == r
            <==> node !in r.owner.Values && forall p :: p in ps ==> p !in r.owner
  {
    OwnersAfterAddRemove(r, ps, node);
    if node !in r.owner.Values && forall p :: p in ps ==> p !in r.owner {
      PointsAfterAddRemove(r, ps, node);
    }
  }

  // Adding a member once more, as happens when a node hears of its own join,
  // repeats its points and changes no replica list.
  lemma AddingAgainChangesNothing(r: RingState, ps: seq<Point>, node: string, h: Point)
    requires r.Valid()
    requires forall p :: p in ps ==> p in r.owner && r.owner[p] == node
    ensures AddNode(r, ps, node).Valid()
    ensures Preference(AddNode(r, ps, node), h) == Preference(r, h)
  {
    AddNodeValid(r, ps, node);
    var r' := AddNode(r, ps, node);
    assert r'.owner == r.owner;
    PreferenceByDistance(r', h);
    PreferenceUnique(r, h, Preference(r', h));
  }

  // The owner of the point at p itself, or of the first one after it.
  lemma NearestFrom(r: RingState, p: Point) returns (q: Point)
    requires r.Valid() && r.points != []
    ensures q in r.owner && Primary(r, p) == r.owner[q]
    ensures forall x :: x in r.owner ==> Clockwise(p, q) <= Clockwise(p, x)
  {
    var t := Rotation(r.points, p);
    assert Walk(r, p)[0] == r.owner[t[0]] by { RotationMember(r.points, p, t[0]); }
    q := t[0];
    RotationMember(r.points, p, q);
    forall x | x in r.owner ensures Clockwise(p, q) <= Clockwise(p, x) {
      RotationMember(r.points, p, x);
      var i :| 0 <= i < |t| && t[i] == x;
      RotationByDistance(r.points, p, 0, i);
    }
  }

  // Going on from p to q passes no point b that lies beyond p.
  lemma PassesNone(h: Point, p: Point, q: Point, b: Point)
    requires Clockwise(h, p) < Clockwise(h, b) && Clockwise(p, q) < Clockwise(p, b)
    ensures Clockwise(h, q) < Clockwise(h, b)
  {
  }

  lemma OnePointPerDistance(h: Point, p: Point, q: Point)
    ensures Clockwise(h, p) == Clockwise(h, q) <==> p == q
  {
  }

  // Every point in ps already leads to the node.
  ghost predicate LeadsTo(r: RingState, ps: seq<Point>, node: string)
    requires r.Valid()
  {
    forall p :: p in ps ==> Primary(r, p) == node
  }

  // Old points keep their owners, and new ones are the node's.
  lemma OldOwnersStay(r: RingState, ps: seq<Point>, node: string)
    requires r.Valid() && r.points != [] && LeadsTo(r, ps, node)
    ensures var r' := AddNode(r, ps, node);
            && (forall p :: p in r.owner ==> p in r'.owner && r'.owner[p] == r.owner[p])
            && (forall p :: p in r'.owner && p !in r.owner ==> p in ps && r'.owner[p] == node)
  {
    forall p | p in ps && p in r.owner ensures r.owner[p] == node {
      var q := NearestFrom(r, p);
      assert Clockwise(p, p) == 0;
      OnePointPerDistance(p, p, q);
    }
  }

  lemma SameOwners(r: RingState, ps: seq<Point>, node: string, a: string)
    requires r.Valid() && r.points != [] && LeadsTo(r, ps, node)
    ensures a in AddNode(r, ps, node).owner.Values <==> a in r.owner.Values
  {
    var r' := AddNode(r, ps, node);
    OldOwnersStay(r, ps, node);
    if a in r.owner.Values {
      var p :| p in r.owner && r.owner[p] == a;
      assert r'.owner[p] == a;
    }
    if a in r'.owner.Values {
      var p :| p in r'.owner && r'.owner[p] == a;
      var q := p;
      if p !in r.owner { q := NearestFrom(r, p); }
      assert r.owner[q] == a;
    }
  }

  lemma StillPrecedes(r: RingState, ps: seq<Point>, node: string, h: Point, a: string, b: string)
    requires r.Valid() && r.points != [] && LeadsTo(r, ps, node) && a != b
    requires Precedes(AddNode(r, ps, node), h, a, b)
    ensures Precedes(r, h, a, b)
  {
    var r' := AddNode(r, ps, node);
    OldOwnersStay(r, ps, node);
    var p :| p in r'.owner && r'.owner[p] == a
             && forall q :: q in r'.owner && r'.owner[q] == b ==> Clockwise(h, p) < Clockwise(h, q);
    var p' := p;
    if p !in r.owner { p' := NearestFrom(r, p); }
    forall q | q in r.owner && r.owner[q] == b ensures Clockwise(h, p') < Clockwise(h, q) {
      assert r'.owner[q] == b;
      if p !in r.owner {
        OnePointPerDistance(p, p', q);
        PassesNone(h, p, p', q);
      }
    }
    assert r.owner[p'] == a;
  }

  lemma SameLists(r: RingState, ps: seq<Point>, node: string, h: Point)
    requires r.Valid() && r.points != [] && LeadsTo(r, ps, node) && AddNode(r, ps, node).Valid()
    ensures Preference(AddNode(r, ps, node), h) == Preference(r, h)
  {
    var r' := AddNode(r, ps, node);
    var w := Preference(r', h);
    PreferenceByDistance(r', h);
    forall a ensures a in w <==> a in r.owner.Values { SameOwners(r, ps, node, a); }
    forall i, j | 0 <= i < j < |w| ensures Precedes(r, h, w[i], w[j]) {
      assert w[i] != w[j];
      StillPrecedes(r, ps, node, h, w[i], w[j]);
    }
    PreferenceUnique(r, h, w);
  }

  // Adding a node once more changes no replica list exactly when each of its points
  // leads to it already.  A member that lost a point to another node takes it back.
  lemma AddingAgainExactly(r: RingState, ps: seq<Point>, node: string)
    requires r.Valid() && r.points != []
    ensures AddNode(r, ps, node).Valid()
    ensures (forall h :: Preference(AddNode(r, ps, node), h) == Preference(r, h)) <==> LeadsTo(r, ps, node)
  {
    AddNodeValid(r, ps, node);
    var r' := AddNode(r, ps, node);
    if LeadsTo(r, ps, node) {
      forall h ensures Preference(r', h) == Preference(r, h) { SameLists(r, ps, node, h); }
    }
    if forall h :: Preference(r', h) == Preference(r, h) {
      forall p | p in ps ensures Primary(r, p) == node {
        assert Preference(r', p) == Preference(r, p);
        assert p in r'.owner && r'.owner[p] == node && Clockwise(p, p) == 0;
        PrimaryIsNearest(r', p, p);
        PrimaryHeadsPreference(r, p);
        PrimaryHeadsPreference(r', p);
      }
    }
  }

  // ----- The ring object -----

  // Nodes join one after the other; the object sorts only once at the end.
  function AddNodes(r: RingState, hash: Hash, replicas: nat, nodes: seq<string>): RingState {
    if nodes == [] then r
    else
      AddNode(AddNodes(r, hash, replicas, Front(nodes)),
              VirtualPoints(hash, replicas, Last(nodes)), Last(nodes))
  }

  lemma {:induction false} AddNodesValid(r: RingState, hash: Hash, replicas: nat, nodes: seq<string>)
    requires r.Valid()
    ensures AddNodes(r, hash, replicas, nodes).Valid()
  {
    if nodes != [] {
      AddNodesValid(r, hash, replicas, Front(nodes));
      AddNodeValid(AddNodes(r, hash, replicas, Front(nodes)),
                   VirtualPoints(hash, replicas, Last(nodes)), Last(nodes));
    }
  }

  // Sorting a part early does not matter.
  lemma {:induction false} SortConcat(s: seq<Point>, t: seq<Point>)
    ensures Sort(Sort(s) + t) == Sort(s + t)
  {
    if t == [] {
      SortAscending(Sort(s));
      assert s + t == s && Sort(s) + t == Sort(s);
    } else {
      SortConcat(s, Front(t));
      assert Front(s + t) == s + Front(t) && Last(s + t) == Last(t);
      assert Front(Sort(s) + t) == Sort(s) + Front(t) && Last(Sort(s) + t) == Last(t);
      assert Sort(s + t) == Insert(Last(t), Sort(s + Front(t)));
      assert Sort(Sort(s) + t) == Insert(Last(t), Sort(Sort(s) + Front(t)));
    }
  }

  lemma AddNodesStep(r0: RingState, hash: Hash, replicas: nat, nodes: seq<string>, j: nat,
                     before: RingState, after: RingState)
    requires j < |nodes|
    requires RingState(Sort(before.points), before.owner) == AddNodes(r0, hash, replicas, nodes[..j])
    requires var ps := VirtualPoints(hash, replicas, nodes[j]);
             after == RingState(before.points + ps, Claim(before.owner, ps, nodes[j]))
    ensures RingState(Sort(after.points), after.owner) == AddNodes(r0, hash, replicas, nodes[..j + 1])
  {
    SortConcat(before.points, VirtualPoints(hash, replicas, nodes[j]));
    assert Front(nodes[..j + 1]) == nodes[..j];
  }

  lemma WrapAround(i: nat, n: nat)
    requires 0 < n && i < 2 * n
    ensures i % n == if i < n then i else i - n
  {
    if i >= n { assert i == (i - n) + 1 * n; }
  }

  lemma RotationIndex(s: seq<Point>, h: Point, i: nat)
    requires Ascending(s) && i < |s|
    ensures Rotation(s, h)[i] == s[(Search(s, h, 0, |s|) + i) % |s|]
  {
    WrapAround(Search(s, h, 0, |s|) + i, |s|);
  }

  // Step i of the walk is at the owner of the point i places after index k.
  ghost predicate Visits(r: RingState, k: nat, walk: seq<string>, i: nat) {
    && i < |walk| == |r.points|
    && r.points[(k + i) % |r.points|] in r.owner
    && walk[i] == r.owner[r.points[(k + i) % |r.points|]]
  }

  ghost predicate GoesRound(r: RingState, k: nat, walk: seq<string>) {
    |walk| == |r.points| && forall i :: 0 <= i < |walk| ==> Visits(r, k, walk, i)
  }

  lemma WalkIndex(r: RingState, h: Point, i: nat)
    requires r.Valid() && i < |r.points|
    ensures Visits(r, Search(r.points, h, 0, |r.points|), Walk(r, h), i)
  {
    RotationIndex(r.points, h, i);
  }

  lemma WalkGoesRound(r: RingState, h: Point)
    requires r.Valid()
    ensures GoesRound(r, Search(r.points, h, 0, |r.points|), Walk(r, h))
  {
    forall i | 0 <= i < |Walk(r, h)| ensures Visits(r, Search(r.points, h, 0, |r.points|), Walk(r, h), i) {
      WalkIndex(r, h, i);
    }
  }

  // The first i steps of a walk, keeping every owner the first time it is met.
  function Collect<T(==)>(w: seq<T>, i: nat): seq<T>
    requires i <= |w|
  {
    if i == 0 then []
    else
      var before := Collect(w, i - 1);
      if w[i - 1] in before then before else before + [w[i - 1]]
  }

  lemma {:induction false} CollectIsDedup<T>(w: seq<T>, i: nat)
    requires i <= |w|
    ensures Collect(w, i) == Dedup(w[..i])
  {
    if i > 0 {
      CollectIsDedup(w, i - 1);
      assert Front(w[..i]) == w[..i - 1];
      DedupMember(w[..i - 1], w[i - 1]);
    }
  }

  lemma CollectedPrefix<T>(w: seq<T>, i: nat, n: nat)
    requires i <= |w| && |Collect(w, i)| <= n
    requires i == |w| || |Collect(w, i)| == n
    ensures Collect(w, i) == Take(Dedup(w), n)
  {
    CollectIsDedup(w, i);
    DedupPrefix(w, i);
    assert w[..|w|] == w;
  }

  lemma ClaimNext(owner: map<Point, string>, hash: Hash, i: nat, node: string)
    ensures var ps, h := VirtualPoints(hash, i, node), hash(Decimal.Itoa(i) + node);
            && VirtualPoints(hash, i + 1, node) == ps + [h]
            && Claim(owner, VirtualPoints(hash, i + 1, node), node) == Claim(owner, ps, node)[h := node]
  {
    var ps := VirtualPoints(hash, i, node);
    assert Front(VirtualPoints(hash, i + 1, node)) == ps;
  }

  class Ring {
    const hash: Hash
    const replicas: int
    var keys: seq<Point>
    var hashMap: map<Point, string>

    ghost function State(): RingState
      reads this
    {
      RingState(keys, hashMap)
    }

    // A negative replica count runs the loop in Add zero times, like 0.
    function Replicas(): nat {
      if replicas < 0 then 0 else replicas
    }

    constructor (replicas: int, hash: Hash)
      ensures State() == RingState([], map[]) && State().Valid()
      ensures this.replicas == replicas && this.hash == hash
    {
      this.replicas := replicas;
      this.hash := hash;
      keys := [];
      hashMap := map[];
    }

    method Add(nodes: seq<string>)
      requires State().Valid()
      modifies this
      ensures State().Valid()
      ensures State() == AddNodes(old(State()), hash, Replicas(), nodes)
    {
      ghost var r0 := State();
      SortAscending(keys);
      for j := 0 to |nodes|
        invariant RingState(Sort(keys), hashMap) == AddNodes(r0, hash, Replicas(), nodes[..j])
      {
        ghost var before := RingState(keys, hashMap);
        AddReplicas(nodes[j]);
        AddNodesStep(r0, hash, Replicas(), nodes, j, before, State());
      }
      assert nodes[..|nodes|] == nodes;
      AddNodesValid(r0, hash, Replicas(), nodes);
      keys := Sort(keys);
    }

    // The inner loop of Add: the points of one node, not yet sorted in.
    method AddReplicas(node: string)
      modifies this
      ensures keys == old(keys) + VirtualPoints(hash, Replicas(), node)
      ensures hashMap == Claim(old(hashMap), VirtualPoints(hash, Replicas(), node), node)
    {
      for i := 0 to Replicas()
        invariant hashMap == Claim(old(hashMap), VirtualPoints(hash, i, node), node)
        invariant keys == old(keys) + VirtualPoints(hash, i, node)
      {
        var h := hash(Decimal.Itoa(i) + node);
        assert old(keys) + VirtualPoints(hash, i, node) + [h] == old(keys) + (VirtualPoints(hash, i, node) + [h]);
        keys := keys + [h];
        hashMap := hashMap[h := node];
        ClaimNext(old(hashMap), hash, i, node);
      }
    }

    method Get(key: string) returns (node: string)
      requires State().Valid()
      ensures node == Primary(State(), hash(key))
    {
      if |keys| == 0 {
        return "";
      }
      var idx := Search(keys, hash(key), 0, |keys|);
      RotationIndex(keys, hash(key), 0);
      node := hashMap[keys[idx % |keys|]];
    }

    // n is a count: a negative one makes the allocation of the result panic.
    method GetN(key: string, n: nat) returns (result: seq<string>)
      requires State().Valid()
      ensures result == Take(Preference(State(), hash(key)), n)
    {
      if |keys| == 0 {
        return [];
      }
      var idx := Search(keys, hash(key), 0, |keys|);
      WalkGoesRound(State(), hash(key));
      result := Gather(idx, n, Walk(State(), hash(key)));
    }

    // The loop of GetN, which starts at index idx and goes round once.
    method Gather(idx: nat, n: nat, ghost walk: seq<string>) returns (result: seq<string>)
      requires GoesRound(State(), idx, walk)
      ensures result == Take(Dedup(walk), n)
    {
      result := [];
      var seen: set<string> := {};
      var i := 0;
      while i < |keys| && |result| < n
        invariant 0 <= i <= |keys|
        invariant result == Collect(walk, i) && |result| <= n
        invariant forall a :: a in seen <==> a in result
      {
        assert Visits(State(), idx, walk, i);
        var addr := hashMap[keys[(idx + i) % |keys|]];
        if addr !in seen {
          seen := seen + {addr};
          result := result + [addr];
        }
        i := i + 1;
      }
      CollectedPrefix(walk, i, n);
    }

    method Remove(addr: string)
      requires State().Valid()
      modifies this
      ensures State().Valid()
      ensures State() == RemoveNode(old(State()), addr)
    {
      ghost var r := State();
      RemoveNodeValid(r, addr);
      var newKeys: seq<Point> := [];
      for i := 0 to |keys|
        invariant newKeys == Filter(NotOwnedBy(r.owner, addr), keys[..i])
      {
        assert Front(keys[..i + 1]) == keys[..i];
        if hashMap[keys[i]] != addr {
          newKeys := newKeys + [keys[i]];
        }
      }
      assert keys[..|keys|] == keys;
      keys := newKeys;
      Disown(addr);
    }

    // The second loop of Remove.
    method Disown(addr: string)
      modifies this`hashMap
      ensures hashMap == map p | p in old(hashMap) && old(hashMap)[p] != addr :: old(hashMap)[p]
    {
      ghost var owner := hashMap;
      var todo := hashMap.Keys;
      while todo != {}
        invariant todo <= owner.Keys
        invariant hashMap == map p | p in owner && (p in todo || owner[p] != addr) :: owner[p]
      {
        var h :| h in todo;
        if hashMap[h] == addr {
          hashMap := hashMap - {h};
        }
        todo := todo - {h};
      }
    }
  }
}
