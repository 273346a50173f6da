// The text the cluster manager reads and writes: node addresses, slot lists and
// the lines of CLUSTER NODES (cluster/data/types.go, cluster/data/parse.go,
// cluster/utils/utils.go).
module ClusterText {
  import opened Basics
  import opened Decimal
  import opened SlotPlanner
  import Rebalance

  // ----- strings.Split on one character, and its inverse -----

  function Split(s: string, c: char): (r: seq<string>)
    ensures r != []
  {
    if s == [] then [[]]
    else
      var r := Split(Front(s), c);
      if Last(s) == c then r + [[]] else Front(r) + [Last(r) + [Last(s)]]
  }

  function Join(parts: seq<string>, c: char): string
    requires parts != []
  {
    if |parts| == 1 then parts[0] else Join(Front(parts), c) + [c] + Last(parts)
  }

  ghost predicate Without(parts: seq<string>, c: char) {
    forall i :: 0 <= i < |parts| ==> c !in parts[i]
  }

  lemma JoinSnoc(parts: seq<string>, last: string, more: string, c: char)
    ensures Join(parts + [last + more], c) == Join(parts + [last], c) + more
  {
    if parts != [] {
      assert Front(parts + [last + more]) == parts == Front(parts + [last]);
      assert Join(parts, c) + [c] + (last + more) == Join(parts, c) + [c] + last + more;
    }
  }

  lemma WithoutSnoc(r: seq<string>, x: char, c: char)
    requires r != [] && Without(r, c) && x != c
    ensures Without(Front(r) + [Last(r) + [x]], c)
  {
    assert c !in r[|r| - 1];
  }

  lemma {:induction false} JoinInvertsSplit(s: string, c: char)
    ensures Join(Split(s, c), c) == s && Without(Split(s, c), c)
  {
    if s != [] {
      JoinInvertsSplit(Front(s), c);
      var r := Split(Front(s), c);
      assert r == Front(r) + [Last(r)];
      assert s == Front(s) + [Last(s)];
      if Last(s) == c {
        assert Front(r + [[]]) == r;
      } else {
        JoinSnoc(Front(r), Last(r), [Last(s)], c);
        WithoutSnoc(r, Last(s), c);
      }
    }
  }

  lemma SplitNext(s: string, x: char, c: char, front: seq<string>, last: string)
    requires x != c && Split(s, c) == front + [last]
    ensures Split(s + [x], c) == front + [last + [x]]
  {
    assert Front(s + [x]) == s;
    assert Front(front + [last]) == front;
  }

  lemma {:induction false} SplitConcat(s: string, t: string, c: char)
    requires c !in t
    ensures Split(s + t, c) == Front(Split(s, c)) + [Last(Split(s, c)) + t]
  {
    var front, last := Front(Split(s, c)), Last(Split(s, c));
    if t == [] {
      assert s + t == s && last + t == last;
    } else {
      assert t == Front(t) + [Last(t)];
      SplitConcat(s, Front(t), c);
      SplitNext(s + Front(t), Last(t), c, front, last + Front(t));
      assert s + Front(t) + [Last(t)] == s + t && last + Front(t) + [Last(t)] == last + t;
    }
  }

  lemma SplitAppend(s: string, t: string, c: char)
    requires c !in t
    ensures Split(s + [c] + t, c) == Split(s, c) + [t]
  {
    assert Front(s + [c]) == s;
    assert Split(s + [c], c) == Split(s, c) + [[]];
    SplitConcat(s + [c], t, c);
    assert [] + t == t;
  }

  lemma {:induction false} SplitInvertsJoin(parts: seq<string>, c: char)
    requires parts != [] && Without(parts, c)
    ensures Split(Join(parts, c), c) == parts
  {
    if |parts| == 1 {
      SplitConcat([], parts[0], c);
      assert [] + parts[0] == parts[0];
    } else {
      assert Without(Front(parts), c) by {
        assert forall i :: 0 <= i < |Front(parts)| ==> Front(parts)[i] == parts[i];
      }
      SplitInvertsJoin(Front(parts), c);
      assert c !in parts[|parts| - 1];
      SplitAppend(Join(Front(parts), c), Last(parts), c);
    }
  }

  // ----- host:port -----

  function ParseIPPort(s: string): (string, string) {
    var parts := Split(s, ':');
    if |parts| == 2 then (parts[0], parts[1]) else ("", "")
  }

  // It splits exactly the texts that have one colon.
  lemma ParseIPPortExact(s: string, host: string, port: string)
    requires (host, port) != ("", "")
    ensures ParseIPPort(s) == (host, port) <==> s == host + ":" + port && ':' !in host && ':' !in port
  {
    if ParseIPPort(s) == (host, port) {
      JoinInvertsSplit(s, ':');
      assert Split(s, ':') == [host, port];
      assert Front([host, port]) == [host];
      assert ':' !in Split(s, ':')[0] && ':' !in Split(s, ':')[1];
    }
    if s == host + ":" + port && ':' !in host && ':' !in port {
      assert Front([host, port]) == [host];
      assert Join([host, port], ':') == host + [':'] + port;
      SplitInvertsJoin([host, port], ':');
    }
  }

  function StringToUint16(s: string): Option<nat> {
    match Atoi(s)
    case None => None
    case Some(n) => if n < 0 || n > 65535 then None else Some(n)
  }

  function ClusterMeetAddr(hostname: string, conIp: string, conPort: nat): string {
    (if hostname != "" then hostname else conIp) + ":" + Itoa(conPort)
  }

  // What sendMeetCommands sends for a node, or None when it skips the node.
  function MeetTarget(hostname: string, conIp: string, conPort: nat): Option<(string, string)> {
    var (host, port) := ParseIPPort(ClusterMeetAddr(hostname, conIp, conPort));
    if host == "" then None
    else
      match StringToUint16(port)
      case None => None
      case Some(n) => Some((host, Itoa(n)))
  }

  lemma PortRoundTrip(port: nat)
    ensures StringToUint16(Itoa(port)) == if port <= 65535 then Some(port) else None
    ensures ':' !in Itoa(port) && ' ' !in Itoa(port) && '@' !in Itoa(port) && '-' !in Itoa(port)
  {
    AtoiInvertsItoa(port);
    assert AllDigits(Itoa(port));
  }

  // A text with two colons is not host:port.
  lemma TwoColons(a: string, b: string, h: string, p: string)
    requires ':' in a && ':' !in h && ':' !in p
    ensures a + ":" + b != h + ":" + p
  {
    var s, t := a + ":" + b, h + ":" + p;
    var i :| 0 <= i < |a| && a[i] == ':';
    assert s[i] == ':' && s[|a|] == ':';
    assert forall k :: 0 <= k < |t| && t[k] == ':' ==> k == |h|;
  }

  // The node is met at its own host and port exactly when the host has a name
  // without colons; otherwise, as with an IPv6 address, the node is skipped.
  lemma MeetReachesTheNode(hostname: string, conIp: string, conPort: nat)
    requires conPort <= 65535
    ensures var host := if hostname != "" then hostname else conIp;
            MeetTarget(hostname, conIp, conPort) ==
            if host != "" && ':' !in host then Some((host, Itoa(conPort))) else None
  {
    var host := if hostname != "" then hostname else conIp;
    PortRoundTrip(conPort);
    var addr := ClusterMeetAddr(hostname, conIp, conPort);
    assert addr == host + ":" + Itoa(conPort);
    ParseIPPortExact(addr, host, Itoa(conPort));
    if ':' in host {
      var (h, p) := ParseIPPort(addr);
      if h != "" {
        ParseIPPortExact(addr, h, p);
        TwoColons(host, Itoa(conPort), h, p);
        assert false;
      }
    }
  }

  // ----- Slot lists: "a" or "a-b" -----

  function ParseRange(s: string): Option<SlotRange> {
    var parts := Split(s, '-');
    if |parts| != 2 then None
    else
      match (Atoi(parts[0]), Atoi(parts[1]))
      case (Some(start), Some(end)) => Some(SlotRange(start, end))
      case _ => None
  }

  function ParseToken(s: string): Option<SlotRange> {
    if '-' in s then ParseRange(s)
    else
      match Atoi(s)
      case Some(slot) => Some(SlotRange(slot, slot))
      case None => None
  }

  // The ranges of all tokens, or None when one of them is malformed.
  function Ranges(tokens: seq<string>): Option<seq<SlotRange>> {
    if tokens == [] then Some([])
    else
      match (Ranges(Front(tokens)), ParseToken(Last(tokens)))
      case (Some(rs), Some(r)) => Some(rs + [r])
      case _ => None
  }

  lemma {:induction false} RangesFail(tokens: seq<string>, i: nat)
    requires i < |tokens| && ParseToken(tokens[i]).None?
    ensures Ranges(tokens) == None
  {
    if i < |tokens| - 1 { RangesFail(Front(tokens), i); }
  }

  method ParseSlots(tokens: seq<string>) returns (r: Option<seq<SlotRange>>)
    ensures r == Ranges(tokens)
  {
    var slots := [];
    for i := 0 to |tokens|
      invariant Ranges(tokens[..i]) == Some(slots)
    {
      assert Front(tokens[..i + 1]) == tokens[..i];
      var range := ParseToken(tokens[i]);
      if range.None? {
        RangesFail(tokens, i);
        return None;
      }
      slots := slots + [range.value];
    }
    assert tokens[..|tokens|] == tokens;
    return Some(slots);
  }

  predicate Printable(r: SlotRange) {
    0 <= r.start <= MAX_INT && 0 <= r.end <= MAX_INT
  }

  // How CLUSTER NODES writes a range.
  function PrintRange(r: SlotRange): string
    requires Printable(r)
  {
    if r.start == r.end then Itoa(r.start) else Itoa(r.start) + "-" + Itoa(r.end)
  }

  lemma SplitPair(a: string, b: string, c: char)
    requires c !in a && c !in b
    ensures Split(a + [c] + b, c) == [a, b] && c in a + [c] + b
  {
    SplitInvertsJoin([a], c);
    SplitAppend(a, b, c);
    assert (a + [c] + b)[|a|] == c;
  }

  lemma DashSplits(a: nat, b: nat)
    ensures Split(Itoa(a) + "-" + Itoa(b), '-') == [Itoa(a), Itoa(b)]
    ensures '-' in Itoa(a) + "-" + Itoa(b)
  {
    PortRoundTrip(a);
    PortRoundTrip(b);
    SplitPair(Itoa(a), Itoa(b), '-');
  }

  lemma RangeRoundTrip(r: SlotRange)
    requires Printable(r)
    ensures ParseToken(PrintRange(r)) == Some(r)
  {
    AtoiInvertsItoa(r.start);
    if r.start == r.end {
      PortRoundTrip(r.start);
    } else {
      AtoiInvertsItoa(r.end);
      DashSplits(r.start, r.end);
    }
  }

  lemma NoSpaceInRange(r: SlotRange)
    requires Printable(r)
    ensures ' ' !in PrintRange(r)
  {
    PortRoundTrip(r.start);
    PortRoundTrip(r.end);
  }

  predicate AllPrintable(rs: seq<SlotRange>) {
    rs == [] || (AllPrintable(Front(rs)) && Printable(Last(rs)))
  }

  function PrintRanges(rs: seq<SlotRange>): seq<string>
    requires AllPrintable(rs)
  {
    if rs == [] then [] else PrintRanges(Front(rs)) + [PrintRange(Last(rs))]
  }

  lemma RangesSnoc(tokens: seq<string>, token: string, rs: seq<SlotRange>, r: SlotRange)
    requires Ranges(tokens) == Some(rs) && ParseToken(token) == Some(r)
    ensures Ranges(tokens + [token]) == Some(rs + [r])
  {
    assert Front(tokens + [token]) == tokens;
  }

  lemma FrontAndLast<T>(s: seq<T>)
    requires s != []
    ensures Front(s) + [Last(s)] == s
  {
  }

  // Reading back what was printed gives the ranges, for every list of ranges.
  lemma {:induction false} SlotsRoundTrip(rs: seq<SlotRange>)
    requires AllPrintable(rs)
    ensures Ranges(PrintRanges(rs)) == Some(rs)
  {
    if rs != [] {
      SlotsRoundTrip(Front(rs));
      RangeRoundTrip(Last(rs));
      RangesSnoc(PrintRanges(Front(rs)), PrintRange(Last(rs)), Front(rs), Last(rs));
      FrontAndLast(rs);
    }
  }

  lemma {:induction false} NoSpaceInRanges(rs: seq<SlotRange>)
    requires AllPrintable(rs)
    ensures Without(PrintRanges(rs), ' ')
  {
    if rs != [] {
      NoSpaceInRanges(Front(rs));
      NoSpaceInRange(Last(rs));
    }
  }

  // No token denotes a negative slot: a minus sign is read as the dash of a range.
  lemma NeverNegative(token: string)
    ensures ParseToken(token).Some? ==> ParseToken(token).value.start >= 0 && ParseToken(token).value.end >= 0
  {
    if '-' in token && ParseToken(token).Some? {
      JoinInvertsSplit(token, '-');
      var parts := Split(token, '-');
      assert '-' !in parts[0] && '-' !in parts[1];
    }
  }

  // A slot on its way, as in [93->-<id>] or [93-<-<id>], is no token at all.
  lemma SlotsOnTheWayFail(token: string)
    requires token != [] && token[0] == '['
    ensures ParseToken(token) == None
  {
    if '-' in token {
      JoinInvertsSplit(token, '-');
      var parts := Split(token, '-');
      if |parts| == 2 {
        assert Front(parts) == [parts[0]];
        assert token == parts[0] + "-" + parts[1];
        assert parts[0] != [] ==> parts[0][0] == '[';
      }
    }
  }

  // The lengths of the first k ranges, added up.
  function Lengths(slots: seq<SlotRange>, k: nat): int
    requires k <= |slots|
  {
    if k == 0 then 0 else Lengths(slots, k - 1) + slots[k - 1].end - slots[k - 1].start + 1
  }

  method CalculateSlots(slots: seq<SlotRange>) returns (total: int)
    ensures total == Lengths(slots, |slots|)
  {
    total := 0;
    for i := 0 to |slots|
      invariant total == Lengths(slots, i)
    {
      total := total + slots[i].end - slots[i].start + 1;
    }
  }

  ghost predicate Forward(slots: seq<SlotRange>, k: nat)
    requires k <= |slots|
  {
    forall i :: 0 <= i < k ==> slots[i].start <= slots[i].end
  }

  // No two of the first k ranges share a slot.
  ghost predicate Apart(slots: seq<SlotRange>, k: nat)
    requires k <= |slots|
  {
    k == 0 || (Apart(slots, k - 1) && Interval(slots[k - 1].start, slots[k - 1].end) !! Covered(slots, k - 1))
  }

  ghost predicate Tally(slots: seq<SlotRange>, k: nat, total: int)
    requires k <= |slots|
  {
    Forward(slots, k) ==>
      total >= |Covered(slots, k)| && (total == |Covered(slots, k)| <==> Apart(slots, k))
  }

  lemma CoverOneMore(slots: seq<SlotRange>, k: nat)
    requires 0 < k <= |slots| && slots[k - 1].start <= slots[k - 1].end
    ensures var r, before := slots[k - 1], Covered(slots, k - 1);
            && |Covered(slots, k)| <= |before| + (r.end - r.start + 1)
            && (|Covered(slots, k)| == |before| + (r.end - r.start + 1) <==> Interval(r.start, r.end) !! before)
  {
    var range, before := Interval(slots[k - 1].start, slots[k - 1].end), Covered(slots, k - 1);
    Rebalance.IntervalSize(slots[k - 1].start, slots[k - 1].end);
    assert |before + range| == |before| + |range| - |before * range|;
    assert range !! before <==> |before * range| == 0;
  }

  lemma TallyNext(slots: seq<SlotRange>, k: nat, total: int)
    requires 0 < k <= |slots| && Tally(slots, k - 1, total)
    ensures Tally(slots, k, total + slots[k - 1].end - slots[k - 1].start + 1)
  {
    if Forward(slots, k) {
      assert Forward(slots, k - 1);
      CoverOneMore(slots, k);
    }
  }

  // If no range is reversed the total is at least the number of slots denoted, and
  // exactly this number when no two ranges share a slot.
  lemma {:induction false} LengthsCountSlots(slots: seq<SlotRange>, k: nat)
    requires k <= |slots|
    ensures Tally(slots, k, Lengths(slots, k))
  {
    if k > 0 {
      LengthsCountSlots(slots, k - 1);
      TallyNext(slots, k, Lengths(slots, k - 1));
    }
  }

  // The planner's tally counts reversed ranges as empty; it agrees with this sum
  // exactly when none is reversed by more than one.
  lemma {:induction false} LengthsAndTotal(slots: seq<SlotRange>, k: nat)
    requires k <= |slots|
    ensures Lengths(slots, k) <= Rebalance.Total(slots, k)
    ensures Lengths(slots, k) == Rebalance.Total(slots, k)
            <==> forall i :: 0 <= i < k ==> slots[i].start <= slots[i].end + 1
  {
    if k > 0 { LengthsAndTotal(slots, k - 1); }
  }

  // A reversed range is read without complaint and counted below zero.
  lemma ReversedRangeIsRead()
    ensures ParseToken("5-3") == Some(SlotRange(5, 3))
    ensures Covered([SlotRange(5, 3)], 1) == {} && Lengths([SlotRange(5, 3)], 1) == -1
  {
    assert Lengths([SlotRange(5, 3)], 0) == 0;
    RangeRoundTrip(SlotRange(5, 3));
    assert Itoa(5) == "5" && Itoa(3) == "3";
    assert "5" + "-" + "3" == "5-3";
    assert Covered([SlotRange(5, 3)], 0) == {};
  }

  // ----- CLUSTER NODES -----

  datatype NodeInfo = NodeInfo(id: string, ip: string, port: nat, isMaster: bool,
                               masterId: string, link: string, slots: seq<SlotRange>)

  datatype Verdict = Skipped | Down(id: string) | Listed(node: NodeInfo)

  predicate Occurs(s: string, part: string, i: int) {
    0 <= i <= |s| - |part| && s[i..i + |part|] == part
  }

  predicate Contains(s: string, part: string) {
    exists i :: 0 <= i <= |s| && Occurs(s, part, i)
  }

  function Describe(id: string, ip: string, port: nat, flags: string, masterId: string, link: string,
                    tokens: seq<string>): Verdict
  {
    var isMaster := Contains(flags, "master");
    var slots := if isMaster then Ranges(tokens) else Some([]);
    if slots.None? then Skipped else Listed(NodeInfo(id, ip, port, isMaster, masterId, link, slots.value))
  }

  function ReadAt(addr: (string, string), fields: seq<string>, wanted: string -> bool): Verdict
    requires |fields| >= 8
  {
    var (ip, port) := addr;
    if ip == "" || !wanted(ip) || StringToUint16(port).None? then Skipped
    else Describe(fields[0], ip, StringToUint16(port).value, fields[2], fields[3], fields[7], fields[8..])
  }

  function ReadFields(fields: seq<string>, wanted: string -> bool): Verdict
    requires |fields| >= 8
  {
    if Contains(fields[2], "fail") then Down(fields[0])
    else ReadAt(ParseIPPort(Split(fields[1], '@')[0]), fields, wanted)
  }

  // What one line comes to.  wanted is the filter on addresses.
  function ReadLine(line: string, wanted: string -> bool): Verdict {
    var fields := Split(line, ' ');
    if line == [] || |fields| < 8 then Skipped else ReadFields(fields, wanted)
  }

  // A line as the server prints it: address, client port, whatever follows the
  // "@", and the fields that are not read.
  datatype Shown = Shown(node: NodeInfo, bus: string, flags: string, ping: string, pong: string, epoch: string) {

    ghost predicate Valid() {
      && Without([node.id, node.ip, bus, flags, node.masterId, ping, pong, epoch, node.link], ' ')
      && '@' !in node.ip
      && (bus == [] || bus[0] == '@')
      && AllPrintable(node.slots)
      && (node.isMaster <==> Contains(flags, "master"))
      && (!node.isMaster ==> node.slots == [])
    }
  }

  function Fields(s: Shown, slots: seq<string>): seq<string> {
    [s.node.id, s.node.ip + ":" + Itoa(s.node.port) + s.bus, s.flags, s.node.masterId, s.ping, s.pong, s.epoch,
     s.node.link] + slots
  }

  lemma {:induction false} SplitKeepsHead(s: string, t: string, c: char)
    requires |Split(s, c)| > 1
    ensures |Split(s + t, c)| > 1 && Split(s + t, c)[0] == Split(s, c)[0]
  {
    if t == [] {
      assert s + t == s;
    } else {
      SplitKeepsHead(s, Front(t), c);
      assert Front(s + t) == s + Front(t);
    }
  }

  lemma HeadOfOne(a: string, c: char)
    requires c !in a
    ensures Split(a, c) == [a]
  {
    SplitInvertsJoin([a], c);
  }

  lemma HeadBeforeSeparator(a: string, c: char, rest: string)
    requires c !in a
    ensures Split(a + [c] + rest, c)[0] == a
  {
    HeadOfOne(a, c);
    SplitAppend(a, [], c);
    assert a + [c] + [] == a + [c];
    SplitKeepsHead(a + [c], rest, c);
  }

  // The text before the first "@", or all of it.
  lemma HeadBeforeAt(a: string, bus: string)
    requires '@' !in a && (bus == [] || bus[0] == '@')
    ensures Split(a + bus, '@')[0] == a
  {
    if bus == [] {
      assert a + bus == a;
      HeadOfOne(a, '@');
    } else {
      HeadBeforeSeparator(a, '@', bus[1..]);
      assert a + ['@'] + bus[1..] == a + bus;
    }
  }

  // An address that can be read: a host without colons and a 16-bit port.
  predicate Usable(ip: string, port: nat) {
    ip != "" && ':' !in ip && port <= 65535
  }

  lemma AddressRead(ip: string, port: nat, bus: string)
    requires '@' !in ip && (bus == [] || bus[0] == '@')
    ensures ParseIPPort(Split(ip + ":" + Itoa(port) + bus, '@')[0]) == if ':' in ip then ("", "") else (ip, Itoa(port))
    ensures StringToUint16(Itoa(port)) == if port <= 65535 then Some(port) else None
  {
    PortRoundTrip(port);
    var addr := ip + ":" + Itoa(port);
    HeadBeforeAt(addr, bus);
    ParseIPPortExact(addr, ip, Itoa(port));
    if ':' in ip {
      var (h, p) := ParseIPPort(addr);
      if (h, p) != ("", "") {
        ParseIPPortExact(addr, h, p);
        TwoColons(ip, Itoa(port), h, p);
        assert false;
      }
    }
  }

  lemma LineSplits(s: Shown, slots: seq<string>)
    requires s.Valid() && Without(slots, ' ')
    ensures Split(Join(Fields(s, slots), ' '), ' ') == Fields(s, slots) && Join(Fields(s, slots), ' ') != []
  {
    var texts := [s.node.id, s.node.ip, s.bus, s.flags, s.node.masterId, s.ping, s.pong, s.epoch, s.node.link];
    assert forall i :: 0 <= i < |texts| ==> ' ' !in texts[i];
    assert ' ' !in texts[0] && ' ' !in texts[1] && ' ' !in texts[2] && ' ' !in texts[3] && ' ' !in texts[4];
    assert ' ' !in texts[5] && ' ' !in texts[6] && ' ' !in texts[7] && ' ' !in texts[8];
    PortRoundTrip(s.node.port);
    var fields := Fields(s, slots);
    assert Without(fields, ' ');
    SplitInvertsJoin(fields, ' ');
    assert Split([], ' ') == [[]];
  }

  lemma ReadAtAddress(ip: string, port: nat, fields: seq<string>, wanted: string -> bool)
    requires |fields| >= 8 && StringToUint16(Itoa(port)) == if port <= 65535 then Some(port) else None
    ensures ReadAt(if ':' in ip then ("", "") else (ip, Itoa(port)), fields, wanted) ==
            if !Usable(ip, port) || !wanted(ip) then Skipped
            else Describe(fields[0], ip, port, fields[2], fields[3], fields[7], fields[8..])
  {
  }

  lemma FieldsAre(s: Shown, slots: seq<string>)
    requires s.Valid()
    ensures var fields, n := Fields(s, slots), s.node;
            && |fields| == 8 + |slots| && fields[8..] == slots
            && fields[0] == n.id && fields[1] == n.ip + ":" + Itoa(n.port) + s.bus && fields[2] == s.flags
            && fields[3] == n.masterId && fields[7] == n.link
  {
  }

  lemma FieldsAreRead(s: Shown, slots: seq<string>, wanted: string -> bool)
    requires s.Valid()
    ensures var n := s.node;
            ReadFields(Fields(s, slots), wanted) ==
            if Contains(s.flags, "fail") then Down(n.id)
            else if !Usable(n.ip, n.port) || !wanted(n.ip) then Skipped
            else Describe(n.id, n.ip, n.port, s.flags, n.masterId, n.link, slots)
  {
    AddressRead(s.node.ip, s.node.port, s.bus);
    FieldsAre(s, slots);
    ReadAtAddress(s.node.ip, s.node.port, Fields(s, slots), wanted);
  }

  // A line with the given tokens is read as down, skipped or listed, and when it is
  // listed the node is the one shown.
  lemma LineIsRead(s: Shown, slots: seq<string>, wanted: string -> bool)
    requires s.Valid() && Without(slots, ' ')
    ensures ReadLine(Join(Fields(s, slots), ' '), wanted)
         == if Contains(s.flags, "fail") then Down(s.node.id)
            else if !Usable(s.node.ip, s.node.port) || !wanted(s.node.ip)
                    || (s.node.isMaster && Ranges(slots) == None) then Skipped
            else Listed(s.node.(slots := if s.node.isMaster then Ranges(slots).value else []))
  {
    LineSplits(s, slots);
    FieldsAreRead(s, slots, wanted);
  }

  ghost function Line(s: Shown): string
    requires s.Valid()
  {
    Join(Fields(s, PrintRanges(s.node.slots)), ' ')
  }

  // Reading back a line gives the node it shows, with its slots.
  lemma LineRoundTrip(s: Shown, wanted: string -> bool)
    requires s.Valid() && Usable(s.node.ip, s.node.port) && !Contains(s.flags, "fail") && wanted(s.node.ip)
    ensures ReadLine(Line(s), wanted) == Listed(s.node)
  {
    SlotsRoundTrip(s.node.slots);
    NoSpaceInRanges(s.node.slots);
    LineIsRead(s, PrintRanges(s.node.slots), wanted);
  }

  // While a slot is on its way, its master is missing from the result.
  lemma MigratingMasterIsMissing(s: Shown, slots: seq<string>, wanted: string -> bool, i: nat)
    requires s.Valid() && Without(slots, ' ') && s.node.isMaster && !Contains(s.flags, "fail")
    requires i < |slots| && slots[i] != [] && slots[i][0] == '['
    ensures ReadLine(Join(Fields(s, slots), ' '), wanted) == Skipped
  {
    SlotsOnTheWayFail(slots[i]);
    RangesFail(slots, i);
    LineIsRead(s, slots, wanted);
  }

  // A replica that must not be promoted counts as down.
  lemma NoFailoverCountsAsDown(s: Shown, wanted: string -> bool)
    requires s.Valid() && s.flags == "slave,nofailover"
    ensures ReadLine(Join(Fields(s, []), ' '), wanted) == Down(s.node.id)
  {
    assert Occurs(s.flags, "fail", 8);
    LineIsRead(s, [], wanted);
  }

  ghost function NodesIn(lines: seq<string>, wanted: string -> bool): seq<NodeInfo> {
    if lines == [] then []
    else
      var v := ReadLine(Last(lines), wanted);
      NodesIn(Front(lines), wanted) + if v.Listed? then [v.node] else []
  }

  ghost function DownIn(lines: seq<string>, wanted: string -> bool): seq<string> {
    if lines == [] then []
    else
      var v := ReadLine(Last(lines), wanted);
      DownIn(Front(lines), wanted) + if v.Down? then [v.id] else []
  }

  // The body of the loop.
  method ParseLine(line: string, wanted: string -> bool) returns (v: Verdict)
    ensures v == ReadLine(line, wanted)
  {
    if |line| == 0 {
      return Skipped;
    }
    var fields := Split(line, ' ');
    if |fields| < 8 {
      return Skipped;
    }
    if Contains(fields[2], "fail") {
      return Down(fields[0]);
    }
    var (ip, port) := ParseIPPort(Split(fields[1], '@')[0]);
    if ip == "" {
      return Skipped;
    }
    if !wanted(ip) {
      return Skipped;
    }
    var portUint16 := StringToUint16(port);
    if portUint16.None? {
      return Skipped;
    }
    var slots := [];
    var isMaster := Contains(fields[2], "master");
    if isMaster && |fields| > 8 {
      var parsed := ParseSlots(fields[8..]);
      if parsed.None? {
        return Skipped;
      }
      slots := parsed.value;
    }
    assert |fields| == 8 ==> Ranges(fields[8..]) == Some([]);
    return Listed(NodeInfo(fields[0], ip, portUint16.value, isMaster, fields[3], fields[7], slots));
  }

  method ParseClusterNodeLines(lines: seq<string>, wanted: string -> bool)
      returns (nodes: seq<NodeInfo>, failedIDs: seq<string>)
    ensures nodes == NodesIn(lines, wanted) && failedIDs == DownIn(lines, wanted)
  {
    nodes, failedIDs := [], [];
    for i := 0 to |lines|
      invariant nodes == NodesIn(lines[..i], wanted) && failedIDs == DownIn(lines[..i], wanted)
    {
      assert Front(lines[..i + 1]) == lines[..i];
      var verdict := ParseLine(lines[i], wanted);
      match verdict
      case Skipped =>
      case Down(id) => failedIDs := failedIDs + [id];
      case Listed(node) => nodes := nodes + [node];
    }
    assert lines[..|lines|] == lines;
  }

  ghost predicate Up(s: Shown, wanted: string -> bool) {
    s.Valid() && Usable(s.node.ip, s.node.port) && !Contains(s.flags, "fail") && wanted(s.node.ip)
  }

  ghost predicate AllUp(shown: seq<Shown>, wanted: string -> bool) {
    shown == [] || (AllUp(Front(shown), wanted) && Up(Last(shown), wanted))
  }

  ghost function Listing(shown: seq<Shown>, wanted: string -> bool): seq<string>
    requires AllUp(shown, wanted)
  {
    if shown == [] then [] else Listing(Front(shown), wanted) + [Line(Last(shown))]
  }

  function NodesOf(shown: seq<Shown>): seq<NodeInfo> {
    if shown == [] then [] else NodesOf(Front(shown)) + [Last(shown).node]
  }

  // A whole listing without failures is read back node by node, in order.
  lemma {:induction false} ListingRoundTrip(shown: seq<Shown>, wanted: string -> bool)
    requires AllUp(shown, wanted)
    ensures NodesIn(Listing(shown, wanted), wanted) == NodesOf(shown) && DownIn(Listing(shown, wanted), wanted) == []
  {
    if shown != [] {
      ListingRoundTrip(Front(shown), wanted);
      LineRoundTrip(Last(shown), wanted);
      assert Front(Listing(shown, wanted)) == Listing(Front(shown), wanted);
    }
  }
}
