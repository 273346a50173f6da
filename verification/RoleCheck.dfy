// The check that the cluster took the roles over: the topology is rebuilt from what
// the nodes report and compared with the roles handed out
// (cluster/model/manager.go).
module RoleCheck {
  import opened Basics
  import opened RoleLayout
  import opened ShardCutting

  datatype Report = Report(id: string, kind: string, master: string)

  function IsMaster(): Report -> bool {
    (r: Report) => r.kind == "master"
  }

  function IsSlave(): Report -> bool {
    (r: Report) => r.kind == "slave"
  }

  function Under(master: string): Report -> bool {
    (r: Report) => r.master == master
  }

  function Names(s: seq<Report>): (r: seq<string>)
    ensures |r| == |s| && forall i :: 0 <= i < |s| ==> r[i] == s[i].id
  {
    seq(|s|, i requires 0 <= i < |s| => s[i].id)
  }

  ghost predicate ReportsMaster(reports: seq<Report>, m: string) {
    exists r :: r in reports && r.kind == "master" && r.id == m
  }

  ghost predicate ReportsSlave(reports: seq<Report>, s: string, m: string) {
    exists r :: r in reports && r.kind == "slave" && r.id == s && r.master == m
  }

  // The nodes report the given roles, in any order, each node once.
  ghost predicate TakenOver(slavesOf: map<string, seq<string>>, reports: seq<Report>) {
    && Distinct(Names(reports))
    && (forall m :: m in slavesOf <==> ReportsMaster(reports, m))
    && (forall s, m :: ReportsSlave(reports, s, m) <==> m in slavesOf && s in slavesOf[m])
  }

  ghost predicate SameShape(a: map<string, seq<string>>, b: map<string, seq<string>>) {
    a.Keys == b.Keys && forall m :: m in a ==> |a[m]| == |b[m]|
  }

  // The topology read off the reports.
  ghost predicate ReadOff(reports: seq<Report>, slavesOf: map<string, seq<string>>) {
    && (forall m :: m in slavesOf <==> ReportsMaster(reports, m))
    && (forall m :: m in slavesOf ==> slavesOf[m] == Names(Filter(Under(m), Filter(IsSlave(), reports))))
  }

  method ClassifyNodesByType(reports: seq<Report>) returns (masters: seq<Report>, slaves: seq<Report>)
    ensures masters == Filter(IsMaster(), reports) && slaves == Filter(IsSlave(), reports)
  {
    masters, slaves := [], [];
    for i := 0 to |reports|
      invariant masters == Filter(IsMaster(), reports[..i]) && slaves == Filter(IsSlave(), reports[..i])
    {
      assert Front(reports[..i + 1]) == reports[..i];
      if reports[i].kind == "master" {
        masters := masters + [reports[i]];
      } else if reports[i].kind == "slave" {
        slaves := slaves + [reports[i]];
      }
    }
    assert reports[..|reports|] == reports;
  }

  lemma NamesSnoc(slaves: seq<Report>, i: nat)
    requires i < |slaves|
    ensures forall m :: Names(Filter(Under(m), slaves[..i + 1]))
                     == Names(Filter(Under(m), slaves[..i])) + (if slaves[i].master == m then [slaves[i].id] else [])
    ensures forall s :: s in slaves[..i + 1] <==> s in slaves[..i] || s == slaves[i]
  {
    assert Front(slaves[..i + 1]) == slaves[..i];
    assert slaves[..i + 1] == slaves[..i] + [slaves[i]];
    forall m ensures Names(Filter(Under(m), slaves[..i + 1]))
                  == Names(Filter(Under(m), slaves[..i])) + (if slaves[i].master == m then [slaves[i].id] else []) {
    }
  }

  // Fails exactly when a slave names a master that did not report as one.
  method BuildMasterSlaveTopology(masters: seq<Report>, slaves: seq<Report>)
      returns (r: Option<map<string, seq<string>>>)
    ensures r.None? <==> exists s :: s in slaves && s.master !in Names(masters)
    ensures r.Some? ==> forall m :: m in r.value <==> m in Names(masters)
    ensures r.Some? ==> forall m :: m in r.value ==> r.value[m] == Names(Filter(Under(m), slaves))
  {
    var slavesOf: map<string, seq<string>> := map[];
    for i := 0 to |masters|
      invariant forall m :: m in slavesOf <==> m in Names(masters[..i])
      invariant forall m :: m in slavesOf ==> slavesOf[m] == []
    {
      assert Names(masters[..i + 1]) == Names(masters[..i]) + [masters[i].id];
      slavesOf := slavesOf[masters[i].id := []];
    }
    assert masters[..|masters|] == masters;
    for i := 0 to |slaves|
      invariant forall m :: m in slavesOf <==> m in Names(masters)
      invariant forall m :: m in slavesOf ==> slavesOf[m] == Names(Filter(Under(m), slaves[..i]))
      invariant forall s :: s in slaves[..i] ==> s.master in Names(masters)
    {
      var slave := slaves[i];
      if slave.master !in slavesOf {
        assert slave in slaves;
        return None;
      }
      NamesSnoc(slaves, i);
      slavesOf := slavesOf[slave.master := slavesOf[slave.master] + [slave.id]];
    }
    assert slaves[..|slaves|] == slaves;
    return Some(slavesOf);
  }

  lemma SubsetOfSameSize<T>(a: set<T>, b: set<T>)
    requires a <= b && |a| == |b|
    ensures a == b
  {
    assert b == a + (b - a);
    assert |b - a| == 0;
  }

  // True exactly for the same masters with as many replicas each.
  method EqualClusterNodeType(a: map<string, seq<string>>, b: map<string, seq<string>>) returns (equal: bool)
    ensures equal <==> SameShape(a, b)
  {
    if |a| != |b| {
      return false;
    }
    var todo := a.Keys;
    while todo != {}
      invariant todo <= a.Keys
      invariant forall m :: m in a && m !in todo ==> m in b && |a[m]| == |b[m]|
    {
      var m :| m in todo;
      if m !in b || |a[m]| != |b[m]| {
        return false;
      }
      todo := todo - {m};
    }
    SubsetOfSameSize(a.Keys, b.Keys);
    return true;
  }

  // It does not look at who replicates whom: exchanged replicas pass.
  lemma ExchangedReplicasPass()
    ensures var a, b := map["m" := ["s"], "n" := ["t"]], map["m" := ["t"], "n" := ["s"]];
            SameShape(a, b) && a != b
  {
    var a, b := map["m" := ["s"], "n" := ["t"]], map["m" := ["t"], "n" := ["s"]];
    assert a["m"] == ["s"] && b["m"] == ["t"] && ["s"][0] != ["t"][0];
  }

  lemma {:induction false} DistinctReports(keep: Report -> bool, reports: seq<Report>)
    requires Distinct(Names(reports))
    ensures Distinct(Names(Filter(keep, reports)))
  {
    if reports != [] {
      var front, kept := Front(reports), Filter(keep, Front(reports));
      assert Names(reports) == Names(front) + [Last(reports).id];
      DistinctReports(keep, front);
      forall i | 0 <= i < |kept| ensures kept[i].id != Last(reports).id {
        FilterMember(keep, front, kept[i]);
        var j :| 0 <= j < |front| && front[j] == kept[i];
        assert Names(reports)[j] == kept[i].id;
      }
    }
  }

  // What the nodes report for a master are its replicas.
  lemma ReportedSlaves(reports: seq<Report>, m: string, s: string)
    ensures s in Names(Filter(Under(m), Filter(IsSlave(), reports))) <==> ReportsSlave(reports, s, m)
  {
    var slaves := Filter(IsSlave(), reports);
    var kept := Filter(Under(m), slaves);
    forall r ensures r in kept <==> r in reports && r.kind == "slave" && r.master == m {
      FilterMember(IsSlave(), reports, r);
      FilterMember(Under(m), slaves, r);
    }
    if s in Names(kept) {
      var i :| 0 <= i < |kept| && Names(kept)[i] == s;
      assert kept[i] in kept;
    }
    if ReportsSlave(reports, s, m) {
      var r :| r in kept && r.id == s;
      var i :| 0 <= i < |kept| && kept[i] == r;
      assert Names(kept)[i] == s;
    }
  }

  lemma SameMembersSameLength(a: seq<string>, b: seq<string>)
    requires Distinct(a) && Distinct(b) && forall x :: x in a <==> x in b
    ensures |a| == |b|
  {
    SetOfDistinct(a);
    SetOfDistinct(b);
    assert (set x | x in a) == (set x | x in b);
  }

  // Once the nodes report the given roles, the check passes, whatever the order of
  // the reports.
  lemma TakenOverPasses(slavesOf: map<string, seq<string>>, reports: seq<Report>, built: map<string, seq<string>>)
    requires TakenOver(slavesOf, reports) && ReadOff(reports, built)
    requires forall m :: m in slavesOf ==> Distinct(slavesOf[m])
    ensures SameShape(slavesOf, built)
  {
    forall m | m in slavesOf ensures m in built && |slavesOf[m]| == |built[m]| {
      DistinctReports(IsSlave(), reports);
      DistinctReports(Under(m), Filter(IsSlave(), reports));
      forall s ensures s in slavesOf[m] <==> s in built[m] {
        ReportedSlaves(reports, m, s);
        assert ReportsSlave(reports, s, m) <==> m in slavesOf && s in slavesOf[m];
      }
      SameMembersSameLength(slavesOf[m], built[m]);
    }
  }

  lemma ReportedMasters(reports: seq<Report>, masters: seq<Report>, m: string)
    requires masters == Filter(IsMaster(), reports)
    ensures m in Names(masters) <==> ReportsMaster(reports, m)
  {
    forall r ensures r in masters <==> r in reports && r.kind == "master" { FilterMember(IsMaster(), reports, r); }
    if m in Names(masters) {
      var i :| 0 <= i < |masters| && Names(masters)[i] == m;
      assert masters[i] in masters;
    }
    if ReportsMaster(reports, m) {
      var r :| r in masters && r.id == m;
      var i :| 0 <= i < |masters| && masters[i] == r;
      assert Names(masters)[i] == m;
    }
  }

  // One attempt of the check: rebuild the topology and compare.  It succeeds for
  // certain once the roles are taken over.
  method CheckNodeType(slavesOf: map<string, seq<string>>, reports: seq<Report>) returns (ok: bool)
    ensures ok ==> exists built :: ReadOff(reports, built) && SameShape(slavesOf, built)
    ensures TakenOver(slavesOf, reports) && (forall m :: m in slavesOf ==> Distinct(slavesOf[m])) ==> ok
  {
    var masters, slaves := ClassifyNodesByType(reports);
    var built := BuildMasterSlaveTopology(masters, slaves);
    forall m ensures m in Names(masters) <==> ReportsMaster(reports, m) { ReportedMasters(reports, masters, m); }
    if built.None? {
      ghost var s :| s in slaves && s.master !in Names(masters);
      FilterMember(IsSlave(), reports, s);
      assert ReportsSlave(reports, s.id, s.master);
      return false;
    }
    assert ReadOff(reports, built.value);
    ok := EqualClusterNodeType(slavesOf, built.value);
    if TakenOver(slavesOf, reports) && forall m :: m in slavesOf ==> Distinct(slavesOf[m]) {
      TakenOverPasses(slavesOf, reports, built.value);
    }
  }

  // The roles of the bootstrap layout pass the check once the nodes report them.
  lemma BootstrapPasses(answers: Answers, l: Layout, r: Roles, reports: seq<Report>, built: map<string, seq<string>>)
    requires l.Valid() && r.slavesOf == map[] && !Lay(answers, l, l.n, r).stopped
    requires TakenOver(Lay(answers, l, l.n, r).slavesOf, reports) && ReadOff(reports, built)
    ensures SameShape(Lay(answers, l, l.n, r).slavesOf, built)
  {
    var roles := Lay(answers, l, l.n, r).slavesOf;
    forall m | m in roles ensures Distinct(roles[m]) { NoReplicaTwice(answers, l, r, m); }
    TakenOverPasses(roles, reports, built);
  }

  // After a scale-out the check compares with the roles of old and new nodes
  // together, and passes once all of them report theirs.
  lemma ScaleOutPasses(olds: map<string, seq<string>>, ids: seq<string>, p: nat, s: nat,
                       reports: seq<Report>, built: map<string, seq<string>>)
    requires Distinct(ids) && |ids| == s * p
    requires forall m :: m in olds ==> m !in ids && Distinct(olds[m])
    requires TakenOver(Cut(olds, ids, p, |ids|).slavesOf, reports) && ReadOff(reports, built)
    ensures Cut(olds, ids, p, |ids|).slavesOf == olds + NewRoles(ids, p)
    ensures SameShape(Cut(olds, ids, p, |ids|).slavesOf, built)
  {
    OldRolesStay(olds, ids, p, |ids|);
    var roles := Cut(olds, ids, p, |ids|).slavesOf;
    forall m | m in roles ensures Distinct(roles[m]) {
      if m in NewRoles(ids, p) { NoNewReplicaTwice(ids, p, s, m); }
    }
    TakenOverPasses(roles, reports, built);
  }

  // Compared with the new roles alone it would fail in every cluster that has an old
  // master.
  lemma NewRolesAloneFail(ids: seq<string>, p: nat, s: nat, before: string, reports: seq<Report>,
                          built: map<string, seq<string>>)
    requires Distinct(ids) && |ids| == s * p && before !in ids
    requires ReportsMaster(reports, before) && ReadOff(reports, built)
    ensures !SameShape(NewRoles(ids, p), built) && !TakenOver(NewRoles(ids, p), reports)
  {
    if before in NewRoles(ids, p) { NoNewReplicaTwice(ids, p, s, before); }
    assert before in built.Keys;
  }
}
