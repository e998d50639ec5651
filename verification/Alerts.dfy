/** notify/alerts.go: the Warn rows of a report, each with the host it is attributed to. */
module Alerts {
  import opened Model
  import opened Strings

  datatype AlertItem = AlertItem(host: string, field: string, value: string, threshold: string)

  /** `hostByField` after one host's rows. */
  function Claim(m: map<string, string>, ip: string, checks: seq<CheckResult>): map<string, string> {
    if checks == [] then m
    else Claim(m, ip, checks[..|checks| - 1])[checks[|checks| - 1].field := ip]
  }

  /** `hostByField` after all hosts: a later host takes a field over from an earlier one. */
  function HostByField(hosts: seq<HostChecks>): map<string, string> {
    if hosts == [] then map[]
    else
      var last := hosts[|hosts| - 1];
      Claim(HostByField(hosts[..|hosts| - 1]), last.ip, last.checks)
  }

  predicate Lists(h: HostChecks, field: string) {
    exists j :: 0 <= j < |h.checks| && h.checks[j].field == field
  }

  lemma {:induction false} ClaimSays(m: map<string, string>, ip: string, checks: seq<CheckResult>, f: string)
    ensures f in Claim(m, ip, checks) <==> f in m || Lists(HostChecks(ip, checks), f)
    ensures f in Claim(m, ip, checks) ==>
              Claim(m, ip, checks)[f] == if Lists(HostChecks(ip, checks), f) then ip else m[f]
  {
    if checks != [] {
      var n := |checks| - 1;
      ClaimSays(m, ip, checks[..n], f);
      assert checks == checks[..n] + [checks[n]];
      if Lists(HostChecks(ip, checks[..n]), f) {
        var j :| 0 <= j < n && checks[..n][j].field == f;
        assert checks[j].field == f;
      }
      if Lists(HostChecks(ip, checks), f) && checks[n].field != f {
        var j :| 0 <= j < |checks| && checks[j].field == f;
        assert checks[..n][j].field == f;
      }
      if checks[n].field == f {
        assert HostChecks(ip, checks).checks[n].field == f;
      }
    }
  }

  /** `owner` is the last host that lists `field`. */
  predicate LastListing(hosts: seq<HostChecks>, field: string, owner: int) {
    0 <= owner < |hosts| && Lists(hosts[owner], field)
    && forall j :: owner < j < |hosts| ==> !Lists(hosts[j], field)
  }

  /** A field is attributed to the last host that lists it ... */
  lemma {:induction false} LastHostWins(hosts: seq<HostChecks>, f: string, i: int)
    requires LastListing(hosts, f, i)
    ensures f in HostByField(hosts) && HostByField(hosts)[f] == hosts[i].ip
  {
    var n := |hosts| - 1;
    var last := hosts[n];
    ClaimSays(HostByField(hosts[..n]), last.ip, last.checks, f);
    assert last == HostChecks(last.ip, last.checks);
    if i < n {
      assert hosts[..n][i] == hosts[i];
      LastHostWins(hosts[..n], f, i);
    }
  }

  /** ... and to no host when none does. */
  lemma {:induction false} NoHostNoClaim(hosts: seq<HostChecks>, f: string)
    requires forall i :: 0 <= i < |hosts| ==> !Lists(hosts[i], f)
    ensures f !in HostByField(hosts)
  {
    if hosts != [] {
      var n := |hosts| - 1;
      var last := hosts[n];
      ClaimSays(HostByField(hosts[..n]), last.ip, last.checks, f);
      assert last == HostChecks(last.ip, last.checks);
      NoHostNoClaim(hosts[..n], f);
    }
  }

  method BuildHostByField(hosts: seq<HostChecks>) returns (m: map<string, string>)
    ensures m == HostByField(hosts)
  {
    m := map[];
    for i := 0 to |hosts|
      invariant m == HostByField(hosts[..i])
    {
      assert hosts[..i + 1][..i] == hosts[..i];
      var h := hosts[i];
      for j := 0 to |h.checks|
        invariant m == Claim(HostByField(hosts[..i]), h.ip, h.checks[..j])
      {
        assert h.checks[..j + 1][..j] == h.checks[..j];
        m := m[h.checks[j].field := h.ip];
      }
      assert h.checks[..|h.checks|] == h.checks;
    }
    assert hosts[..|hosts|] == hosts;
  }

  /** Go's map read: the zero value, the empty host, for a field no host lists. */
  function HostAt(m: map<string, string>, field: string): string {
    if field in m then m[field] else ""
  }

  function ToAlert(m: map<string, string>, c: CheckResult): AlertItem {
    AlertItem(HostAt(m, c.field), c.field, c.value, c.threshold)
  }

  /** The Warn rows in report order, as alerts. */
  function WarnItems(m: map<string, string>, checks: seq<CheckResult>): seq<AlertItem> {
    if checks == [] then []
    else
      var n := |checks| - 1;
      WarnItems(m, checks[..n]) + (if checks[n].status == Warn then [ToAlert(m, checks[n])] else [])
  }

  function Extracted(hosts: seq<HostChecks>, checks: seq<CheckResult>): seq<AlertItem> {
    WarnItems(HostByField(hosts), checks)
  }

  /** The alert of a row: field, value and threshold are the row's own, and the host is the last one that
      lists the field, or empty. */
  ghost predicate AlertOfRow(it: AlertItem, c: CheckResult, hosts: seq<HostChecks>) {
    && it.field == c.field && it.value == c.value && it.threshold == c.threshold
    && (forall k: int :: LastListing(hosts, c.field, k) ==> it.host == hosts[k].ip)
    && ((forall k :: 0 <= k < |hosts| ==> !Lists(hosts[k], c.field)) ==> it.host == "")
  }

  /** As many alerts as Warn rows, and the one for each Warn row at its place among them. */
  ghost predicate AlertsOfRows(items: seq<AlertItem>, hosts: seq<HostChecks>, checks: seq<CheckResult>) {
    && |items| == CountStatus(checks, Warn)
    && forall i :: 0 <= i < |checks| && checks[i].status == Warn ==>
         CountStatus(checks[..i], Warn) < |items| && AlertOfRow(items[CountStatus(checks[..i], Warn)], checks[i], hosts)
  }

  lemma AlertIsOfRow(hosts: seq<HostChecks>, c: CheckResult)
    ensures AlertOfRow(ToAlert(HostByField(hosts), c), c, hosts)
  {
    forall k: int | LastListing(hosts, c.field, k)
      ensures ToAlert(HostByField(hosts), c).host == hosts[k].ip
    {
      LastHostWins(hosts, c.field, k);
    }
    if forall k :: 0 <= k < |hosts| ==> !Lists(hosts[k], c.field) {
      NoHostNoClaim(hosts, c.field);
    }
  }

  /** What is extracted, row by row. */
  lemma {:induction false} ExtractedRowByRow(hosts: seq<HostChecks>, checks: seq<CheckResult>)
    ensures AlertsOfRows(Extracted(hosts, checks), hosts, checks)
  {
    if checks != [] {
      var n := |checks| - 1;
      ExtractedRowByRow(hosts, checks[..n]);
      AlertIsOfRow(hosts, checks[n]);
      var before, items := Extracted(hosts, checks[..n]), Extracted(hosts, checks);
      forall i | 0 <= i < |checks| && checks[i].status == Warn
        ensures CountStatus(checks[..i], Warn) < |items|
        ensures AlertOfRow(items[CountStatus(checks[..i], Warn)], checks[i], hosts)
      {
        if i < n {
          assert checks[..n][..i] == checks[..i] && checks[..n][i] == checks[i];
          assert items[CountStatus(checks[..i], Warn)] == before[CountStatus(checks[..i], Warn)];
        }
      }
    }
  }

  method ExtractAlerts(report: InspectReport?) returns (items: seq<AlertItem>)
    ensures items == if report == null then [] else Extracted(report.hosts, report.allChecks)
    ensures report != null ==> AlertsOfRows(items, report.hosts, report.allChecks)
  {
    if report == null {
      return [];
    }
    ExtractedRowByRow(report.hosts, report.allChecks);
    var hostByField := BuildHostByField(report.hosts);
    items := [];
    for i := 0 to |report.allChecks|
      invariant items == WarnItems(hostByField, report.allChecks[..i])
    {
      assert report.allChecks[..i + 1][..i] == report.allChecks[..i];
      var c := report.allChecks[i];
      if c.status != Warn {
        continue;
      }
      var host := HostAt(hostByField, c.field);
      items := items + [AlertItem(host, c.field, c.value, c.threshold)];
    }
    assert report.allChecks[..|report.allChecks|] == report.allChecks;
  }

  function WarnAlerts(m: map<string, string>, checks: seq<CheckResult>): set<AlertItem> {
    set c | c in checks && c.status == Warn :: ToAlert(m, c)
  }

  lemma WarnAlertsStep(m: map<string, string>, checks: seq<CheckResult>, c: CheckResult)
    ensures WarnAlerts(m, checks + [c]) == WarnAlerts(m, checks) + (if c.status == Warn then {ToAlert(m, c)} else {})
  {
    assert forall x :: x in checks + [c] <==> x in checks || x == c;
  }

  /** The set of Warn rows decides the set of alerts. */
  lemma {:induction false} WarnItemsAsSet(m: map<string, string>, checks: seq<CheckResult>)
    ensures Elements(WarnItems(m, checks)) == WarnAlerts(m, checks)
  {
    if checks != [] {
      var before, c := checks[..|checks| - 1], checks[|checks| - 1];
      WarnItemsAsSet(m, before);
      WarnAlertsStep(m, before, c);
      assert before + [c] == checks;
      ElementsSnoc(WarnItems(m, before), ToAlert(m, c));
      assert WarnItems(m, before) + [] == WarnItems(m, before);
    }
  }

  /** As many alerts as Warn rows. */
  lemma {:induction false} WarnItemsCount(m: map<string, string>, checks: seq<CheckResult>)
    ensures |WarnItems(m, checks)| == CountStatus(checks, Warn)
  {
    if checks != [] {
      WarnItemsCount(m, checks[..|checks| - 1]);
    }
  }
}
