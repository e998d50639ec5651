/** notify/notify.go: rows that wait for confirmation are shown as Notice, and the summary follows. */
module Demotion {
  import opened Alerts
  import opened Model
  import opened Persistence
  import opened StateFile
  import opened Strings

  /** A row attributed to `host`, after demotion. */
  function Demote(c: CheckResult, host: string, keys: set<string>): CheckResult {
    if c.status == Warn && PendingKey(host, c.field) in keys then c.(status := Notice) else c
  }

  function DemoteHost(h: HostChecks, keys: set<string>): HostChecks {
    h.(checks := seq(|h.checks|, j requires 0 <= j < |h.checks| => Demote(h.checks[j], h.ip, keys)))
  }

  function DemoteHosts(hosts: seq<HostChecks>, keys: set<string>): seq<HostChecks> {
    seq(|hosts|, i requires 0 <= i < |hosts| => DemoteHost(hosts[i], keys))
  }

  function DemoteRow(c: CheckResult, m: map<string, string>, keys: set<string>): CheckResult {
    Demote(c, HostAt(m, c.field), keys)
  }

  function DemoteRows(checks: seq<CheckResult>, m: map<string, string>, keys: set<string>): (r: seq<CheckResult>)
    ensures |r| == |checks|
  {
    seq(|checks|, i requires 0 <= i < |checks| => DemoteRow(checks[i], m, keys))
  }

  lemma {:induction false} ClaimIgnoresStatus(
      m: map<string, string>, ip: string, a: seq<CheckResult>, b: seq<CheckResult>)
    requires |a| == |b| && forall j :: 0 <= j < |a| ==> a[j].field == b[j].field
    ensures Claim(m, ip, a) == Claim(m, ip, b)
  {
    if a != [] {
      ClaimIgnoresStatus(m, ip, a[..|a| - 1], b[..|b| - 1]);
    }
  }

  /** Demotion does not move a field to another host. */
  lemma {:induction false} DemotionKeepsHosts(hosts: seq<HostChecks>, keys: set<string>)
    ensures HostByField(DemoteHosts(hosts, keys)) == HostByField(hosts)
  {
    if hosts != [] {
      var n := |hosts| - 1;
      DemotionKeepsHosts(hosts[..n], keys);
      assert DemoteHosts(hosts, keys)[..n] == DemoteHosts(hosts[..n], keys);
      ClaimIgnoresStatus(HostByField(hosts[..n]), hosts[n].ip, hosts[n].checks, DemoteHost(hosts[n], keys).checks);
    }
  }

  lemma DemotingNothing(hosts: seq<HostChecks>, checks: seq<CheckResult>, m: map<string, string>)
    ensures DemoteHosts(hosts, {}) == hosts
    ensures DemoteRows(checks, m, {}) == checks
  {
    forall i | 0 <= i < |hosts|
      ensures DemoteHosts(hosts, {})[i] == hosts[i]
    {
      assert DemoteHost(hosts[i], {}).checks == hosts[i].checks;
    }
  }

  // ---- demotion, row by row ----

  /** A Warn row that waits for confirmation becomes Notice; nothing else about a row changes. */
  predicate RowDemoted(before: CheckResult, after: CheckResult, waits: bool) {
    && after.field == before.field && after.value == before.value && after.threshold == before.threshold
    && after.status == if before.status == Warn && waits then Notice else before.status
  }

  /** A row in a host's own table waits if that host and its field do. */
  ghost predicate HostDemoted(before: HostChecks, after: HostChecks, keys: set<string>) {
    && after.ip == before.ip && |after.checks| == |before.checks|
    && forall j :: 0 <= j < |before.checks| ==>
         RowDemoted(before.checks[j], after.checks[j], before.ip + "|" + before.checks[j].field in keys)
  }

  ghost predicate HostsDemoted(before: seq<HostChecks>, after: seq<HostChecks>, keys: set<string>) {
    |after| == |before| && forall i :: 0 <= i < |before| ==> HostDemoted(before[i], after[i], keys)
  }

  /** A row of the whole report waits if the last host that lists its field and the field do. */
  ghost predicate ReportRowDemoted(
    before: CheckResult, after: CheckResult, hosts: seq<HostChecks>, keys: set<string>)
  {
    && (forall k: int :: LastListing(hosts, before.field, k) ==>
          RowDemoted(before, after, hosts[k].ip + "|" + before.field in keys))
    && ((forall k :: 0 <= k < |hosts| ==> !Lists(hosts[k], before.field)) ==>
          RowDemoted(before, after, "|" + before.field in keys))
  }

  ghost predicate RowsDemoted(
    before: seq<CheckResult>, after: seq<CheckResult>, hosts: seq<HostChecks>, keys: set<string>)
  {
    |after| == |before| && forall i :: 0 <= i < |before| ==> ReportRowDemoted(before[i], after[i], hosts, keys)
  }

  lemma ReportRowIsDemoted(c: CheckResult, hosts: seq<HostChecks>, keys: set<string>)
    ensures ReportRowDemoted(c, DemoteRow(c, HostByField(hosts), keys), hosts, keys)
  {
    forall k: int | LastListing(hosts, c.field, k)
      ensures HostAt(HostByField(hosts), c.field) == hosts[k].ip
    {
      LastHostWins(hosts, c.field, k);
    }
    if forall k :: 0 <= k < |hosts| ==> !Lists(hosts[k], c.field) {
      NoHostNoClaim(hosts, c.field);
      assert "" + "|" + c.field == "|" + c.field;
    }
  }

  /** What demotion does to the host tables and to the rows of the report. */
  lemma DemotedRowByRow(hosts: seq<HostChecks>, checks: seq<CheckResult>, keys: set<string>)
    ensures HostsDemoted(hosts, DemoteHosts(hosts, keys), keys)
    ensures RowsDemoted(checks, DemoteRows(checks, HostByField(hosts), keys), hosts, keys)
  {
    forall i | 0 <= i < |checks|
      ensures ReportRowDemoted(checks[i], DemoteRows(checks, HostByField(hosts), keys)[i], hosts, keys)
    {
      ReportRowIsDemoted(checks[i], hosts, keys);
    }
  }

  /** The host tables, walked by index and rewritten in place. */
  method DemoteHostTables(report: InspectReport, pendingKeys: set<string>)
    modifies report`hosts
    ensures report.hosts == DemoteHosts(old(report.hosts), pendingKeys)
    ensures HostsDemoted(old(report.hosts), report.hosts, pendingKeys)
  {
    ghost var before := report.hosts;
    DemotedRowByRow(before, [], pendingKeys);
    ghost var after := DemoteHosts(before, pendingKeys);
    var i := 0;
    while i < |report.hosts|
      invariant 0 <= i <= |report.hosts| == |before|
      invariant forall k :: 0 <= k < i ==> report.hosts[k] == after[k]
      invariant forall k :: i <= k < |before| ==> report.hosts[k] == before[k]
    {
      var ip := report.hosts[i].ip;
      var j := 0;
      while j < |report.hosts[i].checks|
        invariant |report.hosts| == |before|
        invariant report.hosts[i].ip == ip
        invariant 0 <= j <= |report.hosts[i].checks| == |before[i].checks|
        invariant forall k :: 0 <= k < j ==> report.hosts[i].checks[k] == Demote(before[i].checks[k], ip, pendingKeys)
        invariant forall k :: j <= k < |before[i].checks| ==> report.hosts[i].checks[k] == before[i].checks[k]
        invariant forall k :: 0 <= k < i ==> report.hosts[k] == after[k]
        invariant forall k :: i < k < |before| ==> report.hosts[k] == before[k]
        decreases |before[i].checks| - j
      {
        var c := report.hosts[i].checks[j];
        if c.status == Warn && PendingKey(ip, c.field) in pendingKeys {
          var h := report.hosts[i];
          report.hosts := report.hosts[i := h.(checks := h.checks[j := c.(status := Notice)])];
        }
        j := j + 1;
      }
      assert report.hosts[i].checks == after[i].checks;
      i := i + 1;
    }
    assert report.hosts == after;
  }

  /** The rows of the report, likewise, each attributed by field. */
  method DemoteReportRows(report: InspectReport, hostByField: map<string, string>, pendingKeys: set<string>)
    modifies report`allChecks
    ensures report.allChecks == DemoteRows(old(report.allChecks), hostByField, pendingKeys)
  {
    ghost var before := report.allChecks;
    var i := 0;
    while i < |report.allChecks|
      invariant 0 <= i <= |report.allChecks| == |before|
      invariant forall k :: 0 <= k < i ==> report.allChecks[k] == DemoteRow(before[k], hostByField, pendingKeys)
      invariant forall k :: i <= k < |before| ==> report.allChecks[k] == before[k]
    {
      var c := report.allChecks[i];
      if c.status == Warn && PendingKey(HostAt(hostByField, c.field), c.field) in pendingKeys {
        report.allChecks := report.allChecks[i := c.(status := Notice)];
      }
      i := i + 1;
    }
  }

  method RecomputeSummary(results: seq<CheckResult>) returns (s: CheckSummary)
    ensures s == Tally(results) && Summarizes(s, results)
  {
    var ok, warn, unknown, total := 0, 0, 0, 0;
    for i := 0 to |results|
      invariant CheckSummary(total, ok, warn, unknown) == Tally(results[..i])
    {
      assert results[..i + 1][..i] == results[..i];
      var st := results[i].status;
      if st == OK {
        ok, total := ok + 1, total + 1;
      } else if st == Warn {
        warn, total := warn + 1, total + 1;
      } else if st == Unknown {
        unknown, total := unknown + 1, total + 1;
      }
    }
    assert results[..|results|] == results;
    TallySummarizes(results);
    s := CheckSummary(total, ok, warn, unknown);
  }

  method DemotePending(report: InspectReport, pendingKeys: set<string>)
    modifies report
    ensures report.hosts == DemoteHosts(old(report.hosts), pendingKeys)
    ensures report.allChecks == DemoteRows(old(report.allChecks), HostByField(old(report.hosts)), pendingKeys)
    ensures HostsDemoted(old(report.hosts), report.hosts, pendingKeys)
    ensures RowsDemoted(old(report.allChecks), report.allChecks, old(report.hosts), pendingKeys)
    ensures report.summary == if pendingKeys == {} then old(report.summary) else Tally(report.allChecks)
  {
    DemotedRowByRow(report.hosts, report.allChecks, pendingKeys);
    DemotingNothing(report.hosts, report.allChecks, HostByField(report.hosts));
    if |pendingKeys| == 0 {
      return;
    }
    DemotionKeepsHosts(report.hosts, pendingKeys);
    DemoteHostTables(report, pendingKeys);
    var hostByField := BuildHostByField(report.hosts);
    DemoteReportRows(report, hostByField, pendingKeys);
    report.summary := RecomputeSummary(report.allChecks);
  }

  // ---- the report and the mail agree ----

  /** The rows a report keeps as Warn are the alerts that fire, element for element. */
  lemma {:induction false} RemainingWarnsFire(
      checks: seq<CheckResult>, m: map<string, string>, keys: set<string>,
      prev: map<string, PendingItem>, n: int, now: int)
    requires forall c :: c in checks && c.status == Warn ==>
               (KeyOf(ToAlert(m, c)) in keys <==> !Fires(prev, KeyOf(ToAlert(m, c)), n, now))
    ensures WarnItems(m, DemoteRows(checks, m, keys)) == Firing(WarnItems(m, checks), prev, n, now)
  {
    if checks != [] {
      var k := |checks| - 1;
      RemainingWarnsFire(checks[..k], m, keys, prev, n, now);
      assert DemoteRows(checks, m, keys)[..k] == DemoteRows(checks[..k], m, keys);
      var before := WarnItems(m, checks[..k]);
      assert checks[k] in checks;
      if checks[k].status == Warn {
        assert (before + [ToAlert(m, checks[k])])[..|before|] == before;
      } else {
        assert before + [] == before;
      }
    }
  }

  lemma {:induction false} DemotionMovesWarnToNotice(
      checks: seq<CheckResult>, m: map<string, string>, keys: set<string>)
    ensures var after := DemoteRows(checks, m, keys);
            && CountStatus(after, OK) == CountStatus(checks, OK)
            && CountStatus(after, Unknown) == CountStatus(checks, Unknown)
            && CountStatus(after, Warn) + CountStatus(after, Notice)
               == CountStatus(checks, Warn) + CountStatus(checks, Notice)
  {
    if checks != [] {
      var k := |checks| - 1;
      DemotionMovesWarnToNotice(checks[..k], m, keys);
      assert DemoteRows(checks, m, keys)[..k] == DemoteRows(checks[..k], m, keys);
    }
  }

  /** The keys that wait are exactly the keys of Warn rows that do not fire. */
  lemma WaitingMeansNotFiring(items: seq<AlertItem>, prev: map<string, PendingItem>, n: int, now: int, it: AlertItem)
    requires it in items
    ensures KeyOf(it) in WaitingKeys(items, prev, n, now) <==> !Fires(prev, KeyOf(it), n, now)
  {
  }

  /** After demotion the report says what the mail says: extracting its alerts again gives the firing
      list itself, the Warn count is the length of that list, OK and Unknown did not change, and the
      total dropped by the number of rows that became Notice. */
  lemma ReportSaysWhatTheMailSays(
      hosts: seq<HostChecks>, checks: seq<CheckResult>, prev: map<string, PendingItem>, n: int, now: int)
    ensures var raw := Extracted(hosts, checks);
            var pass := Pass(raw, prev, n, now);
            var hosts', checks' := DemoteHosts(hosts, pass.pendingKeys),
                                   DemoteRows(checks, HostByField(hosts), pass.pendingKeys);
            var before, after := Tally(checks), Tally(checks');
            && Extracted(hosts', checks') == pass.filtered
            && after.warn == |pass.filtered|
            && after.ok == before.ok && after.unknown == before.unknown
            && before.total - after.total == CountStatus(checks', Notice) - CountStatus(checks, Notice)
                                          == |raw| - |pass.filtered|
            && (pass.pendingKeys == {} ==> after == before)
  {
    var m := HostByField(hosts);
    var raw := Extracted(hosts, checks);
    var keys := WaitingKeys(raw, prev, n, now);
    var checks' := DemoteRows(checks, m, keys);
    WarnItemsAsSet(m, checks);
    forall c | c in checks && c.status == Warn
      ensures KeyOf(ToAlert(m, c)) in keys <==> !Fires(prev, KeyOf(ToAlert(m, c)), n, now)
    {
      assert ToAlert(m, c) in WarnAlerts(m, checks);
      assert ToAlert(m, c) in Elements(WarnItems(m, checks));
      WaitingMeansNotFiring(raw, prev, n, now, ToAlert(m, c));
    }
    RemainingWarnsFire(checks, m, keys, prev, n, now);
    DemotionKeepsHosts(hosts, keys);
    DemotionMovesWarnToNotice(checks, m, keys);
    WarnItemsCount(m, checks');
    WarnItemsCount(m, checks);
    DemotingNothing(hosts, checks, m);
  }

  lemma HostIsPartOfTheKey(h1: string, h2: string, field: string)
    ensures PendingKey(h1, field) == PendingKey(h2, field) ==> h1 == h2
  {
    if PendingKey(h1, field) == PendingKey(h2, field) {
      var tail := "|" + field;
      assert PendingKey(h1, field) == "" + h1 + tail && PendingKey(h2, field) == "" + h2 + tail;
      ConcatInjective("", h1, h2, tail);
    }
  }

  /** A row that stands in a host's table and in the report looks the same in both after demotion, whatever
      waits, exactly when the last host that lists its field has that host's address. */
  lemma HostTableAgreesExactlyWhen(hosts: seq<HostChecks>, i: nat, j: nat, checks: seq<CheckResult>, k: nat)
    requires i < |hosts| && j < |hosts[i].checks| && k < |checks|
    requires hosts[i].checks[j] == checks[k] && checks[k].status == Warn
    ensures (forall keys :: DemoteHosts(hosts, keys)[i].checks[j] == DemoteRows(checks, HostByField(hosts), keys)[k])
       <==> (forall h: int :: LastListing(hosts, checks[k].field, h) ==> hosts[h].ip == hosts[i].ip)
  {
    var c, m := checks[k], HostByField(hosts);
    assert Lists(hosts[i], c.field);
    var last := LastOf(hosts, c.field, i);
    LastHostWins(hosts, c.field, last);
    if hosts[last].ip != hosts[i].ip {
      var keys := {PendingKey(hosts[i].ip, c.field)};
      HostIsPartOfTheKey(hosts[i].ip, hosts[last].ip, c.field);
      assert DemoteHosts(hosts, keys)[i].checks[j] != DemoteRows(checks, m, keys)[k];
    }
  }

  /** A field that some host lists has a last one that does. */
  lemma LastOf(hosts: seq<HostChecks>, field: string, i: nat) returns (last: nat)
    requires i < |hosts| && Lists(hosts[i], field)
    ensures LastListing(hosts, field, last)
  {
    last := |hosts| - 1;
    while !Lists(hosts[last], field)
      invariant i <= last < |hosts|
      invariant forall j :: last < j < |hosts| ==> !Lists(hosts[j], field)
      decreases last
    {
      last := last - 1;
    }
  }

  /** That holds whenever no other host lists the field. */
  lemma HostTableAgreesWhenUnique(
      hosts: seq<HostChecks>, i: nat, j: nat, checks: seq<CheckResult>, k: nat, keys: set<string>)
    requires i < |hosts| && j < |hosts[i].checks| && k < |checks| && hosts[i].checks[j] == checks[k]
    requires forall h :: 0 <= h < |hosts| && Lists(hosts[h], checks[k].field) ==> h == i
    ensures DemoteHosts(hosts, keys)[i].checks[j] == DemoteRows(checks, HostByField(hosts), keys)[k]
  {
    assert Lists(hosts[i], checks[k].field);
    assert LastListing(hosts, checks[k].field, i);
    LastHostWins(hosts, checks[k].field, i);
  }
}
