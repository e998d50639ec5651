/** What confirmation means for a host. Counters are kept by host and field, but a field belongs to the
    last host that lists it, so a counter follows one host only when no other host lists the field. */
module PerHost {
  import opened Alerts
  import opened Config
  import opened Confirmation
  import opened Demotion
  import opened Model
  import opened Notify
  import opened Persistence
  import opened StateFile
  import opened Strings

  /** A report as main.go collects it: the host tables, and the checks of services and components. */
  datatype Report = Report(hosts: seq<HostChecks>, others: seq<CheckResult>)

  function HostRows(hosts: seq<HostChecks>): seq<CheckResult> {
    if hosts == [] then [] else HostRows(hosts[..|hosts| - 1]) + hosts[|hosts| - 1].checks
  }

  function Rows(r: Report): seq<CheckResult> {
    HostRows(r.hosts) + r.others
  }

  function RawOf(r: Report): seq<AlertItem> {
    Extracted(r.hosts, Rows(r))
  }

  /** The host that a field is attributed to: the last one that lists it. */
  function Owner(r: Report, field: string): string {
    HostAt(HostByField(r.hosts), field)
  }

  /** Some row of the report, of whatever host, warns about the field. */
  ghost predicate AnyWarns(r: Report, field: string) {
    exists c :: c in Rows(r) && c.field == field && c.status == Warn
  }

  ghost predicate WarnsAt(h: HostChecks, field: string) {
    exists c :: c in h.checks && c.field == field && c.status == Warn
  }

  /** Some table of the host `ip` warns about the field. */
  ghost predicate HostWarns(r: Report, ip: string, field: string) {
    exists i :: 0 <= i < |r.hosts| && r.hosts[i].ip == ip && WarnsAt(r.hosts[i], field)
  }

  predicate BarFree(s: string) { '|' !in s }

  /** Addresses have no bar in them. */
  ghost predicate PlainAddresses(r: Report) {
    forall i :: 0 <= i < |r.hosts| ==> BarFree(r.hosts[i].ip)
  }

  /** The field is a check of the host `ip` and of nothing else. */
  ghost predicate OnlyOn(r: Report, ip: string, field: string) {
    && (forall i :: 0 <= i < |r.hosts| && Lists(r.hosts[i], field) ==> r.hosts[i].ip == ip)
    && (forall c :: c in r.others ==> c.field != field)
  }

  /** The host `ip` has the field among its checks. */
  ghost predicate Has(r: Report, ip: string, field: string) {
    exists i :: 0 <= i < |r.hosts| && r.hosts[i].ip == ip && Lists(r.hosts[i], field)
  }

  lemma BarEndsTheHost(h1: string, f1: string, h2: string, f2: string)
    requires PendingKey(h1, f1) == PendingKey(h2, f2) && BarFree(h2)
    ensures |h2| <= |h1|
  {
    var k := PendingKey(h1, f1);
    assert k[|h1|] == '|';
    assert forall i :: 0 <= i < |h2| ==> PendingKey(h2, f2)[i] == h2[i];
  }

  /** A counter key tells host and field, since addresses have no bar. */
  lemma KeyTells(h1: string, f1: string, h2: string, f2: string)
    requires BarFree(h1) && BarFree(h2) && PendingKey(h1, f1) == PendingKey(h2, f2)
    ensures h1 == h2 && f1 == f2
  {
    BarEndsTheHost(h1, f1, h2, f2);
    BarEndsTheHost(h2, f2, h1, f1);
    var k1, k2 := PendingKey(h1, f1), PendingKey(h2, f2);
    assert k1[..|h1|] == h1 && k2[..|h2|] == h2;
    assert k1[|h1| + 1..] == f1 && k2[|h2| + 1..] == f2;
  }

  lemma {:induction false} RowsOfHosts(hosts: seq<HostChecks>, c: CheckResult)
    ensures c in HostRows(hosts) <==> exists i :: 0 <= i < |hosts| && c in hosts[i].checks
  {
    if hosts != [] {
      var n := |hosts| - 1;
      RowsOfHosts(hosts[..n], c);
      if i :| 0 <= i < |hosts| && c in hosts[i].checks {
        if i < n {
          assert hosts[..n][i] == hosts[i];
        }
      }
    }
  }

  /** The owner of a field is one of the hosts, or nobody. */
  lemma {:induction false} OwnerIsAHost(hosts: seq<HostChecks>, field: string)
    requires forall i :: 0 <= i < |hosts| ==> BarFree(hosts[i].ip)
    ensures BarFree(HostAt(HostByField(hosts), field))
  {
    if hosts != [] {
      var n := |hosts| - 1;
      OwnerIsAHost(hosts[..n], field);
      ClaimSays(HostByField(hosts[..n]), hosts[n].ip, hosts[n].checks, field);
    }
  }

  lemma {:induction false} LastLister(hosts: seq<HostChecks>, field: string, i: nat) returns (k: nat)
    requires i < |hosts| && Lists(hosts[i], field)
    ensures LastListing(hosts, field, k)
    decreases |hosts| - i
  {
    if j :| i < j < |hosts| && Lists(hosts[j], field) {
      k := LastLister(hosts, field, j);
    } else {
      k := i;
    }
  }

  lemma RowOfItem(r: Report, it: AlertItem) returns (c: CheckResult)
    requires it in RawOf(r)
    ensures c in Rows(r) && c.status == Warn && it == ToAlert(HostByField(r.hosts), c)
  {
    var m := HostByField(r.hosts);
    WarnItemsAsSet(m, Rows(r));
    assert it in Elements(WarnItems(m, Rows(r)));
    c :| c in Rows(r) && c.status == Warn && it == ToAlert(m, c);
  }

  /** What a counter key stands for: it is seen exactly when its host owns the field and some row of the
      field warns, on whatever host. */
  lemma SeenExactlyWhenAnyWarns(r: Report, ip: string, field: string)
    requires PlainAddresses(r) && BarFree(ip)
    ensures PendingKey(ip, field) in Keys(RawOf(r)) <==> ip == Owner(r, field) && AnyWarns(r, field)
  {
    var m := HostByField(r.hosts);
    if PendingKey(ip, field) in Keys(RawOf(r)) {
      var it :| it in RawOf(r) && KeyOf(it) == PendingKey(ip, field);
      var c := RowOfItem(r, it);
      OwnerIsAHost(r.hosts, c.field);
      KeyTells(it.host, it.field, ip, field);
    }
    if ip == Owner(r, field) && AnyWarns(r, field) {
      var c :| c in Rows(r) && c.field == field && c.status == Warn;
      WarnItemsAsSet(m, Rows(r));
      assert ToAlert(m, c) in WarnAlerts(m, Rows(r));
      assert ToAlert(m, c) in RawOf(r) && KeyOf(ToAlert(m, c)) == PendingKey(ip, field);
    }
  }

  lemma OnlyHostOwns(r: Report, ip: string, field: string)
    requires OnlyOn(r, ip, field) && Has(r, ip, field)
    ensures Owner(r, field) == ip
  {
    var i :| 0 <= i < |r.hosts| && r.hosts[i].ip == ip && Lists(r.hosts[i], field);
    var k := LastLister(r.hosts, field, i);
    LastHostWins(r.hosts, field, k);
  }

  /** With one host on the field, some row of the field warns exactly when that host warns. */
  lemma OnlyHostWarns(r: Report, ip: string, field: string)
    requires OnlyOn(r, ip, field)
    ensures AnyWarns(r, field) <==> HostWarns(r, ip, field)
  {
    if AnyWarns(r, field) {
      var c :| c in Rows(r) && c.field == field && c.status == Warn;
      RowsOfHosts(r.hosts, c);
      var i :| 0 <= i < |r.hosts| && c in r.hosts[i].checks;
      var j :| 0 <= j < |r.hosts[i].checks| && r.hosts[i].checks[j] == c;
      assert Lists(r.hosts[i], field) && WarnsAt(r.hosts[i], field);
    }
    if HostWarns(r, ip, field) {
      var i :| 0 <= i < |r.hosts| && r.hosts[i].ip == ip && WarnsAt(r.hosts[i], field);
      var c :| c in r.hosts[i].checks && c.field == field && c.status == Warn;
      RowsOfHosts(r.hosts, c);
      assert c in Rows(r);
    }
  }

  /** For a field of one host, the counter key is seen exactly when that host warns. */
  lemma SeenExactlyWhenHostWarns(r: Report, ip: string, field: string)
    requires PlainAddresses(r) && BarFree(ip) && OnlyOn(r, ip, field) && Has(r, ip, field)
    ensures PendingKey(ip, field) in Keys(RawOf(r)) <==> HostWarns(r, ip, field)
  {
    SeenExactlyWhenAnyWarns(r, ip, field);
    OnlyHostOwns(r, ip, field);
    OnlyHostWarns(r, ip, field);
  }

  // ---- when a counter follows its host ----

  predicate SameFields(a: seq<CheckResult>, b: seq<CheckResult>) {
    |a| == |b| && forall j :: 0 <= j < |a| ==> a[j].field == b[j].field
  }

  /** The same hosts, addresses and field names; the statuses may differ. */
  ghost predicate SameLayout(r: Report, t: Report) {
    && |r.hosts| == |t.hosts| && SameFields(r.others, t.others)
    && forall i :: 0 <= i < |r.hosts| ==>
         r.hosts[i].ip == t.hosts[i].ip && SameFields(r.hosts[i].checks, t.hosts[i].checks)
  }

  lemma {:induction false} LayoutOwns(a: seq<HostChecks>, b: seq<HostChecks>)
    requires |a| == |b|
    requires forall i :: 0 <= i < |a| ==> a[i].ip == b[i].ip && SameFields(a[i].checks, b[i].checks)
    ensures HostByField(a) == HostByField(b)
  {
    if a != [] {
      var n := |a| - 1;
      LayoutOwns(a[..n], b[..n]);
      ClaimIgnoresStatus(HostByField(a[..n]), a[n].ip, a[n].checks, b[n].checks);
    }
  }

  lemma LayoutLists(h: HostChecks, k: HostChecks, field: string)
    requires SameFields(h.checks, k.checks)
    ensures Lists(h, field) <==> Lists(k, field)
  {
    if Lists(h, field) {
      var j :| 0 <= j < |h.checks| && h.checks[j].field == field;
      assert k.checks[j].field == field;
    }
    if Lists(k, field) {
      var j :| 0 <= j < |k.checks| && k.checks[j].field == field;
      assert h.checks[j].field == field;
    }
  }

  lemma LayoutKeepsOnly(r: Report, t: Report, ip: string, field: string)
    requires SameLayout(r, t) && OnlyOn(r, ip, field) && Has(r, ip, field)
    ensures OnlyOn(t, ip, field) && Has(t, ip, field)
  {
    forall i | 0 <= i < |t.hosts|
      ensures Lists(r.hosts[i], field) <==> Lists(t.hosts[i], field)
    {
      LayoutLists(r.hosts[i], t.hosts[i], field);
    }
    forall c | c in t.others
      ensures c.field != field
    {
      var j :| 0 <= j < |t.others| && t.others[j] == c;
      assert r.others[j] in r.others;
    }
    var i :| 0 <= i < |r.hosts| && r.hosts[i].ip == ip && Lists(r.hosts[i], field);
    assert t.hosts[i].ip == ip && Lists(t.hosts[i], field);
  }

  /** The rows of the field painted Warn, and all others OK. */
  function Paint(checks: seq<CheckResult>, field: string, warn: bool): (r: seq<CheckResult>)
    ensures SameFields(checks, r)
  {
    seq(|checks|, j requires 0 <= j < |checks| =>
      checks[j].(status := if warn && checks[j].field == field then Warn else OK))
  }

  /** Only rows of the host `ip` warn about the field, or only rows of others. */
  function Painted(r: Report, ip: string, field: string, own: bool): (t: Report)
    ensures SameLayout(r, t)
  {
    Report(
      seq(|r.hosts|, i requires 0 <= i < |r.hosts| =>
        HostChecks(r.hosts[i].ip, Paint(r.hosts[i].checks, field, (r.hosts[i].ip == ip) == own))),
      Paint(r.others, field, !own))
  }

  lemma PaintWarns(h: HostChecks, field: string, warn: bool)
    ensures WarnsAt(HostChecks(h.ip, Paint(h.checks, field, warn)), field) <==> warn && Lists(h, field)
  {
    var k := HostChecks(h.ip, Paint(h.checks, field, warn));
    if warn && Lists(h, field) {
      var j :| 0 <= j < |h.checks| && h.checks[j].field == field;
      assert k.checks[j] in k.checks;
    }
    if WarnsAt(k, field) {
      var c :| c in k.checks && c.field == field && c.status == Warn;
      var j :| 0 <= j < |k.checks| && k.checks[j] == c;
      assert h.checks[j].field == field;
    }
  }

  lemma PaintedHostWarns(r: Report, ip: string, field: string, own: bool)
    ensures HostWarns(Painted(r, ip, field, own), ip, field) <==> own && Has(r, ip, field)
  {
    var t := Painted(r, ip, field, own);
    forall i | 0 <= i < |r.hosts|
      ensures WarnsAt(t.hosts[i], field) <==> (r.hosts[i].ip == ip) == own && Lists(r.hosts[i], field)
    {
      PaintWarns(r.hosts[i], field, (r.hosts[i].ip == ip) == own);
    }
    if own && Has(r, ip, field) {
      var i :| 0 <= i < |r.hosts| && r.hosts[i].ip == ip && Lists(r.hosts[i], field);
      assert t.hosts[i].ip == ip && WarnsAt(t.hosts[i], field);
    }
  }

  /** If the field is on something else too, painting the others makes some row warn. */
  lemma PaintedOthersWarn(r: Report, ip: string, field: string)
    requires !OnlyOn(r, ip, field)
    ensures AnyWarns(Painted(r, ip, field, false), field)
  {
    var t := Painted(r, ip, field, false);
    if c :| c in r.others && c.field == field {
      var j :| 0 <= j < |r.others| && r.others[j] == c;
      assert t.others[j] in Rows(t);
    } else {
      var i :| 0 <= i < |r.hosts| && Lists(r.hosts[i], field) && r.hosts[i].ip != ip;
      PaintWarns(r.hosts[i], field, true);
      assert WarnsAt(t.hosts[i], field);
      var c :| c in t.hosts[i].checks && c.field == field && c.status == Warn;
      RowsOfHosts(t.hosts, c);
      assert c in Rows(t);
    }
  }

  /** Whatever the statuses are, the key of the host is seen exactly when the host warns. */
  ghost predicate Follows(r: Report, ip: string, field: string) {
    forall t: Report :: SameLayout(r, t) ==> (PendingKey(ip, field) in Keys(RawOf(t)) <==> HostWarns(t, ip, field))
  }

  lemma LayoutKeepsAddresses(r: Report, t: Report, field: string)
    requires SameLayout(r, t) && PlainAddresses(r)
    ensures PlainAddresses(t) && Owner(t, field) == Owner(r, field)
  {
    LayoutOwns(r.hosts, t.hosts);
  }

  lemma OnlyHostFollows(r: Report, ip: string, field: string)
    requires PlainAddresses(r) && BarFree(ip) && OnlyOn(r, ip, field) && Has(r, ip, field)
    ensures Follows(r, ip, field)
  {
    forall t: Report | SameLayout(r, t)
      ensures PendingKey(ip, field) in Keys(RawOf(t)) <==> HostWarns(t, ip, field)
    {
      LayoutKeepsAddresses(r, t, field);
      LayoutKeepsOnly(r, t, ip, field);
      SeenExactlyWhenHostWarns(t, ip, field);
    }
  }

  /** A report with this layout in which the key and the host disagree. */
  lemma SharedFieldStrays(r: Report, ip: string, field: string) returns (t: Report)
    requires PlainAddresses(r) && BarFree(ip) && !OnlyOn(r, ip, field) && Has(r, ip, field)
    ensures SameLayout(r, t)
    ensures !(PendingKey(ip, field) in Keys(RawOf(t)) <==> HostWarns(t, ip, field))
  {
    t := Painted(r, ip, field, Owner(r, field) != ip);
    LayoutKeepsAddresses(r, t, field);
    SeenExactlyWhenAnyWarns(t, ip, field);
    PaintedHostWarns(r, ip, field, Owner(r, field) != ip);
    if Owner(r, field) == ip {
      PaintedOthersWarn(r, ip, field);
    }
  }

  /** The counter of a host and one of its fields follows that host, whatever the statuses are, exactly
      when nothing else has the field. */
  lemma FollowsHostExactlyWhen(r: Report, ip: string, field: string)
    requires PlainAddresses(r) && BarFree(ip) && Has(r, ip, field)
    ensures Follows(r, ip, field) <==> OnlyOn(r, ip, field)
  {
    if OnlyOn(r, ip, field) {
      OnlyHostFollows(r, ip, field);
    } else {
      var t := SharedFieldStrays(r, ip, field);
    }
  }

  // ---- over histories ----

  /** In every report that the committed run can have seen, the host owns the field and some row of the
      field warned; where nothing else has the field, that is the host's own row. */
  ghost predicate WarnedIn(c: Commit, ip: string, field: string) {
    forall r: Report :: RawOf(r) == c.input.raw && PlainAddresses(r) ==>
      && ip == Owner(r, field) && AnyWarns(r, field)
      && (OnlyOn(r, ip, field) ==> HostWarns(r, ip, field))
  }

  lemma SawMeansWarned(c: Commit, ip: string, field: string)
    requires BarFree(ip) && Saw(c, PendingKey(ip, field))
    ensures WarnedIn(c, ip, field)
  {
    forall r: Report | RawOf(r) == c.input.raw && PlainAddresses(r)
      ensures ip == Owner(r, field) && AnyWarns(r, field)
      ensures OnlyOn(r, ip, field) ==> HostWarns(r, ip, field)
    {
      SeenExactlyWhenAnyWarns(r, ip, field);
      if OnlyOn(r, ip, field) {
        OnlyHostWarns(r, ip, field);
      }
    }
  }

  /** What confirmation promises: from a cold start, an item fires only if in each of the previous N-1
      committed runs its field was owned by its host and warned somewhere, and on that same host where
      nothing else has the field. */
  lemma ConfirmedByField(inputs: seq<Input>, i: Input, p: Policy, it: AlertItem)
    requires p.n >= 1 && BarFree(it.host)
    requires it in Context(Run(inputs, p), i, p).filtered
    ensures var commits := Run(inputs, p).commits;
            p.n - 1 <= |commits|
            && forall k :: |commits| - (p.n - 1) <= k < |commits| ==> WarnedIn(commits[k], it.host, it.field)
  {
    NothingFiresUnconfirmed(inputs, i, p, it);
    var commits := Run(inputs, p).commits;
    forall k | |commits| - (p.n - 1) <= k < |commits|
      ensures WarnedIn(commits[k], it.host, it.field)
    {
      assert Saw(commits[k], KeyOf(it));
      SawMeansWarned(commits[k], it.host, it.field);
    }
  }

  // ---- N runs in a row ----

  /** Runs at one instant, all of them successful, that see the given reports. */
  function RunsOf(reports: seq<Report>): seq<Input> {
    seq(|reports|, k requires 0 <= k < |reports| => Input(RawOf(reports[k]), ZERO_TIME, true, true, true))
  }

  ghost predicate AllSucceed(inputs: seq<Input>) {
    forall k :: 0 <= k < |inputs| ==> inputs[k].readable && inputs[k].sendOk && inputs[k].saveOk
  }

  /** The commits are those of the inputs, one each. */
  ghost predicate CommitsAre(commits: seq<Commit>, inputs: seq<Input>) {
    |commits| == |inputs| && forall k :: 0 <= k < |inputs| ==> commits[k].input == inputs[k]
  }

  lemma CommitsAreStep(commits: seq<Commit>, c: Commit, inputs: seq<Input>, i: Input)
    requires CommitsAre(commits, inputs) && c.input == i
    ensures CommitsAre(commits + [c], inputs + [i])
  {
  }

  lemma {:induction false} AllCommit(inputs: seq<Input>, p: Policy)
    requires AllSucceed(inputs)
    ensures CommitsAre(Run(inputs, p).commits, inputs)
  {
    if inputs != [] {
      var n := |inputs| - 1;
      AllCommit(inputs[..n], p);
      var w := Run(inputs[..n], p);
      var c := StepAndCounters(w, inputs[n], p);
      CommitsAreStep(w.commits, c, inputs[..n], inputs[n]);
      assert inputs == inputs[..n] + [inputs[n]];
    }
  }

  /** The last of the runs reports the key. */
  ghost predicate LastReports(inputs: seq<Input>, p: Policy, key: string) {
    var commits := Run(inputs, p).commits;
    commits != [] && Reported(commits[|commits| - 1], key)
  }

  ghost predicate AllSee(inputs: seq<Input>, key: string) {
    forall k :: 0 <= k < |inputs| ==> inputs[k].now == ZERO_TIME && key in Keys(inputs[k].raw)
  }

  lemma SeenIsSteady(stretch: seq<Commit>, inputs: seq<Input>, key: string, n: int)
    requires n >= 1 && CommitsAre(stretch, inputs) && AllSucceed(inputs) && AllSee(inputs, key)
    ensures SteadyStretch(stretch, key, Start(0, ZERO_TIME), n)
  {
    forall m | 0 <= m < |stretch|
      ensures SteadyAt(stretch, key, Start(0, ZERO_TIME), n, m)
    {
      assert stretch[m].input == inputs[m];
    }
  }

  /** N sightings in a row are enough. */
  lemma SeenNTimesFires(inputs: seq<Input>, p: Policy, key: string)
    requires p.n >= 1 && |inputs| == p.n && AllSucceed(inputs) && AllSee(inputs, key)
    ensures LastReports(inputs, p, key)
  {
    var stretch := Run(inputs, p).commits;
    AllCommit(inputs, p);
    SeenIsSteady(stretch, inputs, key, p.n);
    assert Since(START, Run(inputs, p)) == stretch;
    FiresEveryNthRun(START, inputs, p, key, Start(0, ZERO_TIME));
    LastOnSchedule(stretch, key, p.n);
  }

  lemma LastOnSchedule(stretch: seq<Commit>, key: string, n: int)
    requires n >= 1 && |stretch| == n && ReportsOnSchedule(stretch, key, Start(0, ZERO_TIME), n)
    ensures Reported(stretch[n - 1], key)
  {
    ResidueIsMod(n, n);
    assert Phase(Start(0, ZERO_TIME), n, n - 1 + 1) == 0;
  }

  /** The item of the last run that carries the key. */
  lemma FiredItem(init: seq<Input>, i: Input, p: Policy, key: string) returns (it: AlertItem)
    requires Commits(Run(init, p), i, p) && LastReports(init + [i], p, key)
    ensures it in Context(Run(init, p), i, p).filtered && KeyOf(it) == key
  {
    RunFromExtends(START, init, i, p);
    var c := StepAndCounters(Run(init, p), i, p);
    it :| it in c.filtered && KeyOf(it) == key;
  }

  /** And nothing less: every one of them saw the key. */
  lemma FiredMeansSeen(init: seq<Input>, i: Input, p: Policy, key: string)
    requires p.n >= 1 && |init| == p.n - 1 && AllSucceed(init) && i.sendOk && i.saveOk
    requires LastReports(init + [i], p, key)
    ensures key in Keys(i.raw)
    ensures forall k :: 0 <= k < |init| ==> key in Keys(init[k].raw)
  {
    var it := FiredItem(init, i, p, key);
    NothingFiresUnconfirmed(init, i, p, it);
    AllCommit(init, p);
    var commits := Run(init, p).commits;
    forall k | 0 <= k < |init|
      ensures key in Keys(init[k].raw)
    {
      assert Saw(commits[k], key) && commits[k].input == init[k];
    }
  }

  lemma AllOfThemSaw(inputs: seq<Input>, p: Policy, key: string, k: nat)
    requires p.n >= 1 && |inputs| == p.n && k < |inputs| && AllSucceed(inputs) && LastReports(inputs, p, key)
    ensures key in Keys(inputs[k].raw)
  {
    var n := |inputs| - 1;
    assert inputs == inputs[..n] + [inputs[n]];
    FiredMeansSeen(inputs[..n], inputs[n], p, key);
  }

  /** Whenever N reports of this layout in a row fire the host's counter, that host warned in all of them. */
  ghost predicate ConfirmsItself(r: Report, ip: string, field: string, p: Policy) {
    forall reports: seq<Report> ::
      |reports| == p.n && (forall k :: 0 <= k < |reports| ==> SameLayout(r, reports[k]))
      && LastReports(RunsOf(reports), p, PendingKey(ip, field)) ==>
        forall k :: 0 <= k < |reports| ==> HostWarns(reports[k], ip, field)
  }

  lemma OwnRowsConfirm(r: Report, ip: string, field: string, p: Policy)
    requires p.n >= 1 && PlainAddresses(r) && BarFree(ip) && Has(r, ip, field)
    requires OnlyOn(r, ip, field) || Owner(r, field) != ip
    ensures ConfirmsItself(r, ip, field, p)
  {
    forall reports: seq<Report>, k: nat
      | |reports| == p.n && (forall j :: 0 <= j < |reports| ==> SameLayout(r, reports[j]))
        && LastReports(RunsOf(reports), p, PendingKey(ip, field)) && k < |reports|
      ensures HostWarns(reports[k], ip, field)
    {
      AllOfThemSaw(RunsOf(reports), p, PendingKey(ip, field), k);
      LayoutKeepsAddresses(r, reports[k], field);
      SeenExactlyWhenAnyWarns(reports[k], ip, field);
      LayoutKeepsOnly(r, reports[k], ip, field);
      OnlyHostWarns(reports[k], ip, field);
    }
  }

  /** N times the same report, which shows the key although the host does not warn. */
  lemma StrayReportConfirms(r: Report, t: Report, ip: string, field: string, p: Policy, reports: seq<Report>)
    requires p.n >= 1 && |reports| == p.n && forall k :: 0 <= k < |reports| ==> reports[k] == t
    requires SameLayout(r, t) && PendingKey(ip, field) in Keys(RawOf(t)) && !HostWarns(t, ip, field)
    ensures !ConfirmsItself(r, ip, field, p)
  {
    SeenNTimesFires(RunsOf(reports), p, PendingKey(ip, field));
    assert !HostWarns(reports[0], ip, field);
  }

  lemma ForeignRowsConfirm(r: Report, ip: string, field: string, p: Policy)
    requires p.n >= 1 && PlainAddresses(r) && BarFree(ip) && Has(r, ip, field)
    requires !OnlyOn(r, ip, field) && Owner(r, field) == ip
    ensures !ConfirmsItself(r, ip, field, p)
  {
    var t := Painted(r, ip, field, false);
    LayoutKeepsAddresses(r, t, field);
    PaintedOthersWarn(r, ip, field);
    PaintedHostWarns(r, ip, field, false);
    SeenExactlyWhenAnyWarns(t, ip, field);
    StrayReportConfirms(r, t, ip, field, p, seq(p.n, k requires 0 <= k < p.n => t));
  }

  /** For every N, what fires under a host's name was confirmed by that host exactly when nothing else has
      the field, or the field is attributed to another host and never fires under this one's name. */
  lemma ConfirmsItselfExactlyWhen(r: Report, ip: string, field: string, p: Policy)
    requires p.n >= 1 && PlainAddresses(r) && BarFree(ip) && Has(r, ip, field)
    ensures ConfirmsItself(r, ip, field, p) <==> OnlyOn(r, ip, field) || Owner(r, field) != ip
  {
    if OnlyOn(r, ip, field) || Owner(r, field) != ip {
      OwnRowsConfirm(r, ip, field, p);
    } else {
      ForeignRowsConfirm(r, ip, field, p);
    }
  }

  // ---- a field of two hosts ----

  /** A report in which two hosts have the field, with the given statuses. */
  function TwoHosts(a: string, b: string, field: string, sa: CheckStatus, sb: CheckStatus): Report {
    Report([HostChecks(a, [CheckResult(field, "", sa, "")]), HostChecks(b, [CheckResult(field, "", sb, "")])], [])
  }

  lemma RowsOfTwo(a: string, b: string, field: string, sa: CheckStatus, sb: CheckStatus)
    ensures var r := TwoHosts(a, b, field, sa, sb);
            && Rows(r) == [CheckResult(field, "", sa, ""), CheckResult(field, "", sb, "")]
            && HostAt(HostByField(r.hosts), field) == b
  {
    var r := TwoHosts(a, b, field, sa, sb);
    assert r.hosts[..1] == [r.hosts[0]] && [r.hosts[0]][..0] == [];
    assert HostRows([r.hosts[0]]) == [CheckResult(field, "", sa, "")];
    assert r.hosts[1].checks[0].field == field && Lists(r.hosts[1], field);
    LastHostWins(r.hosts, field, 1);
  }

  lemma WarnsOfTwo(m: map<string, string>, c: CheckResult, d: CheckResult)
    ensures WarnItems(m, [c, d])
         == (if c.status == Warn then [ToAlert(m, c)] else []) + (if d.status == Warn then [ToAlert(m, d)] else [])
  {
    assert [c, d][..1] == [c] && [c][..0] == [];
    assert WarnItems(m, [c]) == [] + (if c.status == Warn then [ToAlert(m, c)] else []);
  }

  lemma OneOfTwoIsRaw(a: string, b: string, field: string, sa: CheckStatus, sb: CheckStatus)
    requires (sa == Warn) != (sb == Warn)
    ensures RawOf(TwoHosts(a, b, field, sa, sb)) == [AlertItem(b, field, "", "")]
  {
    RowsOfTwo(a, b, field, sa, sb);
    var m := HostByField(TwoHosts(a, b, field, sa, sb).hosts);
    WarnsOfTwo(m, CheckResult(field, "", sa, ""), CheckResult(field, "", sb, ""));
  }

  lemma WhoOfTwoWarns(a: string, b: string, field: string, sa: CheckStatus, sb: CheckStatus)
    requires a != b
    ensures HostWarns(TwoHosts(a, b, field, sa, sb), a, field) <==> sa == Warn
    ensures HostWarns(TwoHosts(a, b, field, sa, sb), b, field) <==> sb == Warn
  {
    var r := TwoHosts(a, b, field, sa, sb);
    assert CheckResult(field, "", sa, "") in r.hosts[0].checks;
    assert CheckResult(field, "", sb, "") in r.hosts[1].checks;
    assert WarnsAt(r.hosts[0], field) <==> sa == Warn;
    assert WarnsAt(r.hosts[1], field) <==> sb == Warn;
  }

  /** Otherwise it is not: when two hosts have the field, one warning of each counts as two of the second
      host. The field fires although no host warned twice. */
  lemma SharedFieldConfirmsTogether(a: string, b: string, field: string, now: int)
    requires a != b
    ensures var first, second := TwoHosts(a, b, field, Warn, OK), TwoHosts(a, b, field, OK, Warn);
            && !HostWarns(first, b, field) && !HostWarns(second, a, field)
            && var once := Pass(RawOf(first), map[], 2, now);
            && once.filtered == []
            && Pass(RawOf(second), once.nextPending, 2, now).filtered == [AlertItem(b, field, "", "")]
  {
    WhoOfTwoWarns(a, b, field, Warn, OK);
    WhoOfTwoWarns(a, b, field, OK, Warn);
    OneOfTwoIsRaw(a, b, field, Warn, OK);
    OneOfTwoIsRaw(a, b, field, OK, Warn);
    OneItemTwice(AlertItem(b, field, "", ""), now);
  }

  lemma OneItemTwice(item: AlertItem, now: int)
    ensures var once := Pass([item], map[], 2, now);
            once.filtered == [] && Pass([item], once.nextPending, 2, now).filtered == [item]
  {
    var once := Pass([item], map[], 2, now);
    PassStep([], item, map[], 2, now);
    assert [] + [item] == [item];
    PassStep([], item, once.nextPending, 2, now);
  }
}
