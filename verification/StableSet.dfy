/** What a stable set of warnings costs: which of them fire together, and when the cooldown really limits
    the mails about them. */
module StableSet {
  import opened Alerts
  import opened Config
  import opened Confirmation
  import opened MailBudget
  import opened MailHistory
  import opened Notify
  import opened Persistence
  import opened Signatures
  import opened StateFile
  import opened Trigger

  /** Where a warning is, whatever its value. */
  datatype Site = Site(host: string, field: string)

  function SiteOf(it: AlertItem): Site {
    Site(it.host, it.field)
  }

  function Sites(items: seq<AlertItem>): set<Site> {
    set it | it in items :: SiteOf(it)
  }

  function CounterKey(s: Site): string {
    PendingKey(s.host, s.field)
  }

  function SigKey(s: Site): string {
    SignatureKey(AlertItem(s.host, s.field, "", ""))
  }

  // ---- what every committed run says ----

  /** The signature of what fires in a run. */
  function OwnSignature(p: Policy): Commit -> string {
    (c: Commit) => Signature(c.filtered, p.digest)
  }

  /** Items fire by their counter; a committed alert mail is about what fires, a recovery about nothing. */
  ghost predicate Says(c: Commit, own: Commit -> string) {
    && (forall it :: it in c.filtered <==> it in c.input.raw && Reported(c, KeyOf(it)))
    && (c.mail.kind == SendAlert ==> c.filtered != [] && c.mail.signature == own(c))
    && (c.mail.kind == SendRecovery ==> c.input.raw == [])
  }

  ghost predicate AllSay(commits: seq<Commit>, own: Commit -> string) {
    forall k :: 0 <= k < |commits| ==> Says(commits[k], own)
  }

  lemma ItemsFireByKey(c: Commit, prev: map<string, PendingItem>, n: int)
    requires Passed(c, prev, n)
    ensures forall it :: it in c.filtered <==> it in c.input.raw && Reported(c, KeyOf(it))
  {
    FiringMembers(c.input.raw, prev, n, c.input.now);
  }

  lemma StepSays(w: World, i: Input, p: Policy) returns (c: Commit)
    requires p.n >= 1
    ensures Says(c, OwnSignature(p))
    ensures Commits(w, i, p) ==> Step(w, i, p).commits == w.commits + [c]
    ensures !Commits(w, i, p) ==> Step(w, i, p).commits == w.commits
  {
    c := StepAndMail(w, i, p);
    var d := StepAndCounters(w, i, p);
    ItemsFireByKey(d, CountersFor(w, i), p.n);
    assert c == Commit(i, d.filtered, c.mail) && d == Commit(i, c.filtered, d.mail);
    WhatChooses(w, i, p);
    if c.mail.kind == SendRecovery {
      RecoveryNeedsCleanRun(w, i, p);
    }
  }

  lemma RecoveryNeedsCleanRun(w: World, i: Input, p: Policy)
    requires Choose(Context(w, i, p), p) == SendRecovery
    ensures i.raw == []
  {
  }

  lemma {:induction false} EveryCommitSays(inputs: seq<Input>, p: Policy)
    requires p.n >= 1
    ensures AllSay(Run(inputs, p).commits, OwnSignature(p))
  {
    if inputs != [] {
      EveryCommitSays(inputs[..|inputs| - 1], p);
      var c := StepSays(Run(inputs[..|inputs| - 1], p), inputs[|inputs| - 1], p);
    }
  }

  // ---- a stretch that always sees the same sites ----

  /** All runs of the stretch see the same sites, each on schedule from its own start. */
  ghost predicate OnSchedule(stretch: seq<Commit>, sites: set<Site>, starts: map<Site, Start>, n: int)
    requires n >= 1
  {
    && sites != {} && starts.Keys == sites
    && (forall s :: s in sites ==> starts[s].count < n)
    && (forall m :: 0 <= m < |stretch| ==> Sites(stretch[m].input.raw) == sites)
    && (forall s :: s in sites ==> ReportsOnSchedule(stretch, CounterKey(s), starts[s], n))
  }

  /** The site fires in run m. */
  predicate FiresAt(start: Start, n: int, m: nat)
    requires n >= 1
  {
    Phase(start, n, m + 1) == 0
  }

  lemma SitesThatFire(
      stretch: seq<Commit>, sites: set<Site>, starts: map<Site, Start>,
      own: Commit -> string, n: nat, m: nat, s: Site)
    requires n >= 1 && m < |stretch| && AllSay(stretch, own)
    requires OnSchedule(stretch, sites, starts, n)
    ensures s in Sites(stretch[m].filtered) <==> s in sites && FiresAt(starts[s], n, m)
  {
    var c := stretch[m];
    assert Says(c, own) && Sites(c.input.raw) == sites;
    assert forall x :: x in c.filtered ==> SiteOf(x) in Sites(c.input.raw);
    if s in sites {
      assert ReportsOnSchedule(stretch, CounterKey(s), starts[s], n);
      var it :| it in c.input.raw && SiteOf(it) == s;
      assert KeyOf(it) == CounterKey(s);
      if s in Sites(c.filtered) {
        var x :| x in c.filtered && SiteOf(x) == s;
        assert KeyOf(x) == CounterKey(s);
      }
      if FiresAt(starts[s], n, m) {
        assert Reported(c, KeyOf(it)) && it in c.filtered;
      }
    }
  }

  lemma SigKeysOfSites(items: seq<AlertItem>, k: string)
    ensures k in SignatureKeys(items) <==> exists s :: s in Sites(items) && SigKey(s) == k
  {
    if k in SignatureKeys(items) {
      var it :| it in items && SignatureKey(it) == k;
      assert SiteOf(it) in Sites(items) && SigKey(SiteOf(it)) == k;
    }
    if s :| s in Sites(items) && SigKey(s) == k {
      var it :| it in items && SiteOf(it) == s;
      assert SignatureKey(it) == k;
    }
  }

  /** Some site with the signature key of `t` started with the count of `s`. */
  ghost predicate Accompanied(sites: set<Site>, starts: map<Site, Start>, s: Site, t: Site)
    requires starts.Keys == sites && s in sites
  {
    exists u :: u in sites && SigKey(u) == SigKey(t) && starts[u].count == starts[s].count
  }

  /** The counts agree up to the signature: whenever any site fires, every signature key is there. */
  ghost predicate InStep(sites: set<Site>, starts: map<Site, Start>)
    requires starts.Keys == sites
  {
    forall s, t {:trigger Accompanied(sites, starts, s, t)} ::
      s in sites && t in sites ==> Accompanied(sites, starts, s, t)
  }

  /** All runs of the stretch in which anything fires have the same signature keys. */
  ghost predicate OneSignature(stretch: seq<Commit>) {
    forall m, k ::
      0 <= m < |stretch| && 0 <= k < |stretch| && stretch[m].filtered != [] && stretch[k].filtered != [] ==>
        SignatureKeys(stretch[m].filtered) == SignatureKeys(stretch[k].filtered)
  }

  /** Two starts fire together in some run only if they count the same, and then in all runs. */
  lemma FireTogether(a: Start, b: Start, n: int, m: nat)
    requires n >= 1 && a.count < n && b.count < n && FiresAt(a, n, m)
    ensures FiresAt(b, n, m) <==> a.count == b.count
  {
    ResidueIsMod(a.count + (m + 1), n);
    ResidueIsMod(b.count + (m + 1), n);
    if FiresAt(b, n, m) {
      SameRest(a.count, b.count, m + 1, n);
    }
  }

  lemma SameRest(x: nat, y: nat, k: nat, n: int)
    requires n >= 1 && x < n && y < n && (x + k) % n == 0 && (y + k) % n == 0
    ensures x == y
    decreases if x < y then 1 else 0
  {
    if x < y {
      SameRest(y, x, k, n);
    } else {
      var q, r := (x + k) / n, (y + k) / n;
      DifferenceOfMultiples(q, r, x + k, y + k, n);
      RestIsUnique(0, x - y, q - r, 0, n);
    }
  }

  lemma DifferenceOfMultiples(q: int, r: int, x: int, y: int, n: int)
    requires n >= 1 && q == x / n && r == y / n && x % n == 0 && y % n == 0
    ensures (q - r) * n == x - y
  {
    assert x == q * n && y == r * n;
  }

  /** A start fires once in every N runs. */
  function FirstFiring(start: Start, n: int): nat
    requires n >= 1 && start.count < n
  {
    n - 1 - start.count
  }

  lemma FirstFiringFires(start: Start, n: int)
    requires n >= 1 && start.count < n
    ensures FiresAt(start, n, FirstFiring(start, n))
  {
    ResidueIsMod(n, n);
  }

  // ---- when the signature is stable ----

  /** A signature key of a run belongs to a site that fires in it, ... */
  lemma SiteOfKey(
      stretch: seq<Commit>, sites: set<Site>, starts: map<Site, Start>,
      own: Commit -> string, n: nat, m: nat, key: string)
    returns (t: Site)
    requires n >= 1 && m < |stretch| && AllSay(stretch, own) && OnSchedule(stretch, sites, starts, n)
    requires key in SignatureKeys(stretch[m].filtered)
    ensures t in sites && SigKey(t) == key && FiresAt(starts[t], n, m)
  {
    SigKeysOfSites(stretch[m].filtered, key);
    t :| t in Sites(stretch[m].filtered) && SigKey(t) == key;
    SitesThatFire(stretch, sites, starts, own, n, m, t);
  }

  /** ... and every site that fires in it gives it its key. */
  lemma KeyOfSite(
      stretch: seq<Commit>, sites: set<Site>, starts: map<Site, Start>,
      own: Commit -> string, n: nat, m: nat, u: Site)
    requires n >= 1 && m < |stretch| && AllSay(stretch, own) && OnSchedule(stretch, sites, starts, n)
    requires u in sites && FiresAt(starts[u], n, m)
    ensures SigKey(u) in SignatureKeys(stretch[m].filtered)
  {
    SitesThatFire(stretch, sites, starts, own, n, m, u);
    SigKeysOfSites(stretch[m].filtered, SigKey(u));
  }

  lemma Accompany(sites: set<Site>, starts: map<Site, Start>, s: Site, t: Site) returns (u: Site)
    requires starts.Keys == sites && s in sites && t in sites && InStep(sites, starts)
    ensures u in sites && SigKey(u) == SigKey(t) && starts[u].count == starts[s].count
  {
    assert Accompanied(sites, starts, s, t);
    u :| u in sites && SigKey(u) == SigKey(t) && starts[u].count == starts[s].count;
  }

  /** Whichever sites fire in one run, the ones that fire in another have their signature keys. */
  lemma KeyMoves(
      stretch: seq<Commit>, sites: set<Site>, starts: map<Site, Start>,
      own: Commit -> string, n: nat, m: nat, k: nat, key: string)
    requires n >= 1 && AllSay(stretch, own) && OnSchedule(stretch, sites, starts, n)
    requires InStep(sites, starts)
    requires m < |stretch| && k < |stretch| && stretch[k].filtered != []
    requires key in SignatureKeys(stretch[m].filtered)
    ensures key in SignatureKeys(stretch[k].filtered)
  {
    var t := SiteOfKey(stretch, sites, starts, own, n, m, key);
    var first := SignatureKey(stretch[k].filtered[0]);
    assert stretch[k].filtered[0] in stretch[k].filtered;
    var s := SiteOfKey(stretch, sites, starts, own, n, k, first);
    var u := Accompany(sites, starts, s, t);
    FireTogether(starts[s], starts[u], n, k);
    KeyOfSite(stretch, sites, starts, own, n, k, u);
  }

  lemma InStepMeansOneSignature(
      stretch: seq<Commit>, sites: set<Site>, starts: map<Site, Start>,
      own: Commit -> string, n: nat)
    requires n >= 1 && AllSay(stretch, own) && OnSchedule(stretch, sites, starts, n)
    requires InStep(sites, starts)
    ensures OneSignature(stretch)
  {
    forall m, k | 0 <= m < |stretch| && 0 <= k < |stretch| && stretch[m].filtered != [] && stretch[k].filtered != []
      ensures SignatureKeys(stretch[m].filtered) == SignatureKeys(stretch[k].filtered)
    {
      forall key
        ensures key in SignatureKeys(stretch[m].filtered) <==> key in SignatureKeys(stretch[k].filtered)
      {
        if key in SignatureKeys(stretch[m].filtered) {
          KeyMoves(stretch, sites, starts, own, n, m, k, key);
        }
        if key in SignatureKeys(stretch[k].filtered) {
          KeyMoves(stretch, sites, starts, own, n, k, m, key);
        }
      }
    }
  }

  /** The first firing of a site, inside a stretch of at least N runs. */
  lemma FiresInTime(
      stretch: seq<Commit>, sites: set<Site>, starts: map<Site, Start>,
      own: Commit -> string, n: nat, s: Site)
    returns (m: nat)
    requires n >= 1 && |stretch| >= n && AllSay(stretch, own) && OnSchedule(stretch, sites, starts, n)
    requires s in sites
    ensures m < |stretch| && FiresAt(starts[s], n, m) && s in Sites(stretch[m].filtered) && stretch[m].filtered != []
  {
    m := FirstFiring(starts[s], n);
    FirstFiringFires(starts[s], n);
    SitesThatFire(stretch, sites, starts, own, n, m, s);
  }

  lemma OneSignatureMeansInStep(
      stretch: seq<Commit>, sites: set<Site>, starts: map<Site, Start>,
      own: Commit -> string, n: nat)
    requires n >= 1 && |stretch| >= n && AllSay(stretch, own) && OnSchedule(stretch, sites, starts, n)
    requires OneSignature(stretch)
    ensures InStep(sites, starts)
  {
    forall s, t | s in sites && t in sites
      ensures Accompanied(sites, starts, s, t)
    {
      var m := FiresInTime(stretch, sites, starts, own, n, s);
      var k := FiresInTime(stretch, sites, starts, own, n, t);
      SigKeysOfSites(stretch[k].filtered, SigKey(t));
      assert SigKey(t) in SignatureKeys(stretch[m].filtered);
      SigKeysOfSites(stretch[m].filtered, SigKey(t));
      var u :| u in Sites(stretch[m].filtered) && SigKey(u) == SigKey(t);
      SitesThatFire(stretch, sites, starts, own, n, m, u);
      FireTogether(starts[s], starts[u], n, m);
    }
  }

  /** A stable set of warnings keeps one signature exactly when its counters agree up to the signature. */
  lemma OneSignatureExactlyWhen(
      stretch: seq<Commit>, sites: set<Site>, starts: map<Site, Start>,
      own: Commit -> string, n: nat)
    requires n >= 1 && |stretch| >= n && AllSay(stretch, own) && OnSchedule(stretch, sites, starts, n)
    ensures OneSignature(stretch) <==> InStep(sites, starts)
  {
    if InStep(sites, starts) {
      InStepMeansOneSignature(stretch, sites, starts, own, n);
    }
    if OneSignature(stretch) {
      OneSignatureMeansInStep(stretch, sites, starts, own, n);
    }
  }

  /** So in any history: a stable set keeps one signature exactly when its counters agree up to the
      signature where the stretch starts. */
  lemma StableSetKeepsOneSignatureExactlyWhen(
      past: seq<Input>, inputs: seq<Input>, p: Policy, sites: set<Site>, starts: map<Site, Start>)
    requires p.n >= 1
    requires Stable(Since(Run(past, p), Run(past + inputs, p)), Run(past, p).State().pending, sites, starts, p.n)
    requires |Since(Run(past, p), Run(past + inputs, p))| >= p.n
    ensures OneSignature(Since(Run(past, p), Run(past + inputs, p))) <==> InStep(sites, starts)
  {
    StableIsOnSchedule(past, inputs, p, sites, starts);
    OneSignatureExactlyWhen(Since(Run(past, p), Run(past + inputs, p)), sites, starts, OwnSignature(p), p.n);
  }

  // ---- and then the cooldown limits the mails ----

  lemma {:induction false} NoChanges(stretch: seq<Commit>, sig: string)
    requires forall k :: 0 <= k < |stretch| && stretch[k].mail.kind == SendAlert ==> stretch[k].mail.signature == sig
    ensures CountChanges(stretch) == 0
    ensures LastAlert(stretch).Standing? ==> LastAlert(stretch).signature == sig
  {
    if stretch != [] {
      NoChanges(stretch[..|stretch| - 1], sig);
    }
  }

  lemma {:induction false} NoneOfKind(stretch: seq<Commit>, kind: Action)
    requires forall k :: 0 <= k < |stretch| ==> stretch[k].mail.kind != kind
    ensures CountKind(stretch, kind) == 0
  {
    if stretch != [] {
      NoneOfKind(stretch[..|stretch| - 1], kind);
    }
  }

  lemma {:induction false} AllReadable(stretch: seq<Commit>)
    requires forall k :: 0 <= k < |stretch| ==> stretch[k].input.readable
    ensures CountUnreadable(stretch) == 0
  {
    if stretch != [] {
      AllReadable(stretch[..|stretch| - 1]);
    }
  }

  /** The signature of all alert mails of the stretch. */
  lemma SharedSignature(stretch: seq<Commit>, p: Policy) returns (sig: string)
    requires AllSay(stretch, OwnSignature(p)) && OneSignature(stretch)
    ensures forall k :: 0 <= k < |stretch| && stretch[k].mail.kind == SendAlert ==> stretch[k].mail.signature == sig
  {
    if m :| 0 <= m < |stretch| && stretch[m].filtered != [] {
      sig := Signature(stretch[m].filtered, p.digest);
      forall k | 0 <= k < |stretch| && stretch[k].mail.kind == SendAlert
        ensures stretch[k].mail.signature == sig
      {
        assert Says(stretch[k], OwnSignature(p));
        SignatureForgetsOrder(stretch[k].filtered, stretch[m].filtered, p.digest);
      }
    } else {
      sig := "";
      assert forall k :: 0 <= k < |stretch| ==> Says(stretch[k], OwnSignature(p));
    }
  }

  /** The committed runs lo.. of a history see the same sites, on a readable state, each of them steadily
      from the counter it had before run lo. */
  ghost predicate Stable(
    stretch: seq<Commit>, pending: map<string, PendingItem>, sites: set<Site>, starts: map<Site, Start>, n: int)
    requires n >= 1
  {
    && sites != {} && starts.Keys == sites
    && (forall m :: 0 <= m < |stretch| ==> stretch[m].input.readable && Sites(stretch[m].input.raw) == sites)
    && (forall s :: s in sites ==>
          StartsWith(pending, CounterKey(s), n, starts[s]) && SteadyStretch(stretch, CounterKey(s), starts[s], n))
  }

  lemma StableIsOnSchedule(
      past: seq<Input>, inputs: seq<Input>, p: Policy, sites: set<Site>, starts: map<Site, Start>)
    requires p.n >= 1
    requires Stable(Since(Run(past, p), Run(past + inputs, p)), Run(past, p).State().pending, sites, starts, p.n)
    ensures var stretch := Since(Run(past, p), Run(past + inputs, p));
            AllSay(stretch, OwnSignature(p)) && OnSchedule(stretch, sites, starts, p.n)
  {
    var w, v := Run(past, p), Run(past + inputs, p);
    RunFromAfter(START, past, inputs, p);
    EveryCommitSays(past + inputs, p);
    forall s | s in sites
      ensures ReportsOnSchedule(Since(w, v), CounterKey(s), starts[s], p.n)
    {
      FiresEveryNthRun(w, inputs, p, CounterKey(s), starts[s]);
    }
  }

  /** Nothing but time pays for the alert mails of such a stretch. */
  lemma OnlyTimePays(stretch: seq<Commit>, sites: set<Site>, starts: map<Site, Start>, p: Policy)
    requires p.n >= 1 && AllSay(stretch, OwnSignature(p))
    requires OnSchedule(stretch, sites, starts, p.n) && InStep(sites, starts)
    requires forall k :: 0 <= k < |stretch| ==> stretch[k].input.readable
    ensures Allowance(stretch) == 1
  {
    InStepMeansOneSignature(stretch, sites, starts, OwnSignature(p), p.n);
    var sig := SharedSignature(stretch, p);
    NoChanges(stretch, sig);
    NothingRecovers(stretch, sites, p);
    AllReadable(stretch);
  }

  /** A stable set of warnings whose counters are in step sends at most one alert mail, one more for each
      whole cooldown, and one more for each run that could not save that it had sent one. */
  lemma StableSetWithinCooldown(
      past: seq<Input>, inputs: seq<Input>, p: Policy, sites: set<Site>, starts: map<Site, Start>, a: int, length: nat)
    requires p.Valid() && RunsInWindow(inputs, a, a + length)
    requires Stable(Since(Run(past, p), Run(past + inputs, p)), Run(past, p).State().pending, sites, starts, p.n)
    requires InStep(sites, starts)
    ensures AlertsSent(Run(past, p), Run(past + inputs, p))
         <= 1 + length / p.cooldown + CountUnsaved(Run(past, p), inputs, p)
  {
    var w, v := Run(past, p), Run(past + inputs, p);
    StableIsOnSchedule(past, inputs, p, sites, starts);
    OnlyTimePays(Since(w, v), sites, starts, p);
    SentMailsWithinBudget(past, inputs, p, a, length);
    assert Since(w, v) == v.commits[|w.commits|..];
  }

  lemma NothingRecovers(stretch: seq<Commit>, sites: set<Site>, p: Policy)
    requires AllSay(stretch, OwnSignature(p)) && sites != {}
    requires forall m :: 0 <= m < |stretch| ==> Sites(stretch[m].input.raw) == sites
    ensures CountKind(stretch, SendRecovery) == 0
  {
    forall k | 0 <= k < |stretch|
      ensures stretch[k].mail.kind != SendRecovery
    {
      assert Says(stretch[k], OwnSignature(p)) && Sites(stretch[k].input.raw) != Sites([]);
    }
    NoneOfKind(stretch, SendRecovery);
  }
}
