/** The order in which checks are collected does not matter. main.go appends service checks in the
    random order of a Go map. */
module OrderFree {
  import opened Alerts
  import opened Config
  import opened Demotion
  import opened Model
  import opened Notify
  import opened Persistence
  import opened Signatures
  import opened StateFile
  import opened Strings
  import opened Trigger

  lemma SameElementsSameKeys(a: seq<AlertItem>, b: seq<AlertItem>)
    requires Elements(a) == Elements(b)
    ensures SignatureKeys(a) == SignatureKeys(b)
    ensures a == [] <==> b == []
  {
    assert forall it :: it in Elements(a) <==> it in a;
    assert forall it :: it in Elements(b) <==> it in b;
    assert SignatureKeys(a) == set it | it in Elements(a) :: SignatureKey(it);
    assert SignatureKeys(b) == set it | it in Elements(b) :: SignatureKey(it);
    if a != [] { assert a[0] in Elements(b); }
    if b != [] { assert b[0] in Elements(a); }
  }

  /** Two preparations that differ at most in the order and repetition of what fires. */
  ghost predicate SamePreparation(x: Prep, y: Prep) {
    && x.prev == y.prev && x.nextPending == y.nextPending && x.newStreak == y.newStreak
    && x.rawWarnsEmpty == y.rawWarnsEmpty && x.now == y.now
    && (x.filtered == [] <==> y.filtered == [])
    && SignatureKeys(x.filtered) == SignatureKeys(y.filtered)
  }

  lemma PreparationForgetsOrder(a: seq<AlertItem>, b: seq<AlertItem>, prev: State, n: int, now: int)
    requires Elements(a) == Elements(b)
    ensures SamePreparation(Prepared(a, prev, n, now), Prepared(b, prev, n, now))
  {
    PassForgetsOrder(a, b, prev.pending, n, now);
    SameElementsSameKeys(a, b);
    SameElementsSameKeys(Firing(a, prev.pending, n, now), Firing(b, prev.pending, n, now));
  }

  lemma ChoiceBySignature(x: Prep, y: Prep, p: Policy)
    requires x.prev == y.prev && x.newStreak == y.newStreak && x.rawWarnsEmpty == y.rawWarnsEmpty && x.now == y.now
    requires x.filtered == [] <==> y.filtered == []
    requires Signature(x.filtered, p.digest) == Signature(y.filtered, p.digest)
    ensures Choose(x, p) == Choose(y, p)
  {
    assert |x.filtered| > 0 <==> |y.filtered| > 0;
  }

  lemma ChoiceForgetsOrder(x: Prep, y: Prep, p: Policy)
    requires SamePreparation(x, y)
    ensures Signature(x.filtered, p.digest) == Signature(y.filtered, p.digest)
    ensures Choose(x, p) == Choose(y, p)
  {
    SignatureForgetsOrder(x.filtered, y.filtered, p.digest);
    ChoiceBySignature(x, y, p);
  }

  lemma DecisionForgetsOrder(x: Prep, y: Prep, p: Policy)
    requires SamePreparation(x, y)
    ensures Choose(x, p) == Choose(y, p)
    ensures MailOf(x, p) == MailOf(y, p)
    ensures NextState(x, p) == NextState(y, p)
  {
    ChoiceForgetsOrder(x, y, p);
  }

  /** Two runs that see the same set of warnings, in whatever order and however often each. */
  ghost predicate SameWarnings(i: Input, j: Input) {
    && Elements(i.raw) == Elements(j.raw)
    && i.now == j.now && i.readable == j.readable && i.sendOk == j.sendOk && i.saveOk == j.saveOk
  }

  lemma StepIsItsDecision(w: World, i: Input, p: Policy)
    ensures var ctx := Context(w, i, p);
            var action := Choose(ctx, p);
            && Step(w, i, p).file
               == (if i.saveOk && (action == NoAction || i.sendOk) then Holds(NextState(ctx, p)) else w.file)
            && Step(w, i, p).sent == (if action != NoAction && i.sendOk then w.sent + [MailOf(ctx, p)] else w.sent)
  {
  }

  lemma StepForgetsOrder(v: World, w: World, i: Input, j: Input, p: Policy)
    requires v.file == w.file && v.sent == w.sent && SameWarnings(i, j)
    ensures Step(v, i, p).file == Step(w, j, p).file && Step(v, i, p).sent == Step(w, j, p).sent
  {
    var x, y := Context(v, i, p), Context(w, j, p);
    PreparationForgetsOrder(i.raw, j.raw, Loaded(v.file, i.readable), p.n, i.now);
    DecisionForgetsOrder(x, y, p);
    StepIsItsDecision(v, i, p);
    StepIsItsDecision(w, j, p);
  }

  /** Whole histories: state file and mails depend only on the sets of warnings. */
  lemma {:induction false} HistoryForgetsOrder(a: seq<Input>, b: seq<Input>, p: Policy)
    requires |a| == |b| && forall k :: 0 <= k < |a| ==> SameWarnings(a[k], b[k])
    ensures Run(a, p).file == Run(b, p).file && Run(a, p).sent == Run(b, p).sent
  {
    if a != [] {
      var n := |a| - 1;
      HistoryForgetsOrder(a[..n], b[..n], p);
      StepForgetsOrder(Run(a[..n], p), Run(b[..n], p), a[n], b[n], p);
    }
  }

  /** The Warn rows of a report, as a set. */
  function WarnRows(checks: seq<CheckResult>): set<CheckResult> {
    set c | c in checks && c.status == Warn
  }

  /** Reports with the same set of Warn rows, for instance one with its rows permuted or a Warn row
      repeated, are prepared alike. */
  lemma ReportOrderIsIrrelevant(
      hosts: seq<HostChecks>, a: seq<CheckResult>, b: seq<CheckResult>, prev: State, p: Policy, now: int)
    requires WarnRows(a) == WarnRows(b)
    ensures var x, y := Prepared(Extracted(hosts, a), prev, p.n, now), Prepared(Extracted(hosts, b), prev, p.n, now);
            && x.nextPending == y.nextPending && x.newStreak == y.newStreak
            && Signature(x.filtered, p.digest) == Signature(y.filtered, p.digest)
            && Choose(x, p) == Choose(y, p) && NextState(x, p) == NextState(y, p)
  {
    var m := HostByField(hosts);
    WarnItemsAsSet(m, a);
    WarnItemsAsSet(m, b);
    assert WarnAlerts(m, a) == set c | c in WarnRows(a) :: ToAlert(m, c);
    assert WarnAlerts(m, b) == set c | c in WarnRows(b) :: ToAlert(m, c);
    PreparationForgetsOrder(Extracted(hosts, a), Extracted(hosts, b), prev, p.n, now);
    var x, y := Prepared(Extracted(hosts, a), prev, p.n, now), Prepared(Extracted(hosts, b), prev, p.n, now);
    ChoiceForgetsOrder(x, y, p);
    DecisionForgetsOrder(x, y, p);
  }

  lemma DemoteConcat(a: seq<CheckResult>, b: seq<CheckResult>, m: map<string, string>, keys: set<string>)
    ensures DemoteRows(a + b, m, keys) == DemoteRows(a, m, keys) + DemoteRows(b, m, keys)
  {
  }

  lemma {:induction false} DemotionOfPermutation(
      a: seq<CheckResult>, b: seq<CheckResult>, m: map<string, string>, keys: set<string>)
    requires multiset(a) == multiset(b)
    ensures multiset(DemoteRows(a, m, keys)) == multiset(DemoteRows(b, m, keys))
    decreases |a|
  {
    if a == [] {
      assert |b| == |multiset(b)| == 0;
      assert DemoteRows(a, m, keys) == DemoteRows(b, m, keys);
    } else {
      var n := |a| - 1;
      var k := TakeOut(a, b);
      var left, right, last := b[..k], b[k + 1..], [a[n]];
      DemotionOfPermutation(a[..n], left + right, m, keys);
      assert a == a[..n] + last && b == left + last + right;
      DemoteConcat(a[..n], last, m, keys);
      DemoteConcat(left + last, right, m, keys);
      DemoteConcat(left, last, m, keys);
      DemoteConcat(left, right, m, keys);
    }
  }

  /** The summary of a report once its waiting rows are demoted. */
  function SummaryAfter(hosts: seq<HostChecks>, checks: seq<CheckResult>, prev: State, n: int, now: int): CheckSummary {
    var keys := Pass(Extracted(hosts, checks), prev.pending, n, now).pendingKeys;
    Tally(DemoteRows(checks, HostByField(hosts), keys))
  }

  /** A permuted report also has the same summary after demotion. */
  lemma SummaryForgetsOrder(
      hosts: seq<HostChecks>, a: seq<CheckResult>, b: seq<CheckResult>, prev: State, n: int, now: int)
    requires multiset(a) == multiset(b)
    ensures SummaryAfter(hosts, a, prev, n, now) == SummaryAfter(hosts, b, prev, n, now)
  {
    var m := HostByField(hosts);
    assert forall c :: c in a <==> c in multiset(a);
    assert forall c :: c in b <==> c in multiset(b);
    WarnItemsAsSet(m, a);
    WarnItemsAsSet(m, b);
    assert WarnAlerts(m, a) == WarnAlerts(m, b);
    PassForgetsOrder(Extracted(hosts, a), Extracted(hosts, b), prev.pending, n, now);
    var keys := Pass(Extracted(hosts, a), prev.pending, n, now).pendingKeys;
    DemotionOfPermutation(a, b, m, keys);
    var x, y := DemoteRows(a, m, keys), DemoteRows(b, m, keys);
    CountForgetsOrder(x, y, OK);
    CountForgetsOrder(x, y, Warn);
    CountForgetsOrder(x, y, Unknown);
  }
}
