/** What a stable set of warnings costs when its counters are out of step: whatever the cooldown is, it
    sends at least one alert mail in every N runs. So the cooldown limits the mails about a stable set
    exactly when its counters are in step. */
module OutOfStep {
  import opened Alerts
  import opened Config
  import opened Confirmation
  import opened MailBudget
  import opened MailHistory
  import opened Notify
  import opened Signatures
  import opened StableSet
  import opened StateFile
  import opened Trigger

  // ---- two signatures cost a mail ----

  /** What a committed run tells: its alert mail carries its own signature, it recovers only when it sees
      nothing, and if it fires and does not mail, it found an alert standing with its own signature. */
  ghost predicate Tells(before: seq<Commit>, c: Commit, own: Commit -> string) {
    && (c.mail.kind == SendAlert ==> c.mail.signature == own(c))
    && (c.mail.kind == SendRecovery ==> c.input.raw == [])
    && (c.filtered != [] && c.input.readable && c.mail.kind != SendAlert ==>
          StandingAlert(before).Standing? && StandingAlert(before).signature == own(c))
  }

  ghost predicate AllTell(commits: seq<Commit>, own: Commit -> string) {
    forall k :: 0 <= k < |commits| ==> Tells(commits[..k], commits[k], own)
  }

  lemma TellStep(commits: seq<Commit>, c: Commit, own: Commit -> string)
    requires AllTell(commits, own) && Tells(commits, c, own)
    ensures AllTell(commits + [c], own)
  {
    var all := commits + [c];
    forall k | 0 <= k < |all|
      ensures Tells(all[..k], all[k], own)
    {
      if k < |commits| {
        assert all[..k] == commits[..k];
      } else {
        assert all[..k] == commits;
      }
    }
  }

  lemma {:induction false} EveryCommitTells(inputs: seq<Input>, p: Policy)
    requires p.Valid()
    ensures AllTell(Run(inputs, p).commits, OwnSignature(p))
  {
    if inputs != [] {
      var init, i := inputs[..|inputs| - 1], inputs[|inputs| - 1];
      var w := Run(init, p);
      EveryCommitTells(init, p);
      StateNeverRunsAheadOfMail(init, p);
      WhatChooses(w, i, p);
      var c := StepAndMail(w, i, p);
      if c.mail.kind == SendRecovery {
        RecoveryNeedsCleanRun(w, i, p);
      }
      if Commits(w, i, p) {
        TellStep(w.commits, c, OwnSignature(p));
      }
    }
  }

  /** The runs from x to y read their state and see something. */
  ghost predicate Busy(commits: seq<Commit>, x: nat, y: nat) {
    x <= y < |commits| && forall z :: x <= z <= y ==> commits[z].input.readable && commits[z].input.raw != []
  }

  /** After a firing run an alert with its signature stands, whether the run mailed it or not. */
  lemma StandsAfter(commits: seq<Commit>, x: nat, own: Commit -> string)
    requires AllTell(commits, own) && Busy(commits, x, x) && commits[x].filtered != []
    ensures StandingAlert(commits[..x + 1]).Standing?
    ensures StandingAlert(commits[..x + 1]).signature == own(commits[x])
  {
    assert Tells(commits[..x], commits[x], own);
    assert commits[..x + 1] == commits[..x] + [commits[x]];
    StandingStep(commits[..x], commits[x]);
  }

  /** A run that sees something and does not mail changes nothing about that. */
  lemma StandsOn(commits: seq<Commit>, y: nat, own: Commit -> string)
    requires AllTell(commits, own) && Busy(commits, y, y) && commits[y].mail.kind != SendAlert
    ensures StandingAlert(commits[..y + 1]) == StandingAlert(commits[..y])
  {
    assert Tells(commits[..y], commits[y], own);
    assert commits[..y + 1] == commits[..y] + [commits[y]];
    StandingStep(commits[..y], commits[y]);
  }

  /** It goes on standing while no run mails. */
  lemma {:induction false} StandsUntil(commits: seq<Commit>, x: nat, y: nat, own: Commit -> string)
    requires Busy(commits, x, y) && AllTell(commits, own)
    requires forall z :: x < z <= y ==> commits[z].mail.kind != SendAlert
    ensures StandingAlert(commits[..y + 1]) == StandingAlert(commits[..x + 1])
    decreases y - x
  {
    if x < y {
      StandsUntil(commits, x, y - 1, own);
      StandsOn(commits, y, own);
    }
  }

  /** Two firing runs with different signatures have an alert mail after the first and no later than the
      second. */
  lemma DifferentSignaturesMail(commits: seq<Commit>, x: nat, y: nat, own: Commit -> string)
    requires AllTell(commits, own) && x < y && Busy(commits, x, y)
    requires commits[x].filtered != [] && commits[y].filtered != [] && own(commits[x]) != own(commits[y])
    ensures exists z :: x < z <= y && commits[z].mail.kind == SendAlert
  {
    if forall z :: x < z <= y ==> commits[z].mail.kind != SendAlert {
      StandsAfter(commits, x, own);
      StandsUntil(commits, x, y - 1, own);
      assert Tells(commits[..y], commits[y], own);
    }
  }

  // ---- every N runs ----

  lemma {:induction false} ResidueOfBlocks(n: nat, j: nat)
    requires n >= 1
    ensures Waits(n, j) >= 0 && Residue(Waits(n, j), n) == 0
  {
    if j > 0 {
      ResidueOfBlocks(n, j - 1);
      ResidueAfterBlock(Waits(n, j - 1), n);
    }
  }

  lemma {:induction false} ResidueAfterBlock(k: nat, n: nat)
    requires n >= 1
    ensures Residue(k + n, n) == Residue(k, n)
  {
    if k == 0 {
      ResidueIsMod(n, n);
    } else {
      ResidueAfterBlock(k - 1, n);
      assert k + n - 1 == k - 1 + n;
    }
  }

  /** The run of block j in which a site fires. */
  lemma FiresInBlock(start: Start, n: nat, j: nat) returns (m: nat)
    requires n >= 1 && start.count < n
    ensures Waits(n, j) <= m < Waits(n, j + 1) && FiresAt(start, n, m)
  {
    ResidueOfBlocks(n, j);
    ResidueOfBlocks(n, j + 1);
    m := Waits(n, j) + FirstFiring(start, n);
    assert start.count + (m + 1) == Waits(n, j + 1);
  }

  /** The digest tells the signature keys of the stretch apart. */
  ghost predicate TellsApart(stretch: seq<Commit>, own: Commit -> string) {
    forall c, d :: c in stretch && d in stretch && SignatureKeys(c.filtered) != SignatureKeys(d.filtered) ==>
      own(c) != own(d)
  }

  /** Out of step, every block of N runs holds two firing runs with different signature keys. */
  lemma TwoKeysInBlock(
      stretch: seq<Commit>, sites: set<Site>, starts: map<Site, Start>,
      own: Commit -> string, n: nat, j: nat)
    returns (m: nat, k: nat)
    requires n >= 1 && AllSay(stretch, own) && OnSchedule(stretch, sites, starts, n) && !InStep(sites, starts)
    requires Waits(n, j + 1) <= |stretch|
    ensures Waits(n, j) <= m < Waits(n, j + 1) && Waits(n, j) <= k < Waits(n, j + 1)
    ensures stretch[m].filtered != [] && stretch[k].filtered != []
    ensures SignatureKeys(stretch[m].filtered) != SignatureKeys(stretch[k].filtered)
  {
    var s, t :| s in sites && t in sites && !Accompanied(sites, starts, s, t);
    m := FiresInBlock(starts[s], n, j);
    k := FiresInBlock(starts[t], n, j);
    KeyOfSite(stretch, sites, starts, own, n, m, s);
    KeyOfSite(stretch, sites, starts, own, n, k, t);
    if SigKey(t) in SignatureKeys(stretch[m].filtered) {
      var u := SiteOfKey(stretch, sites, starts, own, n, m, SigKey(t));
      FireTogether(starts[s], starts[u], n, m);
    }
    NonEmptyKeys(stretch[m].filtered, SigKey(s));
    NonEmptyKeys(stretch[k].filtered, SigKey(t));
  }

  lemma NonEmptyKeys(items: seq<AlertItem>, key: string)
    requires key in SignatureKeys(items)
    ensures items != []
  {
  }

  /** The stretch has an alert mail among its runs from..to. */
  ghost predicate MailsIn(stretch: seq<Commit>, from: int, to: int) {
    exists z :: 0 <= from <= z < to && z < |stretch| && stretch[z].mail.kind == SendAlert
  }

  lemma OneMore(stretch: seq<Commit>, from: nat, to: nat)
    requires from <= to <= |stretch| && MailsIn(stretch, from, to)
    ensures CountKind(stretch[..to], SendAlert) >= CountKind(stretch[..from], SendAlert) + 1
  {
    var z :| from <= z < to && stretch[z].mail.kind == SendAlert;
    var front := stretch[..to];
    CountSplits(front, from, SendAlert);
    CountSplits(front[from..], z - from, SendAlert);
    assert front[..from] == stretch[..from];
    AtLeastOne(front[from..][z - from..]);
  }

  lemma {:induction false} AtLeastOne(commits: seq<Commit>)
    requires commits != [] && commits[0].mail.kind == SendAlert
    ensures CountKind(commits, SendAlert) >= 1
  {
    if |commits| > 1 {
      AtLeastOne(commits[..|commits| - 1]);
    } else {
      assert commits[..0] == [];
    }
  }

  // ---- the price of being out of step ----

  ghost predicate AllBusy(stretch: seq<Commit>) {
    forall c :: c in stretch ==> c.input.readable && c.input.raw != []
  }

  lemma BusyInside(commits: seq<Commit>, lo: nat, x: nat, y: nat)
    requires lo <= |commits| && AllBusy(commits[lo..]) && x <= y < |commits[lo..]|
    ensures Busy(commits, lo + x, lo + y)
  {
    forall z | lo + x <= z <= lo + y
      ensures commits[z].input.readable && commits[z].input.raw != []
    {
      assert commits[lo..][z - lo] == commits[z];
    }
  }

  /** Two runs of the stretch that fire with different signatures have an alert mail among them. */
  lemma MailAmong(
      commits: seq<Commit>, lo: nat, x: nat, y: nat, from: nat, to: nat, own: Commit -> string)
    requires AllTell(commits, own) && lo <= |commits| && AllBusy(commits[lo..])
    requires from <= x < y < to && y < |commits[lo..]|
    requires commits[lo..][x].filtered != [] && commits[lo..][y].filtered != []
    requires own(commits[lo..][x]) != own(commits[lo..][y])
    ensures MailsIn(commits[lo..], from, to)
  {
    BusyInside(commits, lo, x, y);
    DifferentSignaturesMail(commits, lo + x, lo + y, own);
    var z :| lo + x < z <= lo + y && commits[z].mail.kind == SendAlert;
    assert commits[lo..][z - lo].mail.kind == SendAlert;
  }

  /** Every block of N runs holds an alert mail. */
  lemma BlockMails(
      commits: seq<Commit>, lo: nat, sites: set<Site>, starts: map<Site, Start>, own: Commit -> string, n: nat, j: nat)
    requires n >= 1 && lo <= |commits| && AllTell(commits, own) && AllSay(commits[lo..], own)
    requires OnSchedule(commits[lo..], sites, starts, n) && !InStep(sites, starts)
    requires AllBusy(commits[lo..])
    requires TellsApart(commits[lo..], own) && Waits(n, j + 1) <= |commits[lo..]|
    ensures BlockHasMail(commits[lo..], n, j)
  {
    var m, k := TwoKeysInBlock(commits[lo..], sites, starts, own, n, j);
    ResidueOfBlocks(n, j);
    ToldApart(commits[lo..], own, m, k);
    if m < k {
      MailAmong(commits, lo, m, k, Waits(n, j), Waits(n, j + 1), own);
    } else {
      MailAmong(commits, lo, k, m, Waits(n, j), Waits(n, j + 1), own);
    }
  }

  lemma ToldApart(stretch: seq<Commit>, own: Commit -> string, m: nat, k: nat)
    requires TellsApart(stretch, own) && m < |stretch| && k < |stretch|
    requires SignatureKeys(stretch[m].filtered) != SignatureKeys(stretch[k].filtered)
    ensures m != k && own(stretch[m]) != own(stretch[k])
  {
    assert stretch[m] in stretch && stretch[k] in stretch;
  }

  /** The whole blocks of a stretch. */
  lemma BlocksFit(n: nat, length: nat) returns (b: nat)
    requires n >= 1
    ensures b == length / n && 0 <= Waits(n, b) <= length
  {
    b := length / n;
    WaitsAre(n, b);
  }

  /** The first `b` blocks have at least `b` alert mails. */
  ghost predicate Counted(stretch: seq<Commit>, n: nat, b: nat) {
    0 <= Waits(n, b) <= |stretch| && CountKind(stretch[..Waits(n, b)], SendAlert) >= b
  }

  lemma CountedNext(stretch: seq<Commit>, n: nat, b: nat)
    requires n >= 1 && b > 0 && Counted(stretch, n, b - 1) && Waits(n, b) <= |stretch|
    requires MailsIn(stretch, Waits(n, b - 1), Waits(n, b))
    ensures Counted(stretch, n, b)
  {
    OneMore(stretch, Waits(n, b - 1), Waits(n, b));
  }

  ghost predicate BlockHasMail(stretch: seq<Commit>, n: nat, j: nat) {
    MailsIn(stretch, Waits(n, j), Waits(n, j + 1))
  }

  /** The blocks add up. */
  lemma {:induction false} BlocksAddUp(stretch: seq<Commit>, n: nat, b: nat)
    requires n >= 1 && Waits(n, b) <= |stretch|
    requires forall j: nat {:trigger BlockHasMail(stretch, n, j)} ::
               Waits(n, j + 1) <= |stretch| ==> BlockHasMail(stretch, n, j)
    ensures Counted(stretch, n, b)
  {
    if b > 0 {
      assert Waits(n, b) == Waits(n, b - 1) + n;
      BlocksAddUp(stretch, n, b - 1);
      assert BlockHasMail(stretch, n, b - 1);
      CountedNext(stretch, n, b);
    }
  }

  lemma EveryBlockMails(
      commits: seq<Commit>, lo: nat, sites: set<Site>, starts: map<Site, Start>, own: Commit -> string, n: nat)
    requires n >= 1 && lo <= |commits| && AllTell(commits, own) && AllSay(commits[lo..], own)
    requires OnSchedule(commits[lo..], sites, starts, n) && !InStep(sites, starts)
    requires AllBusy(commits[lo..]) && TellsApart(commits[lo..], own)
    ensures forall j: nat {:trigger BlockHasMail(commits[lo..], n, j)} ::
              Waits(n, j + 1) <= |commits[lo..]| ==> BlockHasMail(commits[lo..], n, j)
  {
    forall j: nat | Waits(n, j + 1) <= |commits[lo..]|
      ensures BlockHasMail(commits[lo..], n, j)
    {
      BlockMails(commits, lo, sites, starts, own, n, j);
    }
  }

  lemma StretchMails(
      commits: seq<Commit>, lo: nat, sites: set<Site>, starts: map<Site, Start>, own: Commit -> string, n: nat)
    requires n >= 1 && lo <= |commits| && AllTell(commits, own) && AllSay(commits[lo..], own)
    requires OnSchedule(commits[lo..], sites, starts, n) && !InStep(sites, starts)
    requires AllBusy(commits[lo..]) && TellsApart(commits[lo..], own)
    ensures CountKind(commits[lo..], SendAlert) >= |commits[lo..]| / n
  {
    EveryBlockMails(commits, lo, sites, starts, own, n);
    CountOfBlocks(commits[lo..], n);
  }

  lemma CountOfBlocks(stretch: seq<Commit>, n: nat)
    requires n >= 1
    requires forall j: nat {:trigger BlockHasMail(stretch, n, j)} ::
               Waits(n, j + 1) <= |stretch| ==> BlockHasMail(stretch, n, j)
    ensures CountKind(stretch, SendAlert) >= |stretch| / n
  {
    var b := BlocksFit(n, |stretch|);
    BlocksAddUp(stretch, n, b);
    CountSplits(stretch, Waits(n, b), SendAlert);
  }

  /** The committed runs of a stable stretch see something on a readable state. */
  lemma StableIsBusy(
      stretch: seq<Commit>, pending: map<string, PendingItem>, sites: set<Site>, starts: map<Site, Start>, n: int)
    requires n >= 1 && Stable(stretch, pending, sites, starts, n)
    ensures AllBusy(stretch)
  {
    forall c | c in stretch
      ensures c.input.readable && c.input.raw != []
    {
      var m :| 0 <= m < |stretch| && stretch[m] == c;
      assert Sites(stretch[m].input.raw) != Sites([]);
    }
  }

  /** Out of step, a stable set sends at least one alert mail in every N committed runs, whatever the
      cooldown is. */
  lemma OutOfStepMails(
      past: seq<Input>, inputs: seq<Input>, p: Policy, sites: set<Site>, starts: map<Site, Start>)
    requires p.Valid()
    requires Stable(Since(Run(past, p), Run(past + inputs, p)), Run(past, p).State().pending, sites, starts, p.n)
    requires !InStep(sites, starts)
    requires TellsApart(Since(Run(past, p), Run(past + inputs, p)), OwnSignature(p))
    ensures var stretch := Since(Run(past, p), Run(past + inputs, p));
            CountKind(stretch, SendAlert) >= |stretch| / p.n
  {
    var w, v := Run(past, p), Run(past + inputs, p);
    CommitsGrow(past, inputs, p);
    StableIsOnSchedule(past, inputs, p, sites, starts);
    StableIsBusy(Since(w, v), w.State().pending, sites, starts, p.n);
    EveryCommitTells(past + inputs, p);
    StretchMails(v.commits, |w.commits|, sites, starts, OwnSignature(p), p.n);
  }

  lemma CommitsGrow(past: seq<Input>, inputs: seq<Input>, p: Policy)
    ensures Run(past, p).commits <= Run(past + inputs, p).commits
  {
    RunFromAfter(START, past, inputs, p);
    CommitsOnlyGrow(Run(past, p), inputs, p);
  }

  lemma WindowSince(past: seq<Input>, inputs: seq<Input>, p: Policy, a: int, b: int)
    requires RunsInWindow(inputs, a, b)
    ensures var w, v := Run(past, p), Run(past + inputs, p);
            w.commits <= v.commits && InWindow(v.commits, |w.commits|, |v.commits|, a, b)
  {
    RunFromAfter(START, past, inputs, p);
    CommitsInWindow(Run(past, p), inputs, a, b, p);
  }

  lemma BudgetSince(w: World, v: World, cooldown: int, a: int, length: nat)
    requires w.commits <= v.commits && InWindow(v.commits, |w.commits|, |v.commits|, a, a + length)
    requires 0 < cooldown && AllAlertsDue(v.commits, cooldown)
    ensures CountKind(Since(w, v), SendAlert) <= Allowance(Since(w, v)) + length / cooldown
  {
    WindowWithinBudget(v.commits, cooldown, |w.commits|, |v.commits|, a, length);
    assert v.commits[|w.commits|..|v.commits|] == Since(w, v);
  }

  /** The budget for the committed mails of some runs. */
  lemma CommittedSince(past: seq<Input>, inputs: seq<Input>, p: Policy, a: int, length: nat)
    requires p.Valid() && RunsInWindow(inputs, a, a + length)
    ensures var stretch := Since(Run(past, p), Run(past + inputs, p));
            CountKind(stretch, SendAlert) <= Allowance(stretch) + length / p.cooldown
  {
    WindowSince(past, inputs, p, a, a + length);
    AlertsAreDue(past + inputs, p);
    BudgetSince(Run(past, p), Run(past + inputs, p), p.cooldown, a, length);
  }

  /** In step, it sends at most one, and one more for each whole cooldown. */
  lemma InStepMails(
      past: seq<Input>, inputs: seq<Input>, p: Policy, sites: set<Site>, starts: map<Site, Start>, a: int, length: nat)
    requires p.Valid() && RunsInWindow(inputs, a, a + length)
    requires Stable(Since(Run(past, p), Run(past + inputs, p)), Run(past, p).State().pending, sites, starts, p.n)
    requires InStep(sites, starts)
    ensures CountKind(Since(Run(past, p), Run(past + inputs, p)), SendAlert) <= 1 + length / p.cooldown
  {
    StableIsOnSchedule(past, inputs, p, sites, starts);
    OnlyTimePays(Since(Run(past, p), Run(past + inputs, p)), sites, starts, p);
    CommittedSince(past, inputs, p, a, length);
  }

  /** So the cooldown limits the alert mails about a stable set exactly when its counters are in step, as
      soon as the stretch is long enough for the two to differ. */
  lemma CooldownLimitsExactlyWhen(
      past: seq<Input>, inputs: seq<Input>, p: Policy, sites: set<Site>, starts: map<Site, Start>, a: int, length: nat)
    requires p.Valid() && RunsInWindow(inputs, a, a + length)
    requires Stable(Since(Run(past, p), Run(past + inputs, p)), Run(past, p).State().pending, sites, starts, p.n)
    requires TellsApart(Since(Run(past, p), Run(past + inputs, p)), OwnSignature(p))
    requires |Since(Run(past, p), Run(past + inputs, p))| / p.n > 1 + length / p.cooldown
    ensures CountKind(Since(Run(past, p), Run(past + inputs, p)), SendAlert) <= 1 + length / p.cooldown
       <==> InStep(sites, starts)
  {
    if InStep(sites, starts) {
      InStepMails(past, inputs, p, sites, starts, a, length);
    } else {
      OutOfStepMails(past, inputs, p, sites, starts);
    }
  }
}
