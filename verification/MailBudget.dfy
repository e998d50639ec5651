/** How many alert mails a window of time can hold. */
module MailBudget {
  import opened Config
  import opened MailHistory
  import opened Notify
  import opened Persistence
  import opened Signatures
  import opened StateFile
  import opened Trigger

  function CountKind(commits: seq<Commit>, kind: Action): nat {
    if commits == [] then 0
    else CountKind(commits[..|commits| - 1], kind) + (if commits[|commits| - 1].mail.kind == kind then 1 else 0)
  }

  /** Runs that had to start from nothing because the state file could not be read. */
  function CountUnreadable(commits: seq<Commit>): nat {
    if commits == [] then 0
    else CountUnreadable(commits[..|commits| - 1]) + (if commits[|commits| - 1].input.readable then 0 else 1)
  }

  /** The last alert mail of a stretch, whatever came after it. */
  function LastAlert(commits: seq<Commit>): Standing {
    if commits == [] then Nothing
    else if commits[|commits| - 1].mail.kind == SendAlert
    then Standing(commits[|commits| - 1].mail.at, commits[|commits| - 1].mail.signature)
    else LastAlert(commits[..|commits| - 1])
  }

  /** Pairs of consecutive alert mails with different signatures. */
  function CountChanges(commits: seq<Commit>): nat {
    if commits == [] then 0
    else
      var before, last := commits[..|commits| - 1], commits[|commits| - 1];
      CountChanges(before)
      + (if last.mail.kind == SendAlert && LastAlert(before).Standing?
            && LastAlert(before).signature != last.mail.signature
         then 1 else 0)
  }

  /** An alert mail of a run that could read its state differs from the standing alert, or comes a
      full cooldown after it. */
  ghost predicate AlertIsDue(before: seq<Commit>, c: Commit, cooldown: int) {
    c.mail.kind == SendAlert && c.input.readable && StandingAlert(before).Standing? ==>
      c.mail.signature != StandingAlert(before).signature || c.mail.at - StandingAlert(before).at >= cooldown
  }

  ghost predicate AllAlertsDue(commits: seq<Commit>, cooldown: int) {
    forall k :: 0 <= k < |commits| ==>
      commits[k].mail.at == commits[k].input.now && AlertIsDue(commits[..k], commits[k], cooldown)
  }

  lemma {:induction false} AlertsAreDue(inputs: seq<Input>, p: Policy)
    requires p.Valid()
    ensures AllAlertsDue(Run(inputs, p).commits, p.cooldown)
  {
    if inputs != [] {
      var init, i := inputs[..|inputs| - 1], inputs[|inputs| - 1];
      var w := Run(init, p);
      AlertsAreDue(init, p);
      StateNeverRunsAheadOfMail(init, p);
      WhatChooses(w, i, p);
      var c := StepAndMail(w, i, p);
      if Commits(w, i, p) {
        DueStep(w.commits, c, p.cooldown);
      }
    }
  }

  lemma DueStep(commits: seq<Commit>, c: Commit, cooldown: int)
    requires AllAlertsDue(commits, cooldown) && AlertIsDue(commits, c, cooldown) && c.mail.at == c.input.now
    ensures AllAlertsDue(commits + [c], cooldown)
  {
    var all := commits + [c];
    forall k | 0 <= k < |all|
      ensures all[k].mail.at == all[k].input.now && AlertIsDue(all[..k], all[k], cooldown)
    {
      if k < |commits| {
        assert all[..k] == commits[..k];
      } else {
        assert all[..k] == commits;
      }
    }
  }

  /** The committed runs lo..hi happened between times a and b, on a clock that did not go back. */
  ghost predicate InWindow(commits: seq<Commit>, lo: nat, hi: nat, a: int, b: int) {
    && lo <= hi <= |commits|
    && (forall k :: lo <= k < hi ==> a <= commits[k].input.now <= b)
    && (forall j, k :: lo <= j <= k < hi ==> commits[j].input.now <= commits[k].input.now)
  }

  /** What pays for the alert mails of a stretch, besides time. */
  function Allowance(window: seq<Commit>): nat {
    1 + CountKind(window, SendRecovery) + CountUnreadable(window) + CountChanges(window)
  }

  /** `g` cooldowns. */
  function Waits(cooldown: int, g: nat): int {
    if g == 0 then 0 else Waits(cooldown, g - 1) + cooldown
  }

  /** The account after the runs lo..hi: `g` cooldowns have been waited for, and an alert that no
      longer stands has left one unit of the allowance unused. */
  ghost predicate Account(commits: seq<Commit>, lo: nat, hi: nat, a: int, cooldown: int, g: nat)
    requires lo <= hi <= |commits|
  {
    var window, standing := commits[lo..hi], StandingAlert(commits[..hi]);
    var last := LastAlert(window);
    match last
    case Nothing => g == 0 && CountKind(window, SendAlert) == 0
    case Standing(at, _) =>
      && Balanced(CountKind(window, SendAlert), Allowance(window), g, at, a, cooldown, standing.Standing?)
      && (standing.Standing? ==> standing == last)
      && exists k :: lo <= k < hi && commits[k].input.now == at
  }

  /** The counters of a window that grows by one run. */
  lemma WindowStep(before: seq<Commit>, c: Commit)
    ensures var window, last := before + [c], LastAlert(before);
            && CountKind(window, SendAlert)
               == CountKind(before, SendAlert) + (if c.mail.kind == SendAlert then 1 else 0)
            && LastAlert(window) == (if c.mail.kind == SendAlert then Standing(c.mail.at, c.mail.signature) else last)
            && Allowance(window) == Allowance(before)
                 + (if c.mail.kind == SendRecovery then 1 else 0)
                 + (if c.input.readable then 0 else 1)
                 + (if c.mail.kind == SendAlert && last.Standing? && last.signature != c.mail.signature then 1 else 0)
  {
    assert (before + [c])[..|before|] == before;
  }

  /** The account on plain numbers: `alerts` mails, the last of them at `at`. */
  predicate Balanced(alerts: nat, allowance: nat, g: nat, at: int, a: int, cooldown: int, standing: bool) {
    alerts + (if standing then 0 else 1) <= allowance + g && Waits(cooldown, g) <= at - a
  }

  /** A first alert, or one more. */
  lemma AlertIsPaidFor(before: seq<Commit>, c: Commit, standing: Standing, a: int, cooldown: int, g: nat)
    returns (g': nat)
    requires 0 < cooldown && c.mail.kind == SendAlert && a <= c.mail.at
    requires LastAlert(before).Nothing? ==> g == 0 && CountKind(before, SendAlert) == 0
    requires LastAlert(before).Standing? ==>
               && LastAlert(before).at <= c.mail.at
               && Balanced(CountKind(before, SendAlert), Allowance(before), g,
                           LastAlert(before).at, a, cooldown, standing.Standing?)
               && (standing.Standing? ==> standing == LastAlert(before))
    requires c.input.readable && standing.Standing? ==>
               c.mail.signature != standing.signature || c.mail.at - standing.at >= cooldown
    ensures Balanced(CountKind(before + [c], SendAlert), Allowance(before + [c]), g', c.mail.at, a, cooldown, true)
  {
    WindowStep(before, c);
    g' := g;
    if LastAlert(before).Standing? && c.input.readable && standing.Standing? && c.mail.signature == standing.signature {
      g' := g + 1;
    }
  }

  lemma AccountStep(commits: seq<Commit>, lo: nat, hi: nat, a: int, b: int, cooldown: int, g: nat) returns (g': nat)
    requires 0 < cooldown && AllAlertsDue(commits, cooldown)
    requires lo <= hi < |commits| && InWindow(commits, lo, hi + 1, a, b)
    requires Account(commits, lo, hi, a, cooldown, g)
    ensures Account(commits, lo, hi + 1, a, cooldown, g')
  {
    var c, before := commits[hi], commits[lo..hi];
    assert commits[lo..hi + 1] == before + [c];
    assert commits[..hi + 1] == commits[..hi] + [c];
    StandingStep(commits[..hi], c);
    WindowStep(before, c);
    assert AlertIsDue(commits[..hi], c, cooldown) && c.mail.at == c.input.now;
    g' := g;
    if c.mail.kind == SendAlert {
      g' := AlertIsPaidFor(before, c, StandingAlert(commits[..hi]), a, cooldown, g);
    }
  }

  lemma NothingToPay(commits: seq<Commit>, lo: nat, a: int, cooldown: int)
    requires lo <= |commits|
    ensures Account(commits, lo, lo, a, cooldown, 0)
  {
    assert commits[lo..lo] == [];
  }

  lemma {:induction false} AccountBalances(commits: seq<Commit>, lo: nat, hi: nat, a: int, b: int, cooldown: int)
    returns (g: nat)
    requires 0 < cooldown && AllAlertsDue(commits, cooldown)
    requires InWindow(commits, lo, hi, a, b)
    ensures Account(commits, lo, hi, a, cooldown, g)
    decreases hi
  {
    if lo == hi {
      g := 0;
      NothingToPay(commits, lo, a, cooldown);
    } else {
      g := AccountBalances(commits, lo, hi - 1, a, b, cooldown);
      g := AccountStep(commits, lo, hi - 1, a, b, cooldown, g);
    }
  }

  lemma {:induction false} WaitsAre(cooldown: int, g: nat)
    ensures Waits(cooldown, g) == cooldown * g
  {
    if g > 0 {
      WaitsAre(cooldown, g - 1);
      assert cooldown * g == cooldown * (g - 1) + cooldown;
    }
  }

  lemma WaitsFit(cooldown: int, g: nat, length: int)
    requires 0 < cooldown && Waits(cooldown, g) <= length
    ensures g <= length / cooldown
  {
    WaitsAre(cooldown, g);
    var q := length / cooldown;
    assert cooldown * (g - q) == cooldown * g - cooldown * q;
    assert cooldown * (g - q) < cooldown;
  }

  /** The mail budget. In any history, the alert mails of the committed runs in a window of time are
      at most: one, plus the recovery mails, plus the runs that found the state unreadable, plus the
      changes of signature, plus the number of whole cooldowns that fit into the window. */
  lemma MailsWithinBudget(inputs: seq<Input>, p: Policy, lo: nat, hi: nat, a: int, length: nat)
    requires p.Valid()
    requires InWindow(Run(inputs, p).commits, lo, hi, a, a + length)
    ensures var window := Run(inputs, p).commits[lo..hi];
            CountKind(window, SendAlert) <=
              1 + CountKind(window, SendRecovery) + CountUnreadable(window) + CountChanges(window) + length / p.cooldown
  {
    AlertsAreDue(inputs, p);
    WindowWithinBudget(Run(inputs, p).commits, p.cooldown, lo, hi, a, length);
  }

  /** A run that starts from nothing sends an alert for what it sees, if one sighting is enough. */
  lemma ColdRunSends(w: World, i: Input, p: Policy) returns (c: Commit)
    requires p.Valid() && p.n == 1 && i.raw != [] && i.sendOk && i.saveOk
    requires Loaded(w.file, i.readable) == COLD
    ensures Step(w, i, p).commits == w.commits + [c]
    ensures c.input == i && c.mail == Mail(SendAlert, Signature(i.raw, p.digest), i.now)
  {
    EveryItemFires(i.raw, map[], 1, i.now);
    WhatChooses(w, i, p);
    c := StepAndMail(w, i, p);
  }

  /** Two successful runs at the same time with the same warnings, the second on an unreadable state. */
  ghost predicate TwoColdRuns(inputs: seq<Input>) {
    && |inputs| == 2 && inputs[0].raw == inputs[1].raw != [] && inputs[0].now == inputs[1].now
    && !inputs[1].readable
    && forall k :: 0 <= k < 2 ==> inputs[k].sendOk && inputs[k].saveOk
  }

  lemma LastRunSends(inputs: seq<Input>, p: Policy) returns (c: Commit)
    requires p.Valid() && p.n == 1 && inputs != []
    requires var i := inputs[|inputs| - 1];
             && i.raw != [] && i.sendOk && i.saveOk
             && Loaded(Run(inputs[..|inputs| - 1], p).file, i.readable) == COLD
    ensures Run(inputs, p).commits == Run(inputs[..|inputs| - 1], p).commits + [c]
    ensures var i := inputs[|inputs| - 1];
            c.input == i && c.mail == Mail(SendAlert, Signature(i.raw, p.digest), i.now)
  {
    c := ColdRunSends(Run(inputs[..|inputs| - 1], p), inputs[|inputs| - 1], p);
  }

  lemma NoRuns(inputs: seq<Input>, p: Policy)
    requires inputs == []
    ensures Run(inputs, p) == START
  {
  }

  lemma FirstOfTwo(inputs: seq<Input>, p: Policy) returns (c: Commit)
    requires p.Valid() && p.n == 1 && TwoColdRuns(inputs)
    ensures Run(inputs[..1], p).commits == [c]
    ensures c.input == inputs[0] && c.mail == Mail(SendAlert, Signature(inputs[0].raw, p.digest), inputs[0].now)
  {
    var one := inputs[..1];
    NoRuns(one[..0], p);
    c := LastRunSends(one, p);
    assert [] + [c] == [c];
  }

  lemma SendTwice(inputs: seq<Input>, p: Policy) returns (c: Commit, d: Commit)
    requires p.Valid() && p.n == 1 && TwoColdRuns(inputs)
    ensures Run(inputs, p).commits == [c, d]
    ensures c.input == inputs[0] && c.mail == Mail(SendAlert, Signature(inputs[0].raw, p.digest), inputs[0].now)
    ensures d.input == inputs[1] && d.mail == c.mail
  {
    c := FirstOfTwo(inputs, p);
    d := LastRunSends(inputs, p);
    assert [c] + [d] == [c, d];
  }

  /** Two alert mails with one signature and no recovery at one instant. */
  ghost predicate TwoAtOnce(commits: seq<Commit>) {
    && |commits| == 2 && InWindow(commits, 0, 2, commits[0].input.now, commits[0].input.now)
    && CountKind(commits, SendAlert) == 2
    && CountKind(commits, SendRecovery) == CountChanges(commits) == 0
  }

  lemma CountTwo(c: Commit, d: Commit)
    requires c.mail.kind == d.mail.kind == SendAlert && c.mail.signature == d.mail.signature
    requires c.input.now == d.input.now
    ensures TwoAtOnce([c, d])
  {
    assert [c, d][..1] == [c] && [c][..0] == [];
    WindowStep([c], d);
    WindowStep([], c);
  }

  /** The unreadable runs do have to be counted: with them left out, two runs are over the budget. */
  lemma UnreadableStateCostsAMail(inputs: seq<Input>, p: Policy)
    requires p.Valid() && p.n == 1 && TwoColdRuns(inputs)
    ensures TwoAtOnce(Run(inputs, p).commits)
  {
    var c, d := SendTwice(inputs, p);
    CountTwo(c, d);
  }

  lemma WindowWithinBudget(commits: seq<Commit>, cooldown: int, lo: nat, hi: nat, a: int, length: nat)
    requires 0 < cooldown && AllAlertsDue(commits, cooldown)
    requires InWindow(commits, lo, hi, a, a + length)
    ensures CountKind(commits[lo..hi], SendAlert) <= Allowance(commits[lo..hi]) + length / cooldown
  {
    var g := AccountBalances(commits, lo, hi, a, a + length, cooldown);
    if LastAlert(commits[lo..hi]).Standing? {
      WaitsFit(cooldown, g, length);
    } else {
      WaitsFit(cooldown, 0, length);
    }
  }

  // ---- mails that went out, saved or not ----

  function AlertMails(sent: seq<Mail>): nat {
    if sent == [] then 0
    else AlertMails(sent[..|sent| - 1]) + (if sent[|sent| - 1].kind == SendAlert then 1 else 0)
  }

  /** The run mails an alert, but its new state does not reach the file. */
  predicate Unsaved(w: World, i: Input, p: Policy) {
    Choose(Context(w, i, p), p) == SendAlert && i.sendOk && !i.saveOk
  }

  /** The runs from `w` on that do so. */
  function CountUnsaved(w: World, inputs: seq<Input>, p: Policy): nat {
    if inputs == [] then 0
    else
      var n := |inputs| - 1;
      CountUnsaved(w, inputs[..n], p) + (if Unsaved(RunFrom(w, inputs[..n], p), inputs[n], p) then 1 else 0)
  }

  /** How many alert mails went out, and how many were committed, between two worlds. */
  function AlertsSent(w: World, v: World): int {
    AlertMails(v.sent) - AlertMails(w.sent)
  }

  function AlertsCommitted(w: World, v: World): int {
    CountKind(v.commits, SendAlert) - CountKind(w.commits, SendAlert)
  }

  lemma CountStep(commits: seq<Commit>, c: Commit, sent: seq<Mail>, m: Mail)
    ensures CountKind(commits + [c], SendAlert)
         == CountKind(commits, SendAlert) + (if c.mail.kind == SendAlert then 1 else 0)
    ensures AlertMails(sent + [m]) == AlertMails(sent) + (if m.kind == SendAlert then 1 else 0)
  {
    assert (commits + [c])[..|commits|] == commits && (sent + [m])[..|sent|] == sent;
  }

  /** One run sends an alert mail that it commits or loses, or none. */
  lemma SendStep(w: World, i: Input, p: Policy)
    ensures AlertsSent(w, Step(w, i, p))
         == AlertsCommitted(w, Step(w, i, p)) + (if Unsaved(w, i, p) then 1 else 0)
  {
    var c := StepAndMail(w, i, p);
    CountStep(w.commits, c, w.sent, c.mail);
  }

  lemma {:induction false} SentIsCommittedOrUnsaved(w: World, inputs: seq<Input>, p: Policy)
    ensures AlertsSent(w, RunFrom(w, inputs, p))
         == AlertsCommitted(w, RunFrom(w, inputs, p)) + CountUnsaved(w, inputs, p)
  {
    if inputs != [] {
      var n := |inputs| - 1;
      SentIsCommittedOrUnsaved(w, inputs[..n], p);
      SendStep(RunFrom(w, inputs[..n], p), inputs[n], p);
    }
  }

  /** The runs happened between times a and b, on a clock that did not go back. */
  ghost predicate RunsInWindow(inputs: seq<Input>, a: int, b: int) {
    && (forall k :: 0 <= k < |inputs| ==> a <= inputs[k].now <= b)
    && (forall j, k :: 0 <= j <= k < |inputs| ==> inputs[j].now <= inputs[k].now)
  }

  /** The commits from `lo` on are inside the window, the last of them no later than `latest`. */
  ghost predicate CommitsUpTo(commits: seq<Commit>, lo: nat, a: int, b: int, latest: int) {
    && lo <= |commits| && InWindow(commits, lo, |commits|, a, b)
    && forall k :: lo <= k < |commits| ==> commits[k].input.now <= latest
  }

  lemma CommitsUpToStep(commits: seq<Commit>, c: Commit, lo: nat, a: int, b: int, latest: int)
    requires CommitsUpTo(commits, lo, a, b, latest) && latest <= c.input.now && a <= c.input.now <= b
    ensures CommitsUpTo(commits + [c], lo, a, b, c.input.now)
  {
  }

  function Latest(inputs: seq<Input>, a: int): int {
    if inputs == [] then a else inputs[|inputs| - 1].now
  }

  lemma {:induction false} CommitsInWindow(w: World, inputs: seq<Input>, a: int, b: int, p: Policy)
    requires RunsInWindow(inputs, a, b)
    ensures w.commits <= RunFrom(w, inputs, p).commits
    ensures CommitsUpTo(RunFrom(w, inputs, p).commits, |w.commits|, a, b, Latest(inputs, a))
  {
    if inputs != [] {
      var n := |inputs| - 1;
      CommitsInWindow(w, inputs[..n], a, b, p);
      var v := RunFrom(w, inputs[..n], p);
      var c := StepAndMail(v, inputs[n], p);
      CommitsUpToStep(v.commits, c, |w.commits|, a, b, Latest(inputs[..n], a));
    }
  }

  lemma {:induction false} CountSplits(commits: seq<Commit>, lo: nat, kind: Action)
    requires lo <= |commits|
    ensures CountKind(commits, kind) == CountKind(commits[..lo], kind) + CountKind(commits[lo..], kind)
    decreases |commits|
  {
    if |commits| == lo {
      assert commits[..lo] == commits;
    } else {
      var n := |commits| - 1;
      CountSplits(commits[..n], lo, kind);
      assert commits[..n][..lo] == commits[..lo] && commits[..n][lo..] == commits[lo..][..n - lo];
    }
  }

  /** The budget for the mails that really went out: runs whose mail was sent and whose state could not
      be saved come on top, because the next run does not know of that mail. */
  lemma SentMailsWithinBudget(past: seq<Input>, inputs: seq<Input>, p: Policy, a: int, length: nat)
    requires p.Valid() && RunsInWindow(inputs, a, a + length)
    ensures var w, v := Run(past, p), Run(past + inputs, p);
            && w.commits <= v.commits
            && AlertsSent(w, v) <=
                 Allowance(v.commits[|w.commits|..]) + length / p.cooldown + CountUnsaved(w, inputs, p)
  {
    var w, v := Run(past, p), Run(past + inputs, p);
    RunFromAfter(START, past, inputs, p);
    CommitsInWindow(w, inputs, a, a + length, p);
    SentIsCommittedOrUnsaved(w, inputs, p);
    AlertsAreDue(past + inputs, p);
    CommittedWithinBudget(w, v, p.cooldown, a, length);
  }

  lemma CommittedWithinBudget(w: World, v: World, cooldown: int, a: int, length: nat)
    requires w.commits <= v.commits && InWindow(v.commits, |w.commits|, |v.commits|, a, a + length)
    requires 0 < cooldown && AllAlertsDue(v.commits, cooldown)
    ensures AlertsCommitted(w, v) <= Allowance(v.commits[|w.commits|..]) + length / cooldown
  {
    var lo := |w.commits|;
    CountSplits(v.commits, lo, SendAlert);
    WindowWithinBudget(v.commits, cooldown, lo, |v.commits|, a, length);
    assert v.commits[lo..|v.commits|] == v.commits[lo..] && v.commits[..lo] == w.commits;
  }

  // ---- mails that were attempted ----

  /** The runs from `w` on that try to send an alert mail, ... */
  function CountAttempts(w: World, inputs: seq<Input>, p: Policy): nat {
    if inputs == [] then 0
    else
      var n := |inputs| - 1;
      var v := RunFrom(w, inputs[..n], p);
      CountAttempts(w, inputs[..n], p) + (if Choose(Context(v, inputs[n], p), p) == SendAlert then 1 else 0)
  }

  /** ... and those whose try ends in an error. */
  function CountErrors(w: World, inputs: seq<Input>, p: Policy): nat {
    if inputs == [] then 0
    else
      var n := |inputs| - 1;
      var v, i := RunFrom(w, inputs[..n], p), inputs[n];
      CountErrors(w, inputs[..n], p) + (if Choose(Context(v, i, p), p) == SendAlert && !i.sendOk then 1 else 0)
  }

  lemma AttemptStep(w: World, i: Input, p: Policy)
    ensures AlertsSent(w, Step(w, i, p)) + (if Choose(Context(w, i, p), p) == SendAlert && !i.sendOk then 1 else 0)
         == if Choose(Context(w, i, p), p) == SendAlert then 1 else 0
  {
    var c := StepAndMail(w, i, p);
    CountStep(w.commits, c, w.sent, c.mail);
  }

  lemma {:induction false} AttemptIsSentOrError(w: World, inputs: seq<Input>, p: Policy)
    ensures CountAttempts(w, inputs, p) == AlertsSent(w, RunFrom(w, inputs, p)) + CountErrors(w, inputs, p)
  {
    if inputs != [] {
      var n := |inputs| - 1;
      AttemptIsSentOrError(w, inputs[..n], p);
      AttemptStep(RunFrom(w, inputs[..n], p), inputs[n], p);
    }
  }

  /** A server may have taken a mail although `Send` reports an error. Whatever an error means, no more
      alert mails are delivered than are attempted, and those are within the budget plus the runs that
      could not save and the runs that got an error. */
  lemma AttemptsWithinBudget(past: seq<Input>, inputs: seq<Input>, p: Policy, a: int, length: nat)
    requires p.Valid() && RunsInWindow(inputs, a, a + length)
    ensures var w, v := Run(past, p), Run(past + inputs, p);
            && w.commits <= v.commits
            && CountAttempts(w, inputs, p) <=
                 Allowance(v.commits[|w.commits|..]) + length / p.cooldown
                 + CountUnsaved(w, inputs, p) + CountErrors(w, inputs, p)
  {
    SentMailsWithinBudget(past, inputs, p, a, length);
    RunFromAfter(START, past, inputs, p);
    AttemptIsSentOrError(Run(past, p), inputs, p);
  }
}
