/** Over any history: the state file against the mails that were really sent, which runs sent them, the
    order of the mails, and when an alert mail is due. */
module MailHistory {
  import opened Clock
  import opened Config
  import opened Notify
  import opened Signatures
  import opened StateFile
  import opened Trigger

  /** The alert the user was last told about and that still stands, read off the history alone. */
  datatype Standing = Nothing | Standing(at: int, signature: string)

  function StandingAlert(commits: seq<Commit>): Standing {
    if commits == [] then Nothing
    else
      var last := commits[|commits| - 1];
      match last.mail.kind
      case SendAlert => Standing(last.mail.at, last.mail.signature)
      case SendRecovery => Nothing
      case NoAction => if last.input.readable then StandingAlert(commits[..|commits| - 1]) else Nothing
  }

  /** The part of the state that remembers mails says exactly which alert stands. */
  ghost predicate RemembersStanding(s: State, standing: Standing) {
    match standing
    case Nothing => s.lastStatus != Alert
    case Standing(at, signature) => s.lastStatus == Alert && s.lastSentAt == at && s.lastSignature == signature
  }

  /** What the state says was sent, was sent. */
  ghost predicate BackedByMail(s: State, sent: seq<Mail>) {
    match s.lastStatus
    case Alert => s.lastSignature != "" && Mail(SendAlert, s.lastSignature, s.lastSentAt) in sent
    case Ok => s.lastSignature == "" && Mail(SendRecovery, "", s.lastSentAt) in sent
    case Empty => s.lastSignature == "" && s.lastSentAt == ZERO_TIME
  }

  /** The state a run starts from, and how the run changes the mail part of it. */
  lemma StepAndMail(w: World, i: Input, p: Policy) returns (c: Commit)
    ensures c == Commit(i, Context(w, i, p).filtered, MailOf(Context(w, i, p), p))
    ensures c.mail.kind == Choose(Context(w, i, p), p)
    ensures c.mail.at == i.now
    ensures Commits(w, i, p) ==> Step(w, i, p).commits == w.commits + [c] && (c.mail.kind != NoAction ==> i.sendOk)
    ensures !Commits(w, i, p) ==> Step(w, i, p).commits == w.commits && Step(w, i, p).file == w.file
    ensures Step(w, i, p).sent == if c.mail.kind != NoAction && i.sendOk then w.sent + [c.mail] else w.sent
    ensures var s, t := Loaded(w.file, i.readable), Step(w, i, p).State();
            Commits(w, i, p) ==>
              match c.mail.kind
              case NoAction =>
                t.lastStatus == s.lastStatus && t.lastSentAt == s.lastSentAt && t.lastSignature == s.lastSignature
              case SendAlert => t.lastStatus == Alert && t.lastSentAt == i.now && t.lastSignature == c.mail.signature
              case SendRecovery =>
                t.lastStatus == Ok && t.lastSentAt == i.now && t.lastSignature == "" == c.mail.signature
  {
    c := Commit(i, Context(w, i, p).filtered, MailOf(Context(w, i, p), p));
  }

  /** The rule for each action, in terms of the loaded state. */
  lemma WhatChooses(w: World, i: Input, p: Policy)
    requires p.n >= 1
    ensures var s, ctx := Loaded(w.file, i.readable), Context(w, i, p);
            && (Choose(ctx, p) == SendAlert <==>
                  ctx.filtered != [] && (s.lastStatus == Alert ==>
                    Signature(ctx.filtered, p.digest) != s.lastSignature || Sub(i.now, s.lastSentAt) >= p.cooldown))
            && (Choose(ctx, p) == SendRecovery ==> s.lastStatus == Alert && ctx.filtered == [] && p.sendRecovery)
            && (Choose(ctx, p) == SendAlert ==> MailOf(ctx, p).signature == Signature(ctx.filtered, p.digest))
  {
  }

  lemma AlertSignatureNonEmpty(w: World, i: Input, p: Policy)
    requires p.Valid() && Choose(Context(w, i, p), p) == SendAlert
    ensures MailOf(Context(w, i, p), p).signature != ""
  {
    WhatChooses(w, i, p);
  }

  // ---- the state never runs ahead of the mail ----

  lemma StandingStep(commits: seq<Commit>, c: Commit)
    ensures StandingAlert(commits + [c])
         == match c.mail.kind
            case SendAlert => Standing(c.mail.at, c.mail.signature)
            case SendRecovery => Nothing
            case NoAction => if c.input.readable then StandingAlert(commits) else Nothing
  {
    assert (commits + [c])[..|commits|] == commits;
  }

  ghost predicate Truthful(w: World) {
    RemembersStanding(w.State(), StandingAlert(w.commits)) && BackedByMail(w.State(), w.sent)
  }

  lemma TruthfulStep(w: World, i: Input, p: Policy)
    requires p.Valid() && Truthful(w)
    ensures Truthful(Step(w, i, p))
  {
    var c := StepAndMail(w, i, p);
    StandingStep(w.commits, c);
    if c.mail.kind == SendAlert {
      AlertSignatureNonEmpty(w, i, p);
    }
    if Commits(w, i, p) && c.mail.kind != NoAction {
      assert Step(w, i, p).sent[|w.sent|] == c.mail;
    }
  }

  /** In every reachable world, whatever failed on the way: the stored status, signature and time are
      those of a mail that really went out, and they say which alert stands. */
  lemma {:induction false} StateNeverRunsAheadOfMail(inputs: seq<Input>, p: Policy)
    requires p.Valid()
    ensures Truthful(Run(inputs, p))
  {
    if inputs != [] {
      StateNeverRunsAheadOfMail(inputs[..|inputs| - 1], p);
      TruthfulStep(Run(inputs[..|inputs| - 1], p), inputs[|inputs| - 1], p);
    }
  }

  /** Run `k` of the history decided on the mail and sent it. */
  ghost predicate SentBy(inputs: seq<Input>, p: Policy, m: Mail, k: nat)
    requires k < |inputs|
  {
    var ctx := Context(Run(inputs[..k], p), inputs[k], p);
    inputs[k].sendOk && Choose(ctx, p) != NoAction && m == MailOf(ctx, p)
  }

  lemma SentByPrefix(inputs: seq<Input>, n: nat, p: Policy, m: Mail, k: nat)
    requires k < n <= |inputs| && SentBy(inputs[..n], p, m, k)
    ensures SentBy(inputs, p, m, k)
  {
    assert inputs[..n][..k] == inputs[..k];
  }

  /** Every mail that went out was decided on and sent by a run of the history. */
  lemma {:induction false} MailsComeFromRuns(inputs: seq<Input>, p: Policy, m: Mail)
    requires m in Run(inputs, p).sent
    ensures exists k :: 0 <= k < |inputs| && SentBy(inputs, p, m, k)
  {
    if inputs != [] {
      var n := |inputs| - 1;
      var c := StepAndMail(Run(inputs[..n], p), inputs[n], p);
      if m in Run(inputs[..n], p).sent {
        MailsComeFromRuns(inputs[..n], p, m);
        var k :| 0 <= k < n && SentBy(inputs[..n], p, m, k);
        SentByPrefix(inputs, n, p, m, k);
      } else {
        assert m == c.mail && SentBy(inputs, p, m, n);
      }
    }
  }

  /** An alert mail is attempted exactly when something fires and either no alert stands, or the one
      that stands has another signature or is at least one cooldown old. */
  lemma AlertIsAttemptedExactlyWhen(inputs: seq<Input>, i: Input, p: Policy)
    requires p.Valid()
    ensures var w := Run(inputs, p);
            var ctx := Context(w, i, p);
            Choose(ctx, p) == SendAlert <==>
              && ctx.filtered != []
              && match (if i.readable then StandingAlert(w.commits) else Nothing)
                 case Nothing => true
                 case Standing(at, signature) =>
                   Signature(ctx.filtered, p.digest) != signature || Sub(i.now, at) >= p.cooldown
  {
    StateNeverRunsAheadOfMail(inputs, p);
    WhatChooses(Run(inputs, p), i, p);
  }

  // ---- the order of the mails ----

  /** The kinds of the mails of the committed runs, in order. */
  function MailKinds(commits: seq<Commit>): seq<Action> {
    if commits == [] then []
    else
      var kind := commits[|commits| - 1].mail.kind;
      MailKinds(commits[..|commits| - 1]) + (if kind == NoAction then [] else [kind])
  }

  ghost predicate AllAlerts(s: seq<Action>) {
    forall i :: 0 <= i < |s| ==> s[i] == SendAlert
  }

  /** The language (alert+ recovery)* alert*. */
  ghost predicate AlertsThenRecovery(s: seq<Action>)
    decreases |s|
  {
    AllAlerts(s)
    || exists k :: 0 < k < |s| && AllAlerts(s[..k]) && s[k] == SendRecovery && AlertsThenRecovery(s[k + 1..])
  }

  /** Every recovery comes right after an alert. */
  ghost predicate RecoveryFollowsAlert(s: seq<Action>) {
    (forall i :: 0 <= i < |s| ==> s[i] != NoAction)
    && (forall i :: 0 <= i < |s| && s[i] == SendRecovery ==> i > 0 && s[i - 1] == SendAlert)
  }

  lemma FirstRecovery(s: seq<Action>) returns (k: nat)
    requires RecoveryFollowsAlert(s) && !AllAlerts(s)
    ensures 0 < k < |s| && s[k] == SendRecovery && AllAlerts(s[..k])
  {
    k := 0;
    while s[k] == SendAlert
      invariant k < |s|
      invariant forall i :: 0 <= i < k ==> s[i] == SendAlert
      decreases |s| - k
    {
      k := k + 1;
    }
  }

  lemma {:induction false} FollowsMeansInLanguage(s: seq<Action>)
    requires RecoveryFollowsAlert(s)
    ensures AlertsThenRecovery(s)
    decreases |s|
  {
    if !AllAlerts(s) {
      var k := FirstRecovery(s);
      var rest := s[k + 1..];
      forall i | 0 <= i < |rest| && rest[i] == SendRecovery
        ensures i > 0 && rest[i - 1] == SendAlert
      {
        assert s[k + 1 + i] == SendRecovery;
      }
      FollowsMeansInLanguage(rest);
    }
  }

  ghost predicate OrderedMails(commits: seq<Commit>) {
    var kinds := MailKinds(commits);
    && RecoveryFollowsAlert(kinds)
    && (StandingAlert(commits).Standing? ==> kinds != [] && kinds[|kinds| - 1] == SendAlert)
  }

  lemma FollowsStep(kinds: seq<Action>, kind: Action)
    requires RecoveryFollowsAlert(kinds) && kind != NoAction
    requires kind == SendRecovery ==> kinds != [] && kinds[|kinds| - 1] == SendAlert
    ensures RecoveryFollowsAlert(kinds + [kind])
  {
  }

  lemma KindsStep(commits: seq<Commit>, c: Commit)
    ensures MailKinds(commits + [c])
         == if c.mail.kind == NoAction then MailKinds(commits) else MailKinds(commits) + [c.mail.kind]
  {
    assert (commits + [c])[..|commits|] == commits;
    assert MailKinds(commits) + [] == MailKinds(commits);
  }

  lemma OrderStep(commits: seq<Commit>, c: Commit)
    requires OrderedMails(commits)
    requires c.mail.kind == SendRecovery ==> c.input.readable && StandingAlert(commits).Standing?
    ensures OrderedMails(commits + [c])
  {
    StandingStep(commits, c);
    KindsStep(commits, c);
    if c.mail.kind != NoAction {
      FollowsStep(MailKinds(commits), c.mail.kind);
    }
  }

  lemma {:induction false} MailsAreOrdered(inputs: seq<Input>, p: Policy)
    requires p.Valid()
    ensures OrderedMails(Run(inputs, p).commits)
  {
    if inputs != [] {
      var init, i := inputs[..|inputs| - 1], inputs[|inputs| - 1];
      var w := Run(init, p);
      MailsAreOrdered(init, p);
      StateNeverRunsAheadOfMail(init, p);
      WhatChooses(w, i, p);
      var c := StepAndMail(w, i, p);
      if Commits(w, i, p) {
        OrderStep(w.commits, c);
      }
    }
  }

  /** From a cold start the committed mails always match (alert+ recovery)* alert*. */
  lemma MailsMatchTheProtocol(inputs: seq<Input>, p: Policy)
    requires p.Valid()
    ensures AlertsThenRecovery(MailKinds(Run(inputs, p).commits))
  {
    MailsAreOrdered(inputs, p);
    FollowsMeansInLanguage(MailKinds(Run(inputs, p).commits));
  }
}
