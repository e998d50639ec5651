/** Over any history: the recovery counter is the number of clean runs since the last warning,
    and a recovery mail is attempted exactly when that number reaches N. */
module Recovery {
  import opened Config
  import opened Notify
  import opened StateFile
  import opened Trigger

  /** How many committed runs at the end of the history saw no warning at all. */
  function TrailingClean(commits: seq<Commit>): (k: nat)
    ensures k <= |commits|
  {
    if commits == [] || commits[|commits| - 1].input.raw != [] then 0
    else 1 + TrailingClean(commits[..|commits| - 1])
  }

  /** That block is clean, and it cannot be made longer. */
  lemma {:induction false} TrailingCleanIsMaximal(commits: seq<Commit>)
    ensures var k := TrailingClean(commits);
            && (forall j :: |commits| - k <= j < |commits| ==> commits[j].input.raw == [])
            && (k < |commits| ==> commits[|commits| - k - 1].input.raw != [])
  {
    if commits != [] && commits[|commits| - 1].input.raw == [] {
      TrailingCleanIsMaximal(commits[..|commits| - 1]);
    }
  }

  ghost predicate StreakExact(w: World, p: Policy) {
    var s := w.State();
    && s.recoveryStreak == (if s.lastStatus == Alert then TrailingClean(w.commits) else 0)
    && (p.sendRecovery ==> s.recoveryStreak < p.n)
  }

  lemma StreakStep(w: World, i: Input, p: Policy)
    requires p.n >= 1 && StreakExact(w, p)
    ensures StreakExact(Step(w, i, p), p)
  {
    if Commits(w, i, p) {
      var c := Commit(i, Context(w, i, p).filtered, MailOf(Context(w, i, p), p));
      assert (w.commits + [c])[..|w.commits|] == w.commits;
    }
  }

  /** In every reachable world the stored streak is exact, and it stays below N while recovery mails
      are enabled. */
  lemma {:induction false} StreakIsExact(inputs: seq<Input>, p: Policy)
    requires p.n >= 1
    ensures StreakExact(Run(inputs, p), p)
  {
    if inputs != [] {
      StreakIsExact(inputs[..|inputs| - 1], p);
      StreakStep(Run(inputs[..|inputs| - 1], p), inputs[|inputs| - 1], p);
    }
  }

  /** A recovery mail is attempted exactly when an alert stands, recovery mails are enabled, and this
      run makes the clean block at least N runs long. */
  lemma RecoveryIsAttemptedExactlyWhen(inputs: seq<Input>, i: Input, p: Policy)
    requires p.n >= 1
    ensures var w := Run(inputs, p);
            Choose(Context(w, i, p), p) == SendRecovery
            <==> (&& i.readable && w.State().lastStatus == Alert && p.sendRecovery
                  && i.raw == [] && TrailingClean(w.commits) + 1 >= p.n)
  {
    StreakIsExact(inputs, p);
  }
}
