/** Over any history: what the confirmation counters mean, and when a key fires. */
module Confirmation {
  import opened Alerts
  import opened Config
  import opened Notify
  import opened Persistence
  import opened StateFile

  /** The committed run saw `key`. */
  predicate Saw(c: Commit, key: string) {
    key in Keys(c.input.raw)
  }

  /** The committed run reported `key`. */
  predicate Reported(c: Commit, key: string) {
    key in Keys(c.filtered)
  }

  /** The last `k` committed runs all saw `key`. */
  ghost predicate SawInLast(commits: seq<Commit>, k: int, key: string) {
    0 <= k <= |commits| && forall j :: |commits| - k <= j < |commits| ==> Saw(commits[j], key)
  }

  /** A counter (c, f) says: seen in the last c committed runs, the first of them at time f. */
  ghost predicate CounterMeans(commits: seq<Commit>, key: string, e: PendingItem, n: int) {
    && 1 <= e.count <= n - 1
    && SawInLast(commits, e.count, key)
    && commits[|commits| - e.count].input.now == e.firstSeen
  }

  ghost predicate CountersMean(commits: seq<Commit>, pending: map<string, PendingItem>, n: int) {
    forall k :: k in pending ==> CounterMeans(commits, k, pending[k], n)
  }

  /** The committed run did what one pass over its raw list with the counters `prev` says. */
  predicate Passed(c: Commit, prev: map<string, PendingItem>, n: int) {
    c.filtered == Firing(c.input.raw, prev, n, c.input.now)
  }

  /** The counters a committed run leaves behind. */
  function CountersAfter(c: Commit, prev: map<string, PendingItem>, n: int): map<string, PendingItem> {
    Waiting(c.input.raw, prev, n, c.input.now)
  }

  /** The counters a run works with: the stored ones, or none when the file cannot be read. */
  function CountersFor(w: World, i: Input): map<string, PendingItem> {
    Loaded(w.file, i.readable).pending
  }

  /** All that a step means for the counters. */
  lemma StepAndCounters(w: World, i: Input, p: Policy) returns (c: Commit)
    ensures c.input == i && Passed(c, CountersFor(w, i), p.n)
    ensures Context(w, i, p).filtered == c.filtered
    ensures Commits(w, i, p) ==>
              Step(w, i, p).commits == w.commits + [c]
              && Step(w, i, p).State().pending == CountersAfter(c, CountersFor(w, i), p.n)
    ensures !Commits(w, i, p) ==> Step(w, i, p).commits == w.commits && Step(w, i, p).file == w.file
  {
    c := Commit(i, Context(w, i, p).filtered, MailOf(Context(w, i, p), p));
  }

  lemma CounterStep(commits: seq<Commit>, c: Commit, key: string, prev: map<string, PendingItem>, n: int)
    requires key in prev ==> CounterMeans(commits, key, prev[key], n)
    requires Saw(c, key) && !Fires(prev, key, n, c.input.now)
    ensures CounterMeans(commits + [c], key, Advance(prev, key, c.input.now), n)
  {
  }

  lemma CountersStep(commits: seq<Commit>, c: Commit, prev: map<string, PendingItem>, n: int)
    requires CountersMean(commits, prev, n)
    ensures CountersMean(commits + [c], CountersAfter(c, prev, n), n)
  {
    forall k | k in CountersAfter(c, prev, n)
      ensures CounterMeans(commits + [c], k, CountersAfter(c, prev, n)[k], n)
    {
      CounterStep(commits, c, k, prev, n);
    }
  }

  /** In every reachable world every stored counter means what it says. */
  lemma {:induction false} CountersAlwaysMean(inputs: seq<Input>, p: Policy)
    ensures CountersMean(Run(inputs, p).commits, Run(inputs, p).State().pending, p.n)
  {
    if inputs != [] {
      var init, i := inputs[..|inputs| - 1], inputs[|inputs| - 1];
      var w := Run(init, p);
      CountersAlwaysMean(init, p);
      var c := StepAndCounters(w, i, p);
      CountersStep(w.commits, c, CountersFor(w, i), p.n);
    }
  }

  lemma FiringIsConfirmed(
      commits: seq<Commit>, raw: seq<AlertItem>, prev: map<string, PendingItem>, n: int, now: int, it: AlertItem)
    requires n >= 2 && CountersMean(commits, prev, n)
    requires it in Firing(raw, prev, n, now)
    ensures it in raw && prev != map[]
    ensures SawInLast(commits, n - 1, KeyOf(it))
    ensures StartedWithinTTL(commits, n - 1, now)
  {
    FiringMembers(raw, prev, n, now);
    NextCounter(prev, KeyOf(it), now);
  }

  /** Nothing fires unconfirmed: from a cold start, after any history, an item fires only if it is in
      this run's raw list and its key was in each of the previous N-1 committed runs, the earliest of
      them less than 24 hours ago. */
  lemma NothingFiresUnconfirmed(inputs: seq<Input>, i: Input, p: Policy, it: AlertItem)
    requires p.n >= 1
    requires it in Context(Run(inputs, p), i, p).filtered
    ensures it in i.raw
    ensures SawInLast(Run(inputs, p).commits, p.n - 1, KeyOf(it))
    ensures p.n >= 2 ==> i.readable && StartedWithinTTL(Run(inputs, p).commits, p.n - 1, i.now)
  {
    CountersAlwaysMean(inputs, p);
    ConfirmedIn(Run(inputs, p), i, p, it);
  }

  /** The `k`-th committed run from the end is less than 24 hours old. */
  predicate StartedWithinTTL(commits: seq<Commit>, k: int, now: int) {
    1 <= k <= |commits| && now - commits[|commits| - k].input.now < 86_400_000_000_000
  }

  lemma ConfirmedIn(w: World, i: Input, p: Policy, it: AlertItem)
    requires p.n >= 1
    requires CountersMean(w.commits, w.State().pending, p.n)
    requires it in Context(w, i, p).filtered
    ensures it in i.raw
    ensures SawInLast(w.commits, p.n - 1, KeyOf(it))
    ensures p.n >= 2 ==> i.readable && StartedWithinTTL(w.commits, p.n - 1, i.now)
  {
    var c := StepAndCounters(w, i, p);
    if p.n >= 2 {
      FiringIsConfirmed(w.commits, i.raw, CountersFor(w, i), p.n, i.now, it);
    } else {
      FiringMembers(i.raw, CountersFor(w, i), p.n, i.now);
    }
  }

  // ---- the exact schedule ----

  /** The committed runs of a stretch that started in world `w`. */
  function Since(w: World, v: World): seq<Commit> {
    if |w.commits| <= |v.commits| then v.commits[|w.commits|..] else []
  }

  /** j mod n, counted up one by one. */
  function Residue(j: nat, n: nat): (r: nat)
    requires n >= 1
    ensures r < n && r <= j
  {
    if j == 0 then 0
    else if Residue(j - 1, n) + 1 == n then 0
    else Residue(j - 1, n) + 1
  }

  /** How many full blocks of n fit into j. */
  function Blocks(j: nat, n: nat): nat
    requires n >= 1
  {
    if j == 0 then 0
    else if Residue(j - 1, n) + 1 == n then Blocks(j - 1, n) + 1
    else Blocks(j - 1, n)
  }

  lemma {:induction false} BlocksAndResidue(j: nat, n: nat)
    requires n >= 1
    ensures j == Blocks(j, n) * n + Residue(j, n)
  {
    if j > 0 {
      BlocksAndResidue(j - 1, n);
      var b := Blocks(j - 1, n);
      assert (b + 1) * n == b * n + n;
    }
  }

  lemma ResidueIsMod(j: nat, n: nat)
    requires n >= 1
    ensures Residue(j, n) == j % n
  {
    BlocksAndResidue(j, n);
    RestIsUnique(Blocks(j, n), Residue(j, n), j / n, j % n, n);
  }

  lemma RestIsUnique(q1: int, r1: int, q2: int, r2: int, n: int)
    requires 0 <= r1 < n && 0 <= r2 < n
    requires q1 * n + r1 == q2 * n + r2
    ensures r1 == r2
  {
    var d := q1 - q2;
    assert d * n == q1 * n - q2 * n;
    assert 0 - n < d * n < n;
    assert d == 0;
  }

  /** The counter of a key when a stretch starts: seen `count` times since `since`; 0 is no counter. */
  datatype Start = Start(count: nat, since: int)

  ghost predicate StartsWith(pending: map<string, PendingItem>, key: string, n: int, start: Start) {
    && start.count < n
    && (key in pending <==> start.count != 0)
    && (key in pending ==> pending[key] == PendingItem(start.count, start.since))
  }

  /** How far the block of n is that run m of the stretch belongs to. */
  function Phase(start: Start, n: int, m: nat): nat
    requires n >= 1
  {
    Residue(start.count + m, n)
  }

  /** When that block began: in the stretch, or before it. */
  function BlockStart(stretch: seq<Commit>, start: Start, n: int, m: nat): int
    requires n >= 1 && m < |stretch|
  {
    var r := Phase(start, n, m);
    if r <= m then stretch[m - r].input.now else start.since
  }

  /** Run m of the stretch saw `key` on a readable state file, less than 24 hours after its block began. */
  predicate SteadyAt(stretch: seq<Commit>, key: string, start: Start, n: int, m: nat)
    requires n >= 1 && m < |stretch|
  {
    && Saw(stretch[m], key) && stretch[m].input.readable
    && stretch[m].input.now - BlockStart(stretch, start, n, m) < 86_400_000_000_000
  }

  ghost predicate SteadyStretch(stretch: seq<Commit>, key: string, start: Start, n: int)
    requires n >= 1
  {
    forall m :: 0 <= m < |stretch| ==> SteadyAt(stretch, key, start, n, m)
  }

  /** After j runs the counter is (start + j) mod N and dates from the start of the block. */
  ghost predicate CounterOnSchedule(
    stretch: seq<Commit>, key: string, start: Start, n: int, pending: map<string, PendingItem>)
    requires n >= 1
  {
    var j := |stretch|;
    var r := Phase(start, n, j);
    && (key in pending <==> r != 0)
    && (key in pending ==> pending[key].count == r)
    && (key in pending ==> pending[key].firstSeen == if r <= j then stretch[j - r].input.now else start.since)
  }

  /** Run m, counting from 1, reported the key exactly when N divides start + m. */
  ghost predicate ReportsOnSchedule(stretch: seq<Commit>, key: string, start: Start, n: int)
    requires n >= 1
  {
    forall m :: 0 <= m < |stretch| ==> (Reported(stretch[m], key) <==> Phase(start, n, m + 1) == 0)
  }

  lemma KeysOfFiring(items: seq<AlertItem>, prev: map<string, PendingItem>, n: int, now: int, key: string)
    requires key in Keys(items)
    ensures key in Keys(Firing(items, prev, n, now)) <==> Fires(prev, key, n, now)
    ensures key in WaitingKeys(items, prev, n, now) <==> !Fires(prev, key, n, now)
  {
    FiringMembers(items, prev, n, now);
    var it :| it in items && KeyOf(it) == key;
    if Fires(prev, key, n, now) {
      assert it in Firing(items, prev, n, now);
    }
  }

  /** What a committed run means for one key that it saw. */
  ghost predicate OneKey(
    c: Commit, key: string, n: int, prev: map<string, PendingItem>, next: map<string, PendingItem>)
  {
    var e := Advance(prev, key, c.input.now);
    && (Reported(c, key) <==> n <= 1 || e.count >= n)
    && (key in next <==> !(n <= 1 || e.count >= n))
    && (key in next ==> next[key] == e)
  }

  lemma OneKeyOfAPass(c: Commit, key: string, n: int, prev: map<string, PendingItem>)
    requires Passed(c, prev, n) && Saw(c, key)
    ensures OneKey(c, key, n, prev, CountersAfter(c, prev, n))
  {
    KeysOfFiring(c.input.raw, prev, n, c.input.now, key);
  }

  /** One more run of the stretch: the counter when it starts, ... */
  lemma NextCount(before: seq<Commit>, c: Commit, key: string, start: Start, n: int, prev: map<string, PendingItem>)
    requires n >= 1
    requires CounterOnSchedule(before, key, start, n, prev)
    requires SteadyStretch(before + [c], key, start, n)
    ensures Advance(prev, key, c.input.now)
         == PendingItem(Phase(start, n, |before|) + 1, BlockStart(before + [c], start, n, |before|))
  {
    var j, r, after := |before|, Phase(start, n, |before|), before + [c];
    assert SteadyAt(after, key, start, n, j);
    if 0 < r <= j {
      assert after[j - r] == before[j - r];
    }
    NextCounter(prev, key, c.input.now);
  }

  /** ... the counter it leaves, ... */
  lemma CounterStepsOn(
      before: seq<Commit>, c: Commit, key: string, start: Start, n: int,
      prev: map<string, PendingItem>, next: map<string, PendingItem>)
    requires n >= 1
    requires CounterOnSchedule(before, key, start, n, prev)
    requires SteadyStretch(before + [c], key, start, n) && OneKey(c, key, n, prev, next)
    ensures CounterOnSchedule(before + [c], key, start, n, next)
    ensures Reported(c, key) <==> Phase(start, n, |before| + 1) == 0
  {
    NextCount(before, c, key, start, n, prev);
    assert |before + [c]| == |before| + 1;
    assert start.count + (|before| + 1) - 1 == start.count + |before|;
  }

  /** ... and its report. */
  lemma ReportsStepOn(before: seq<Commit>, c: Commit, key: string, start: Start, n: int)
    requires n >= 1 && ReportsOnSchedule(before, key, start, n)
    requires Reported(c, key) <==> Phase(start, n, |before| + 1) == 0
    ensures ReportsOnSchedule(before + [c], key, start, n)
  {
    forall m | 0 <= m < |before + [c]|
      ensures Reported((before + [c])[m], key) <==> Phase(start, n, m + 1) == 0
    {
      if m < |before| {
        assert (before + [c])[m] == before[m];
      }
    }
  }

  lemma {:induction false} CommitsOnlyGrow(w: World, inputs: seq<Input>, p: Policy)
    ensures w.commits <= RunFrom(w, inputs, p).commits
  {
    if inputs != [] {
      CommitsOnlyGrow(w, inputs[..|inputs| - 1], p);
    }
  }

  /** The firing schedule is exact. A key that starts with some counter and is seen by every committed
      run of a stretch fires exactly in those runs in which that counter, counted on, reaches a multiple
      of N: without a counter in the N-th, the 2N-th, ... of them. Runs that do not commit may happen in
      between and do not count. */
  lemma {:induction false} FiresEveryNthRun(w: World, inputs: seq<Input>, p: Policy, key: string, start: Start)
    requires p.n >= 1
    requires StartsWith(w.State().pending, key, p.n, start)
    requires SteadyStretch(Since(w, RunFrom(w, inputs, p)), key, start, p.n)
    ensures CounterOnSchedule(
              Since(w, RunFrom(w, inputs, p)), key, start, p.n, RunFrom(w, inputs, p).State().pending)
    ensures ReportsOnSchedule(Since(w, RunFrom(w, inputs, p)), key, start, p.n)
    decreases |inputs|
  {
    if inputs == [] {
      NothingHappenedYet(w.State().pending, key, start, p.n);
      assert Since(w, w) == [];
    } else {
      var init, i := inputs[..|inputs| - 1], inputs[|inputs| - 1];
      var v := RunFrom(w, init, p);
      CommitsOnlyGrow(w, init, p);
      SteadyBefore(w, v, i, p, key, start);
      FiresEveryNthRun(w, init, p, key, start);
      ScheduleStep(w, v, i, p, key, start);
    }
  }

  /** A stretch was steady before its last run. */
  lemma SteadyBefore(w: World, v: World, i: Input, p: Policy, key: string, start: Start)
    requires p.n >= 1 && w.commits <= v.commits
    requires SteadyStretch(Since(w, Step(v, i, p)), key, start, p.n)
    ensures SteadyStretch(Since(w, v), key, start, p.n)
  {
    var c := StepAndCounters(v, i, p);
    if Commits(v, i, p) {
      assert Since(w, Step(v, i, p)) == Since(w, v) + [c];
      SteadyPrefix(Since(w, v), c, key, start, p.n);
    }
  }

  /** One more run, committed or not, keeps counter and reports on schedule. */
  lemma ScheduleStep(w: World, v: World, i: Input, p: Policy, key: string, start: Start)
    requires p.n >= 1 && w.commits <= v.commits
    requires SteadyStretch(Since(w, Step(v, i, p)), key, start, p.n)
    requires CounterOnSchedule(Since(w, v), key, start, p.n, v.State().pending)
    requires ReportsOnSchedule(Since(w, v), key, start, p.n)
    ensures CounterOnSchedule(Since(w, Step(v, i, p)), key, start, p.n, Step(v, i, p).State().pending)
    ensures ReportsOnSchedule(Since(w, Step(v, i, p)), key, start, p.n)
  {
    var c := StepAndCounters(v, i, p);
    if Commits(v, i, p) {
      assert Since(w, Step(v, i, p)) == Since(w, v) + [c];
      CommittedRunStepsOn(Since(w, v), c, key, start, p.n, v.State().pending, CountersFor(v, i));
    }
  }

  lemma NothingHappenedYet(pending: map<string, PendingItem>, key: string, start: Start, n: int)
    requires n >= 1 && StartsWith(pending, key, n, start)
    ensures CounterOnSchedule([], key, start, n, pending)
    ensures ReportsOnSchedule([], key, start, n)
  {
    ResidueIsMod(start.count, n);
  }

  lemma CommittedRunStepsOn(
      before: seq<Commit>, c: Commit, key: string, start: Start, n: int,
      stored: map<string, PendingItem>, prev: map<string, PendingItem>)
    requires n >= 1
    requires CounterOnSchedule(before, key, start, n, stored) && ReportsOnSchedule(before, key, start, n)
    requires SteadyStretch(before + [c], key, start, n)
    requires c.input.readable ==> prev == stored
    requires Passed(c, prev, n)
    ensures CounterOnSchedule(before + [c], key, start, n, CountersAfter(c, prev, n))
    ensures ReportsOnSchedule(before + [c], key, start, n)
  {
    assert SteadyAt(before + [c], key, start, n, |before|);
    OneKeyOfAPass(c, key, n, prev);
    CounterStepsOn(before, c, key, start, n, prev, CountersAfter(c, prev, n));
    ReportsStepOn(before, c, key, start, n);
  }

  lemma SteadyPrefix(before: seq<Commit>, c: Commit, key: string, start: Start, n: int)
    requires n >= 1 && SteadyStretch(before + [c], key, start, n)
    ensures SteadyStretch(before, key, start, n)
  {
    forall m | 0 <= m < |before|
      ensures SteadyAt(before, key, start, n, m)
    {
      assert SteadyAt(before + [c], key, start, n, m);
      assert (before + [c])[m] == before[m];
      var r := Phase(start, n, m);
      if r <= m {
        assert (before + [c])[m - r] == before[m - r];
      }
    }
  }
}
