/** A mail that could not be sent is tried again. */
module Retry {
  import opened Alerts
  import opened Clock
  import opened Config
  import opened Confirmation
  import opened Notify
  import opened Persistence
  import opened StateFile
  import opened Trigger

  /** At `later`, every counter that made an item fire is still young enough to be believed. */
  ghost predicate PromotedStillFresh(fired: seq<AlertItem>, prev: map<string, PendingItem>, later: int) {
    forall it :: it in fired && KeyOf(it) in prev ==> later - prev[KeyOf(it)].firstSeen < 86_400_000_000_000
  }

  /** Counters of a state the program can have stored. */
  ghost predicate Stored(pending: map<string, PendingItem>, n: int) {
    forall k :: k in pending ==> 1 <= pending[k].count <= n - 1
  }

  lemma SubIsMonotonic(a: int, b: int, origin: int)
    requires a <= b
    ensures Sub(a, origin) <= Sub(b, origin)
  {
  }

  lemma KeyFiresAgain(prev: map<string, PendingItem>, key: string, n: int, now: int, later: int)
    requires now <= later && Stored(prev, n)
    ensures Fires(prev, key, n, later) ==> Fires(prev, key, n, now)
    ensures Fires(prev, key, n, now) && (key in prev ==> Fresh(prev[key], later)) ==> Fires(prev, key, n, later)
    ensures n >= 2 && Fires(prev, key, n, later) ==> key in prev && Fresh(prev[key], later)
  {
    if key in prev {
      SubIsMonotonic(now, later, prev[key].firstSeen);
    }
  }

  /** Seen again at a later time with the same counters, the same raw list fires the same items
      exactly when all the counters that promoted them are still fresh. */
  lemma {:induction false} FiresAgainExactlyWhen(
      raw: seq<AlertItem>, prev: map<string, PendingItem>, n: int, now: int, later: int)
    requires n >= 2 && now <= later && Stored(prev, n)
    ensures Firing(raw, prev, n, later) == Firing(raw, prev, n, now)
       <==> PromotedStillFresh(Firing(raw, prev, n, now), prev, later)
  {
    FiringMembers(raw, prev, n, now);
    FiringMembers(raw, prev, n, later);
    var fired := Firing(raw, prev, n, now);
    if PromotedStillFresh(fired, prev, later) {
      SameFiring(raw, prev, n, now, later);
    }
    if Firing(raw, prev, n, later) == fired {
      forall it | it in fired
        ensures Fresh(prev[KeyOf(it)], later)
        ensures KeyOf(it) in prev
      {
        assert it in Firing(raw, prev, n, later);
        KeyFiresAgain(prev, KeyOf(it), n, now, later);
      }
    }
  }

  lemma {:induction false} SameFiring(raw: seq<AlertItem>, prev: map<string, PendingItem>, n: int, now: int, later: int)
    requires now <= later && Stored(prev, n)
    requires PromotedStillFresh(Firing(raw, prev, n, now), prev, later)
    ensures Firing(raw, prev, n, later) == Firing(raw, prev, n, now)
  {
    if raw != [] {
      var k := |raw| - 1;
      assert forall it :: it in Firing(raw[..k], prev, n, now) ==> it in Firing(raw, prev, n, now);
      SameFiring(raw[..k], prev, n, now, later);
      KeyFiresAgain(prev, KeyOf(raw[k]), n, now, later);
      if Fires(prev, KeyOf(raw[k]), n, now) {
        assert raw[k] in Firing(raw, prev, n, now);
      }
    }
  }

  lemma RetryFrom(w: World, i: Input, j: Input, p: Policy)
    requires p.n >= 1 && Stored(w.State().pending, p.n)
    requires i.readable && j.readable && j.raw == i.raw && i.now <= j.now
    requires Choose(Context(w, i, p), p) == SendAlert && !i.sendOk
    requires PromotedStillFresh(Context(w, i, p).filtered, w.State().pending, j.now)
    ensures Step(w, i, p) == w
    ensures Choose(Context(w, j, p), p) == SendAlert
    ensures Context(w, j, p).filtered == Context(w, i, p).filtered
    ensures MailOf(Context(w, j, p), p).signature == MailOf(Context(w, i, p), p).signature
  {
    SameFiring(i.raw, w.State().pending, p.n, i.now, j.now);
    SubIsMonotonic(i.now, j.now, w.State().lastSentAt);
  }

  /** No alert is lost to a failed send. After any history, if the alert mail fails, nothing changes,
      and the next run that sees the same raw list, while the promoting counters are fresh, attempts
      an alert with the same items and the same signature. */
  lemma FailedAlertIsRetried(inputs: seq<Input>, i: Input, j: Input, p: Policy)
    requires p.n >= 1
    requires i.readable && j.readable && j.raw == i.raw && i.now <= j.now
    requires Choose(Context(Run(inputs, p), i, p), p) == SendAlert && !i.sendOk
    requires PromotedStillFresh(Context(Run(inputs, p), i, p).filtered, Run(inputs, p).State().pending, j.now)
    ensures var w := Run(inputs, p);
            var first, again := Context(w, i, p), Context(Step(w, i, p), j, p);
            && Step(w, i, p) == w
            && Choose(again, p) == SendAlert
            && again.filtered == first.filtered
            && MailOf(again, p).signature == MailOf(first, p).signature
  {
    var w := Run(inputs, p);
    CountersAlwaysMean(inputs, p);
    assert forall k :: k in w.State().pending ==> CounterMeans(w.commits, k, w.State().pending[k], p.n);
    RetryFrom(w, i, j, p);
  }

  /** Failing runs that see the same raw list between `i` and `j`. */
  ghost predicate Failures(fails: seq<Input>, i: Input, j: Input) {
    forall k :: 0 <= k < |fails| ==>
      fails[k].readable && fails[k].raw == i.raw && i.now <= fails[k].now <= j.now && !fails[k].sendOk
  }

  /** What is fresh later is fresh before. */
  lemma FreshEarlier(fired: seq<AlertItem>, prev: map<string, PendingItem>, early: int, later: int)
    requires early <= later && PromotedStillFresh(fired, prev, later)
    ensures PromotedStillFresh(fired, prev, early)
  {
    forall it | it in fired && KeyOf(it) in prev
      ensures Fresh(prev[KeyOf(it)], early)
    {
      SubIsMonotonic(early, later, prev[KeyOf(it)].firstSeen);
    }
  }

  lemma {:induction false} FailuresChangeNothing(w: World, i: Input, fails: seq<Input>, j: Input, p: Policy)
    requires p.n >= 1 && Stored(w.State().pending, p.n)
    requires i.readable && Choose(Context(w, i, p), p) == SendAlert && !i.sendOk && Failures(fails, i, j)
    requires PromotedStillFresh(Context(w, i, p).filtered, w.State().pending, j.now)
    ensures RunFrom(w, fails, p) == w
  {
    if fails != [] {
      var n := |fails| - 1;
      FailuresChangeNothing(w, i, fails[..n], j, p);
      FreshEarlier(Context(w, i, p).filtered, w.State().pending, fails[n].now, j.now);
      RetryFrom(w, i, fails[n], p);
      FailingRunIsNothing(w, fails[n], p);
    }
  }

  lemma FailingRunIsNothing(w: World, i: Input, p: Policy)
    requires Choose(Context(w, i, p), p) == SendAlert && !i.sendOk
    ensures Step(w, i, p) == w
  {
  }

  /** However many runs in a row fail to send it, the alert is not lost: nothing changes, and the next run
      that sees the same raw list, while the promoting counters are fresh, attempts it again. */
  lemma FailedAlertIsRetriedAtLast(inputs: seq<Input>, i: Input, fails: seq<Input>, j: Input, p: Policy)
    requires p.n >= 1
    requires i.readable && j.readable && j.raw == i.raw && i.now <= j.now && Failures(fails, i, j)
    requires Choose(Context(Run(inputs, p), i, p), p) == SendAlert && !i.sendOk
    requires PromotedStillFresh(Context(Run(inputs, p), i, p).filtered, Run(inputs, p).State().pending, j.now)
    ensures var w := Run(inputs, p);
            var first, again := Context(w, i, p), Context(RunFrom(Step(w, i, p), fails, p), j, p);
            && RunFrom(Step(w, i, p), fails, p) == w
            && Choose(again, p) == SendAlert
            && again.filtered == first.filtered
            && MailOf(again, p).signature == MailOf(first, p).signature
  {
    var w := Run(inputs, p);
    FailedAlertIsRetried(inputs, i, j, p);
    CountersAlwaysMean(inputs, p);
    assert forall k :: k in w.State().pending ==> CounterMeans(w.commits, k, w.State().pending[k], p.n);
    FailuresChangeNothing(w, i, fails, j, p);
  }

  /** Without the freshness condition it is false: the counter expires and the next run is silent. */
  lemma ExpiredCounterLosesTheAlert(it: AlertItem, p: Policy)
    requires p.n == 2
    ensures var s := State(ZERO_TIME, "", Empty, map[KeyOf(it) := PendingItem(1, 0)], 0);
            && Choose(Prepared([it], s, 2, 0), p) == SendAlert
            && Choose(Prepared([it], s, 2, 86_400_000_000_000), p) == NoAction
  {
    var prev := map[KeyOf(it) := PendingItem(1, 0)];
    FireOne(it, prev, 2, 0);
    FireOne(it, prev, 2, 86_400_000_000_000);
    FreshForADay(prev[KeyOf(it)], 0);
    FreshForADay(prev[KeyOf(it)], 86_400_000_000_000);
  }

  lemma FireOne(it: AlertItem, prev: map<string, PendingItem>, n: int, now: int)
    ensures Firing([it], prev, n, now) == if Fires(prev, KeyOf(it), n, now) then [it] else []
  {
    assert [it][..0] == [];
  }
}
