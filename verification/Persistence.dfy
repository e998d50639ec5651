/** notify/persistence.go: alerts have to be seen in N runs in a row before they fire. */
module Persistence {
  import opened Alerts
  import opened Clock
  import opened StateFile
  import opened Strings

  const PENDING_TTL: int := 24 * HOUR

  function PendingKey(host: string, field: string): string {
    host + "|" + field
  }

  function KeyOf(it: AlertItem): string {
    PendingKey(it.host, it.field)
  }

  /** The keys present in a raw list. */
  function Keys(items: seq<AlertItem>): set<string> {
    set it | it in items :: KeyOf(it)
  }

  datatype PersistenceResult = PersistenceResult(
    filtered: seq<AlertItem>,
    nextPending: map<string, PendingItem>,
    pendingKeys: set<string>)

  predicate Fresh(e: PendingItem, now: int) {
    Sub(now, e.firstSeen) < PENDING_TTL
  }

  /** A counter is believed for 24 hours. */
  lemma FreshForADay(e: PendingItem, now: int)
    ensures Fresh(e, now) <==> now - e.firstSeen < 86_400_000_000_000
  {
    SubIsNearest(now, e.firstSeen);
  }

  /** The counter of `key` after being seen once more. */
  function Advance(prev: map<string, PendingItem>, key: string, now: int): PendingItem {
    if key in prev && Fresh(prev[key], now)
    then PendingItem(prev[key].count + 1, prev[key].firstSeen)
    else PendingItem(1, now)
  }

  /** What one more sighting does: a counter younger than 24 hours goes on, any other starts again. */
  lemma NextCounter(prev: map<string, PendingItem>, key: string, now: int)
    ensures Advance(prev, key, now)
         == if key in prev && now - prev[key].firstSeen < 86_400_000_000_000
            then PendingItem(prev[key].count + 1, prev[key].firstSeen)
            else PendingItem(1, now)
  {
    if key in prev {
      FreshForADay(prev[key], now);
    }
  }

  predicate Fires(prev: map<string, PendingItem>, key: string, n: int, now: int) {
    n <= 1 || Advance(prev, key, now).count >= n
  }

  /** The items that fire, in input order. */
  function Firing(items: seq<AlertItem>, prev: map<string, PendingItem>, n: int, now: int): seq<AlertItem> {
    if items == [] then []
    else
      var last := items[|items| - 1];
      Firing(items[..|items| - 1], prev, n, now) + (if Fires(prev, KeyOf(last), n, now) then [last] else [])
  }

  function WaitingKeys(items: seq<AlertItem>, prev: map<string, PendingItem>, n: int, now: int): set<string> {
    set it | it in items && !Fires(prev, KeyOf(it), n, now) :: KeyOf(it)
  }

  function Waiting(items: seq<AlertItem>, prev: map<string, PendingItem>, n: int, now: int): map<string, PendingItem> {
    map k | k in WaitingKeys(items, prev, n, now) :: Advance(prev, k, now)
  }

  function Pass(items: seq<AlertItem>, prev: map<string, PendingItem>, n: int, now: int): PersistenceResult {
    PersistenceResult(
      Firing(items, prev, n, now), Waiting(items, prev, n, now), WaitingKeys(items, prev, n, now))
  }

  /** What a pass does with one item, from the stored counter and the clock alone. */
  ghost predicate GatedByTheClock(
    it: AlertItem, prev: map<string, PendingItem>, n: int, now: int, r: PersistenceResult)
  {
    var key := it.host + "|" + it.field;
    var kept := key in prev && now - prev[key].firstSeen < 86_400_000_000_000;
    var count, since := if kept then prev[key].count + 1 else 1, if kept then prev[key].firstSeen else now;
    if n <= 1 || count >= n
    then it in r.filtered && key !in r.nextPending && key !in r.pendingKeys
    else
      && it !in r.filtered && key in r.pendingKeys
      && key in r.nextPending && r.nextPending[key] == PendingItem(count, since)
  }

  lemma PassGatesByTheClock(items: seq<AlertItem>, prev: map<string, PendingItem>, n: int, now: int)
    ensures forall it :: it in items ==> GatedByTheClock(it, prev, n, now, Pass(items, prev, n, now))
  {
    FiringMembers(items, prev, n, now);
    forall it | it in items
      ensures GatedByTheClock(it, prev, n, now, Pass(items, prev, n, now))
    {
      NextCounter(prev, KeyOf(it), now);
    }
  }

  method ApplyPersistence(items: seq<AlertItem>, prev: map<string, PendingItem>, runs: int, now: int)
    returns (res: PersistenceResult)
    ensures res == Pass(items, prev, runs, now)
    ensures forall it :: it in items ==> GatedByTheClock(it, prev, runs, now, res)
  {
    PassGatesByTheClock(items, prev, runs, now);
    var n := if runs < 1 then 1 else runs;
    if n == 1 {
      EveryItemFires(items, prev, runs, now);
      return PersistenceResult(items, map[], {});
    }
    res := PersistenceResult([], map[], {});
    for i := 0 to |items|
      invariant res == Pass(items[..i], prev, n, now)
    {
      var it := items[i];
      assert items[..i + 1] == items[..i] + [it];
      PassStep(items[..i], it, prev, n, now);
      var key := PendingKey(it.host, it.field);
      var newCount, firstSeen := 1, now;
      if key in prev && Sub(now, prev[key].firstSeen) < PENDING_TTL {
        newCount, firstSeen := prev[key].count + 1, prev[key].firstSeen;
      }
      if newCount >= n {
        res := res.(filtered := res.filtered + [it]);
        continue;
      }
      res := res.(nextPending := res.nextPending[key := PendingItem(newCount, firstSeen)],
                  pendingKeys := res.pendingKeys + {key});
    }
    assert items[..|items|] == items;
  }

  lemma WaitingKeysStep(before: seq<AlertItem>, it: AlertItem, prev: map<string, PendingItem>, n: int, now: int)
    ensures WaitingKeys(before + [it], prev, n, now)
         == WaitingKeys(before, prev, n, now) + (if Fires(prev, KeyOf(it), n, now) then {} else {KeyOf(it)})
  {
    assert forall x :: x in before + [it] <==> x in before || x == it;
  }

  /** One more item adds one alert to the firing list, or one key to the waiting ones. */
  lemma PassStep(before: seq<AlertItem>, it: AlertItem, prev: map<string, PendingItem>, n: int, now: int)
    ensures var old', key := Pass(before, prev, n, now), KeyOf(it);
            Pass(before + [it], prev, n, now)
            == if Fires(prev, key, n, now)
               then old'.(filtered := old'.filtered + [it])
               else old'.(nextPending := old'.nextPending[key := Advance(prev, key, now)],
                          pendingKeys := old'.pendingKeys + {key})
  {
    assert (before + [it])[..|before|] == before;
    WaitingKeysStep(before, it, prev, n, now);
    assert Firing(before, prev, n, now) + [] == Firing(before, prev, n, now);
    if Fires(prev, KeyOf(it), n, now) {
      assert Waiting(before + [it], prev, n, now) == Waiting(before, prev, n, now);
    } else {
      assert Waiting(before + [it], prev, n, now)
          == Waiting(before, prev, n, now)[KeyOf(it) := Advance(prev, KeyOf(it), now)];
    }
  }

  /** With N = 1 the filter is off. */
  lemma {:induction false} EveryItemFires(items: seq<AlertItem>, prev: map<string, PendingItem>, n: int, now: int)
    requires n <= 1
    ensures Pass(items, prev, n, now) == PersistenceResult(items, map[], {})
  {
    if items != [] {
      EveryItemFires(items[..|items| - 1], prev, n, now);
      assert items == items[..|items| - 1] + [items[|items| - 1]];
    }
  }

  lemma {:induction false} FiringMembers(items: seq<AlertItem>, prev: map<string, PendingItem>, n: int, now: int)
    ensures forall it :: it in Firing(items, prev, n, now) <==> it in items && Fires(prev, KeyOf(it), n, now)
  {
    if items != [] {
      FiringMembers(items[..|items| - 1], prev, n, now);
      assert items == items[..|items| - 1] + [items[|items| - 1]];
    }
  }

  /** `xs` is `ys` with some elements left out. */
  predicate Subsequence<T(==)>(xs: seq<T>, ys: seq<T>) {
    xs == []
    || (ys != [] && (Subsequence(xs, ys[..|ys| - 1])
                     || (xs[|xs| - 1] == ys[|ys| - 1] && Subsequence(xs[..|xs| - 1], ys[..|ys| - 1]))))
  }

  /** The items that fire keep their order ... */
  lemma {:induction false} FiringKeepsOrder(items: seq<AlertItem>, prev: map<string, PendingItem>, n: int, now: int)
    ensures Subsequence(Firing(items, prev, n, now), items)
  {
    if items != [] {
      var before, last := items[..|items| - 1], items[|items| - 1];
      FiringKeepsOrder(before, prev, n, now);
      var f := Firing(before, prev, n, now);
      assert (f + [last])[..|f|] == f && f + [] == f;
    }
  }

  /** ... and their multiplicity. */
  lemma {:induction false} FiringKeepsCopies(
      items: seq<AlertItem>, prev: map<string, PendingItem>, n: int, now: int, it: AlertItem)
    ensures multiset(Firing(items, prev, n, now))[it]
         == if Fires(prev, KeyOf(it), n, now) then multiset(items)[it] else 0
  {
    if items != [] {
      var before, last := items[..|items| - 1], items[|items| - 1];
      FiringKeepsCopies(before, prev, n, now, it);
      assert items == before + [last];
    }
  }

  /** One pass with N >= 2 splits the raw list in two: an item fires, or its key waits, never both.
      A waiting counter lies in [1, N-1], and an entry that is kept is younger than 24 hours. */
  lemma OnePassIsAPartition(items: seq<AlertItem>, prev: map<string, PendingItem>, n: int, now: int)
    requires n >= 2
    requires forall k :: k in prev ==> prev[k].count >= 0
    ensures var r := Pass(items, prev, n, now);
            && (forall it :: it in items ==> (it in r.filtered <==> KeyOf(it) !in r.pendingKeys))
            && (forall it :: it in r.filtered ==> it in items)
            && r.pendingKeys <= Keys(items)
            && r.nextPending.Keys == r.pendingKeys
            && (forall k :: k in r.nextPending ==>
                  && 1 <= r.nextPending[k].count <= n - 1
                  && now - r.nextPending[k].firstSeen < 86_400_000_000_000)
            && Subsequence(r.filtered, items)
  {
    forall k | k in Pass(items, prev, n, now).nextPending
      ensures now - Pass(items, prev, n, now).nextPending[k].firstSeen < 86_400_000_000_000
    {
      NextCounter(prev, k, now);
    }
    FiringMembers(items, prev, n, now);
    FiringKeepsOrder(items, prev, n, now);
  }

  /** The pass looks at each item by itself, so only the set of items matters. */
  lemma PassForgetsOrder(a: seq<AlertItem>, b: seq<AlertItem>, prev: map<string, PendingItem>, n: int, now: int)
    requires Elements(a) == Elements(b)
    ensures Pass(a, prev, n, now).nextPending == Pass(b, prev, n, now).nextPending
    ensures Pass(a, prev, n, now).pendingKeys == Pass(b, prev, n, now).pendingKeys
    ensures Elements(Pass(a, prev, n, now).filtered) == Elements(Pass(b, prev, n, now).filtered)
  {
    FiringMembers(a, prev, n, now);
    FiringMembers(b, prev, n, now);
    assert forall it :: it in a <==> it in b by {
      forall it ensures it in a <==> it in b {
        assert it in a <==> it in Elements(a);
        assert it in b <==> it in Elements(b);
      }
    }
    assert WaitingKeys(a, prev, n, now) == WaitingKeys(b, prev, n, now);
  }

  function UpdateRecoveryStreak(prevStreak: int, prevStatus: Status, rawWarnsEmpty: bool): int {
    if prevStatus != Alert then 0
    else if !rawWarnsEmpty then 0
    else prevStreak + 1
  }
}
