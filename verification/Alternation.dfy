/** What a stable set of warnings can cost: two warnings that are confirmed out of phase fire in turn,
    so the signature changes at every run, and every run mails, whatever the cooldown is. */
module Alternation {
  import opened Alerts
  import opened Config
  import opened Notify
  import opened Persistence
  import opened Signatures
  import opened StateFile
  import opened Trigger

  /** `a` is first seen one run before `b`; from then on every run sees both. All runs succeed, and no
      two neighbours are 24 hours apart. */
  ghost predicate OutOfPhase(inputs: seq<Input>, a: AlertItem, b: AlertItem) {
    && |inputs| >= 1 && inputs[0].raw == [a]
    && (forall k :: 1 <= k < |inputs| ==> inputs[k].raw == [a, b])
    && (forall k :: 0 <= k < |inputs| ==> inputs[k].readable && inputs[k].sendOk && inputs[k].saveOk)
    && (forall j, k :: 0 <= j && k == j + 1 < |inputs| ==> Fresh(PendingItem(1, inputs[j].now), inputs[k].now))
  }

  /** `it` has been seen once, at time `at`, and the last alert mail, if any stands, was not about it. */
  ghost predicate NextToFire(s: State, it: AlertItem, at: int, p: Policy) {
    && s.pending == map[KeyOf(it) := PendingItem(1, at)]
    && (s.lastStatus == Alert ==> s.lastSignature != Signature([it], p.digest))
  }

  /** The one of the two whose turn it is after `k` runs. */
  function Turn<T>(k: nat, a: T, b: T): T {
    if k % 2 == 1 then a else b
  }

  lemma OneOfTwoFires(a: AlertItem, b: AlertItem, prev: map<string, PendingItem>, n: int, now: int)
    ensures Firing([a, b], prev, n, now)
         == (if Fires(prev, KeyOf(a), n, now) then [a] else []) + (if Fires(prev, KeyOf(b), n, now) then [b] else [])
    ensures Firing([a], prev, n, now) == if Fires(prev, KeyOf(a), n, now) then [a] else []
  {
    assert [a, b][..1] == [a] && [a][..0] == [];
    assert Firing([], prev, n, now) == [];
    assert Firing([a], prev, n, now) == [] + (if Fires(prev, KeyOf(a), n, now) then [a] else []);
    assert Firing([a, b], prev, n, now)
        == Firing([a], prev, n, now) + (if Fires(prev, KeyOf(b), n, now) then [b] else []);
  }

  lemma OneOfTwoWaits(a: AlertItem, b: AlertItem, other: AlertItem, prev: map<string, PendingItem>, n: int, now: int)
    requires other == a || other == b
    requires forall it :: it == a || it == b ==> (Fires(prev, KeyOf(it), n, now) <==> it != other)
    ensures WaitingKeys([a, b], prev, n, now) == {KeyOf(other)}
  {
    assert [a, b][0] == a && [a, b][1] == b;
    assert other in [a, b];
  }

  /** The pass of a run that sees both: `mine` fires, the other one waits from now on. */
  lemma PassOfTwo(a: AlertItem, b: AlertItem, mine: AlertItem, other: AlertItem, at: int, now: int)
    requires KeyOf(a) != KeyOf(b) && ((mine == a && other == b) || (mine == b && other == a))
    requires Fresh(PendingItem(1, at), now)
    ensures var r := Pass([a, b], map[KeyOf(mine) := PendingItem(1, at)], 2, now);
            r.filtered == [mine] && r.nextPending == map[KeyOf(other) := PendingItem(1, now)]
  {
    var prev := map[KeyOf(mine) := PendingItem(1, at)];
    assert Fires(prev, KeyOf(mine), 2, now) && !Fires(prev, KeyOf(other), 2, now);
    OneOfTwoFires(a, b, prev, 2, now);
    OneOfTwoWaits(a, b, other, prev, 2, now);
  }

  /** The pass of the first run. */
  lemma PassOfOne(a: AlertItem, now: int)
    ensures var r := Pass([a], map[], 2, now);
            r.filtered == [] && r.nextPending == map[KeyOf(a) := PendingItem(1, now)]
  {
    OneOfTwoFires(a, a, map[], 2, now);
    assert a in [a] && WaitingKeys([a], map[], 2, now) == {KeyOf(a)};
  }

  lemma FirstRun(i: Input, a: AlertItem, p: Policy)
    requires p.n == 2 && i.raw == [a] && i.readable && i.saveOk
    ensures Step(START, i, p).sent == [] && NextToFire(Step(START, i, p).State(), a, i.now, p)
  {
    PassOfOne(a, i.now);
  }

  lemma NextRun(w: World, i: Input, a: AlertItem, b: AlertItem, mine: AlertItem, other: AlertItem, at: int, p: Policy)
    requires p.n == 2 && KeyOf(a) != KeyOf(b) && ((mine == a && other == b) || (mine == b && other == a))
    requires Signature([a], p.digest) != Signature([b], p.digest)
    requires i.raw == [a, b] && i.readable && i.sendOk && i.saveOk
    requires NextToFire(w.State(), mine, at, p) && Fresh(PendingItem(1, at), i.now)
    ensures Step(w, i, p).sent == w.sent + [Mail(SendAlert, Signature([mine], p.digest), i.now)]
    ensures NextToFire(Step(w, i, p).State(), other, i.now, p)
  {
    PassOfTwo(a, b, mine, other, at, i.now);
  }

  /** One mail for every run but the first, with the two signatures in turn. */
  ghost predicate SentInTurn(sent: seq<Mail>, inputs: seq<Input>, sigA: string, sigB: string) {
    && |sent| + 1 == |inputs|
    && forall j :: 0 <= j < |sent| ==> sent[j] == Mail(SendAlert, Turn(j + 1, sigA, sigB), inputs[j + 1].now)
  }

  ghost predicate InTurn(sent: seq<Mail>, s: State, inputs: seq<Input>, a: AlertItem, b: AlertItem, p: Policy) {
    && SentInTurn(sent, inputs, Signature([a], p.digest), Signature([b], p.digest))
    && NextToFire(s, Turn(|inputs|, a, b), inputs[|inputs| - 1].now, p)
  }

  lemma SentStep(sent: seq<Mail>, inputs: seq<Input>, i: Input, sigA: string, sigB: string)
    requires SentInTurn(sent, inputs, sigA, sigB)
    ensures SentInTurn(sent + [Mail(SendAlert, Turn(|inputs|, sigA, sigB), i.now)], inputs + [i], sigA, sigB)
  {
    assert forall j :: 0 <= j < |inputs| ==> (inputs + [i])[j] == inputs[j];
  }

  lemma InTurnStep(w: World, inputs: seq<Input>, i: Input, a: AlertItem, b: AlertItem, p: Policy)
    requires p.n == 2 && KeyOf(a) != KeyOf(b) && Signature([a], p.digest) != Signature([b], p.digest)
    requires InTurn(w.sent, w.State(), inputs, a, b, p) && OutOfPhase(inputs + [i], a, b)
    ensures InTurn(Step(w, i, p).sent, Step(w, i, p).State(), inputs + [i], a, b, p)
  {
    var k, all := |inputs|, inputs + [i];
    assert all[k] == i && all[k - 1] == inputs[k - 1];
    NextRun(w, i, a, b, Turn(k, a, b), Turn(k + 1, a, b), inputs[k - 1].now, p);
    SentStep(w.sent, inputs, i, Signature([a], p.digest), Signature([b], p.digest));
  }

  lemma OutOfPhasePrefix(inputs: seq<Input>, i: Input, a: AlertItem, b: AlertItem)
    requires inputs != [] && OutOfPhase(inputs + [i], a, b)
    ensures OutOfPhase(inputs, a, b)
  {
    assert forall k :: 0 <= k < |inputs| ==> inputs[k] == (inputs + [i])[k];
  }

  /** Every run after the first sends an alert mail, about `a` and `b` in turn, although all these runs
      see one and the same set of warnings. */
  lemma {:induction false} EveryRunMails(inputs: seq<Input>, a: AlertItem, b: AlertItem, p: Policy)
    requires p.n == 2 && KeyOf(a) != KeyOf(b) && Signature([a], p.digest) != Signature([b], p.digest)
    requires OutOfPhase(inputs, a, b)
    ensures InTurn(Run(inputs, p).sent, Run(inputs, p).State(), inputs, a, b, p)
  {
    var init, i := inputs[..|inputs| - 1], inputs[|inputs| - 1];
    assert inputs == init + [i];
    RunFromExtends(START, init, i, p);
    if init == [] {
      FirstRun(i, a, p);
    } else {
      OutOfPhasePrefix(init, i, a, b);
      EveryRunMails(init, a, b, p);
      InTurnStep(Run(init, p), init, i, a, b, p);
    }
  }
}
