/** The part of the inspection report that notification reads and rewrites. */
module Model {

  datatype CheckStatus = OK | Warn | Unknown | Notice | Other(text: string)

  datatype CheckResult = CheckResult(field: string, value: string, status: CheckStatus, threshold: string)

  datatype CheckSummary = CheckSummary(total: int, ok: int, warn: int, unknown: int)

  /** One host's own table of checks; `ip` is the source's `Metrics.IP`. */
  datatype HostChecks = HostChecks(ip: string, checks: seq<CheckResult>)

  class InspectReport {
    var hosts: seq<HostChecks>
    var allChecks: seq<CheckResult>
    var summary: CheckSummary

    constructor (hosts: seq<HostChecks>, allChecks: seq<CheckResult>, summary: CheckSummary)
      ensures this.hosts == hosts && this.allChecks == allChecks && this.summary == summary
    {
      this.hosts, this.allChecks, this.summary := hosts, allChecks, summary;
    }
  }

  /** How many rows have the given status. */
  function CountStatus(checks: seq<CheckResult>, s: CheckStatus): nat {
    if checks == [] then 0
    else CountStatus(checks[..|checks| - 1], s) + (if checks[|checks| - 1].status == s then 1 else 0)
  }

  /** What a summary of these rows must say: Notice rows are in no bucket. */
  function Tally(checks: seq<CheckResult>): CheckSummary {
    var ok, warn, unknown := CountStatus(checks, OK), CountStatus(checks, Warn), CountStatus(checks, Unknown);
    CheckSummary(ok + warn + unknown, ok, warn, unknown)
  }

  lemma {:induction false} CountConcat(a: seq<CheckResult>, b: seq<CheckResult>, s: CheckStatus)
    ensures CountStatus(a + b, s) == CountStatus(a, s) + CountStatus(b, s)
  {
    if b == [] {
      assert a + b == a;
    } else {
      assert (a + b)[..|a + b| - 1] == a + b[..|b| - 1];
      CountConcat(a, b[..|b| - 1], s);
    }
  }

  /** The last element of `a` sits somewhere in a permutation of `a`. */
  lemma TakeOut<T>(a: seq<T>, b: seq<T>) returns (i: nat)
    requires a != [] && multiset(a) == multiset(b)
    ensures i < |b| && b[i] == a[|a| - 1]
    ensures multiset(a[..|a| - 1]) == multiset(b[..i] + b[i + 1..])
  {
    var n, x := |a| - 1, a[|a| - 1];
    assert a == a[..n] + [x];
    assert x in multiset(b);
    i :| 0 <= i < |b| && b[i] == x;
    assert b == b[..i] + [x] + b[i + 1..];
    assert multiset(a[..n]) == multiset(a) - multiset{x};
    assert multiset(b[..i] + b[i + 1..]) == multiset(b) - multiset{x};
  }

  lemma CountTakeOut(b: seq<CheckResult>, i: nat, s: CheckStatus)
    requires i < |b|
    ensures CountStatus(b, s) == CountStatus(b[..i] + b[i + 1..], s) + (if b[i].status == s then 1 else 0)
  {
    assert b == b[..i + 1] + b[i + 1..];
    CountConcat(b[..i + 1], b[i + 1..], s);
    CountConcat(b[..i], b[i + 1..], s);
    assert b[..i + 1][..i] == b[..i];
  }

  /** Counting does not see the order of the rows. */
  lemma {:induction false} CountForgetsOrder(a: seq<CheckResult>, b: seq<CheckResult>, s: CheckStatus)
    requires multiset(a) == multiset(b)
    ensures CountStatus(a, s) == CountStatus(b, s)
    decreases |a|
  {
    if a == [] {
      assert |b| == |multiset(b)| == 0;
    } else {
      var i := TakeOut(a, b);
      CountForgetsOrder(a[..|a| - 1], b[..i] + b[i + 1..], s);
      CountTakeOut(b, i, s);
    }
  }

  /** The positions of the rows with the given status. */
  function Positions(checks: seq<CheckResult>, s: CheckStatus): set<int> {
    set i | 0 <= i < |checks| && checks[i].status == s
  }

  /** Counting is counting positions. */
  lemma {:induction false} CountIsPositions(checks: seq<CheckResult>, s: CheckStatus)
    ensures CountStatus(checks, s) == |Positions(checks, s)|
  {
    if checks != [] {
      var n := |checks| - 1;
      CountIsPositions(checks[..n], s);
      assert Positions(checks, s) == Positions(checks[..n], s) + (if checks[n].status == s then {n} else {});
    }
  }

  /** The summary by positions: how many rows are OK, Warn and Unknown, and how many are one of the three. */
  ghost predicate Summarizes(s: CheckSummary, checks: seq<CheckResult>) {
    && s.ok == |Positions(checks, OK)| && s.warn == |Positions(checks, Warn)|
    && s.unknown == |Positions(checks, Unknown)|
    && s.total == |Positions(checks, OK) + Positions(checks, Warn) + Positions(checks, Unknown)|
  }

  lemma TallySummarizes(checks: seq<CheckResult>)
    ensures Summarizes(Tally(checks), checks)
  {
    CountIsPositions(checks, OK);
    CountIsPositions(checks, Warn);
    CountIsPositions(checks, Unknown);
    assert Positions(checks, OK) !! Positions(checks, Warn);
    assert Positions(checks, OK) + Positions(checks, Warn) !! Positions(checks, Unknown);
  }

  /** The checker's `Summarize`. */
  method Summarize(results: seq<CheckResult>) returns (s: CheckSummary)
    ensures s == Tally(results) && Summarizes(s, results)
  {
    s := CheckSummary(0, 0, 0, 0);
    for i := 0 to |results|
      invariant s == Tally(results[..i])
    {
      assert results[..i + 1][..i] == results[..i];
      match results[i].status {
        case OK => s := s.(ok := s.ok + 1, total := s.total + 1);
        case Warn => s := s.(warn := s.warn + 1, total := s.total + 1);
        case Unknown => s := s.(unknown := s.unknown + 1, total := s.total + 1);
        case _ =>
      }
    }
    assert results[..|results|] == results;
    TallySummarizes(results);
  }
}
