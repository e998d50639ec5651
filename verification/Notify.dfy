/** notify/notify.go: one run, from the raw warnings to the state it commits.

    `Prepared`, `Choose` and `Step` say what a run does on values; class `Notifier` does it the way
    the program does, on a report and a state directory that change in place. A history of runs is
    a list of inputs, and `Run` is the world it leads to. */
module Notify {
  import opened Alerts
  import opened Config
  import opened Demotion
  import opened Model
  import opened Persistence
  import opened Signatures
  import opened StateFile
  import opened Trigger

  /** The source's `PrepContext`. */
  datatype Prep = Prep(
    prev: State,
    filtered: seq<AlertItem>,
    nextPending: map<string, PendingItem>,
    newStreak: int,
    rawWarnsEmpty: bool,
    now: int)

  function Prepared(raw: seq<AlertItem>, prev: State, n: int, now: int): Prep {
    var pass := Pass(raw, prev.pending, n, now);
    Prep(prev, pass.filtered, pass.nextPending,
         UpdateRecoveryStreak(prev.recoveryStreak, prev.lastStatus, raw == []), raw == [], now)
  }

  /** The decision of `Dispatch`: an alert with nothing firing never reaches `Decide`. */
  function Choose(ctx: Prep, p: Policy): Action {
    var action :=
      if ctx.prev.lastStatus == Alert && ctx.filtered == [] then
        if ctx.rawWarnsEmpty && ctx.newStreak >= p.n then SendRecovery else NoAction
      else Decide(ctx.now, ctx.prev, |ctx.filtered|, Signature(ctx.filtered, p.digest), p.cooldown);
    if action == SendRecovery && !p.sendRecovery then NoAction else action
  }

  datatype Mail = Mail(kind: Action, signature: string, at: int)

  /** The mail an action sends. */
  function MailOf(ctx: Prep, p: Policy): Mail {
    var action := Choose(ctx, p);
    Mail(action, if action == SendAlert then Signature(ctx.filtered, p.digest) else "", ctx.now)
  }

  /** The state that is saved once the action has gone through. */
  function NextState(ctx: Prep, p: Policy): State {
    match Choose(ctx, p)
    case NoAction => ctx.prev.(pending := ctx.nextPending, recoveryStreak := ctx.newStreak)
    case SendAlert => State(ctx.now, Signature(ctx.filtered, p.digest), Alert, ctx.nextPending, 0)
    case SendRecovery => State(ctx.now, "", Ok, ctx.nextPending, 0)
  }

  /** One run. `readable`: the state file could be read; `sendOk`: the mail, if any, went out;
      `saveOk`: the new state reached the file. A crash is a run whose later steps all fail. */
  datatype Input = Input(raw: seq<AlertItem>, now: int, readable: bool, sendOk: bool, saveOk: bool)

  /** What a committed run did. */
  datatype Commit = Commit(input: Input, filtered: seq<AlertItem>, mail: Mail)

  /** The state file, the runs that were committed to it, and the mails that went out. */
  datatype World = World(file: Content, commits: seq<Commit>, sent: seq<Mail>) {
    function State(): State { Loaded(file, true) }
  }

  const START := World(Missing, [], [])

  function Context(w: World, i: Input, p: Policy): Prep {
    Prepared(i.raw, Loaded(w.file, i.readable), p.n, i.now)
  }

  /** A run whose mail fails returns before it saves. */
  predicate Commits(w: World, i: Input, p: Policy) {
    i.saveOk && (Choose(Context(w, i, p), p) == NoAction || i.sendOk)
  }

  function Step(w: World, i: Input, p: Policy): World {
    var ctx := Context(w, i, p);
    var sent := if Choose(ctx, p) != NoAction && i.sendOk then w.sent + [MailOf(ctx, p)] else w.sent;
    if Commits(w, i, p)
    then World(Holds(NextState(ctx, p)), w.commits + [Commit(i, ctx.filtered, MailOf(ctx, p))], sent)
    else w.(sent := sent)
  }

  function RunFrom(w: World, inputs: seq<Input>, p: Policy): World {
    if inputs == [] then w
    else Step(RunFrom(w, inputs[..|inputs| - 1], p), inputs[|inputs| - 1], p)
  }

  /** The world after a history of runs on a machine that never ran before. */
  function Run(inputs: seq<Input>, p: Policy): World {
    RunFrom(START, inputs, p)
  }

  lemma RunFromExtends(w: World, inputs: seq<Input>, i: Input, p: Policy)
    ensures RunFrom(w, inputs + [i], p) == Step(RunFrom(w, inputs, p), i, p)
  {
    assert (inputs + [i])[..|inputs|] == inputs;
  }

  /** What holds for `past` and no inputs, and goes on by one input, holds for all inputs. */
  lemma {:induction false} GoesOn(holds: (seq<Input>, seq<Input>) -> bool, past: seq<Input>, inputs: seq<Input>)
    requires holds(past, [])
    requires forall all, s, i :: holds(all, s) ==> holds(all + [i], s + [i])
    ensures holds(past + inputs, inputs)
  {
    if inputs == [] {
      assert past + inputs == past && inputs == [];
    } else {
      var n := |inputs| - 1;
      GoesOn(holds, past, inputs[..n]);
      assert holds(past + inputs[..n] + [inputs[n]], inputs[..n] + [inputs[n]]);
      assert past + inputs == past + inputs[..n] + [inputs[n]] && inputs == inputs[..n] + [inputs[n]];
    }
  }

  lemma BothExtend(w: World, all: seq<Input>, v: World, s: seq<Input>, i: Input, p: Policy)
    requires RunFrom(w, all, p) == RunFrom(v, s, p)
    ensures RunFrom(w, all + [i], p) == RunFrom(v, s + [i], p)
  {
    RunFromExtends(w, all, i, p);
    RunFromExtends(v, s, i, p);
  }

  /** A history can be cut in two. */
  lemma RunFromAfter(w: World, past: seq<Input>, inputs: seq<Input>, p: Policy)
    ensures RunFrom(w, past + inputs, p) == RunFrom(RunFrom(w, past, p), inputs, p)
  {
    var v := RunFrom(w, past, p);
    var meet := (all: seq<Input>, s: seq<Input>) => RunFrom(w, all, p) == RunFrom(v, s, p);
    forall all, s, i | meet(all, s)
      ensures meet(all + [i], s + [i])
    {
      BothExtend(w, all, v, s, i, p);
    }
    GoesOn(meet, past, inputs);
  }

  datatype Option<T> = None | Some(value: T)

  class Notifier {
    const dir: StateDir
    var outbox: seq<Mail>
    ghost var commits: seq<Commit>

    constructor ()
      ensures fresh(dir) && Abstract() == START && dir.temps == map[]
    {
      dir := new StateDir();
      outbox, commits := [], [];
    }

    ghost function Abstract(): World
      reads this, dir
    {
      World(dir.target, commits, outbox)
    }

    /** Load, filter, demote. `usable` is false for a missing, disabled or incomplete configuration,
        which leaves the report alone. */
    method Prepare(usable: bool, p: Policy, report: InspectReport, readable: bool, now: int)
      returns (ctx: Option<Prep>, ghost raw: seq<AlertItem>)
      modifies report
      ensures raw == Extracted(old(report.hosts), old(report.allChecks))
      ensures !usable ==> ctx == None && unchanged(report)
      ensures usable ==> ctx == Some(Prepared(raw, Loaded(dir.target, readable), p.n, now))
      ensures usable ==>
                var keys := Pass(raw, Loaded(dir.target, readable).pending, p.n, now).pendingKeys;
                && report.hosts == DemoteHosts(old(report.hosts), keys)
                && report.allChecks == DemoteRows(old(report.allChecks), HostByField(old(report.hosts)), keys)
                && HostsDemoted(old(report.hosts), report.hosts, keys)
                && RowsDemoted(old(report.allChecks), report.allChecks, old(report.hosts), keys)
                && report.summary == if keys == {} then old(report.summary) else Tally(report.allChecks)
    {
      raw := Extracted(report.hosts, report.allChecks);
      if !usable {
        return None, raw;
      }
      var prev := dir.LoadState(readable);
      var rawItems := ExtractAlerts(report);
      var rawWarnsEmpty := |rawItems| == 0;
      var persRes := ApplyPersistence(rawItems, prev.pending, p.n, now);
      var streak := UpdateRecoveryStreak(prev.recoveryStreak, prev.lastStatus, rawWarnsEmpty);
      DemotePending(report, persRes.pendingKeys);
      ctx := Some(Prep(prev, persRes.filtered, persRes.nextPending, streak, rawWarnsEmpty, now));
    }

    /** The first half of `Dispatch`: the signature and the action. */
    static method Decision(c: Prep, p: Policy) returns (sigNow: string, action: Action)
      ensures sigNow == Signature(c.filtered, p.digest)
      ensures action == Choose(c, p)
    {
      sigNow := ComputeSignature(c.filtered, p.digest);
      if c.prev.lastStatus == Alert && |c.filtered| == 0 {
        if c.rawWarnsEmpty && c.newStreak >= p.n {
          action := SendRecovery;
        } else {
          action := NoAction;
        }
      } else {
        action := Decide(c.now, c.prev, |c.filtered|, sigNow, p.cooldown);
      }
      if action == SendRecovery && !p.sendRecovery {
        action := NoAction;
      }
    }

    /** Decide, send, save. The ghost input is the run this context was prepared for. */
    method Dispatch(ctx: Option<Prep>, p: Policy, sendOk: bool,
                    tmp: nat, fault: SaveFault, removable: bool, ghost i: Input)
      requires tmp !in dir.temps
      requires ctx.Some? ==> ctx.value == Context(Abstract(), i, p)
      requires i.sendOk == sendOk && i.saveOk == (fault == NoFault)
      modifies this, dir
      ensures Abstract() == if ctx.None? then old(Abstract()) else Step(old(Abstract()), i, p)
      ensures dir.temps - {tmp} == old(dir.temps)
    {
      if ctx.None? {
        return;
      }
      var c := ctx.value;
      var sigNow, action := Decision(c, p);
      ghost var done := Commit(i, c.filtered, MailOf(c, p));
      var ok: bool;
      match action {
        case NoAction =>
          var next := c.prev;
          next := next.(pending := c.nextPending);
          next := next.(recoveryStreak := c.newStreak);
          ok := dir.SaveState(next, tmp, fault, removable);
        case SendAlert =>
          if !sendOk {
            return;
          }
          outbox := outbox + [Mail(SendAlert, sigNow, c.now)];
          ok := dir.SaveState(State(c.now, sigNow, Alert, c.nextPending, 0), tmp, fault, removable);
        case SendRecovery =>
          if !sendOk {
            return;
          }
          outbox := outbox + [Mail(SendRecovery, "", c.now)];
          ok := dir.SaveState(State(c.now, "", Ok, c.nextPending, 0), tmp, fault, removable);
      }
      if ok {
        commits := commits + [done];
      }
    }

    /** The order of main.go: summarize, prepare, write the report, dispatch. The world moves by one
        `Step`, and the report that is written and mailed shows exactly what fires. */
    method RunOnce(p: Policy, report: InspectReport, now: int, readable: bool, sendOk: bool,
                   tmp: nat, fault: SaveFault, removable: bool)
      requires tmp !in dir.temps
      modifies this, dir, report
      ensures var raw := Extracted(old(report.hosts), old(report.allChecks));
              var i := Input(raw, now, readable, sendOk, fault == NoFault);
              && Abstract() == Step(old(Abstract()), i, p)
              && Extracted(report.hosts, report.allChecks) == Context(old(Abstract()), i, p).filtered
              && Summarizes(report.summary, report.allChecks)
              && report.summary.warn == |Context(old(Abstract()), i, p).filtered|
      ensures var keys := Pass(Extracted(old(report.hosts), old(report.allChecks)),
                               Loaded(old(dir.target), readable).pending, p.n, now).pendingKeys;
              && HostsDemoted(old(report.hosts), report.hosts, keys)
              && RowsDemoted(old(report.allChecks), report.allChecks, old(report.hosts), keys)
      ensures dir.temps - {tmp} == old(dir.temps)
    {
      report.summary := Summarize(report.allChecks);
      ReportSaysWhatTheMailSays(report.hosts, report.allChecks, Loaded(dir.target, readable).pending, p.n, now);
      var ctx, raw := Prepare(true, p, report, readable, now);
      TallySummarizes(report.allChecks);
      Dispatch(ctx, p, sendOk, tmp, fault, removable, Input(raw, now, readable, sendOk, fault == NoFault));
    }
  }
}
