/** lock/lock.go and main.go: overlapping instances, each of which may crash at any step.

    Every instance goes through the atomic steps below; a schedule is any list of them. The main
    result, `InterleavingIsSerial`, says that whatever the schedule, the state file, the committed
    runs and the mails are those of a serial history of the instances in lock order, so every
    statement about histories holds for overlapping instances too. */
module Lock {
  import opened Alerts
  import opened Config
  import opened MailHistory
  import opened Notify
  import opened Persistence
  import opened StateFile
  import opened Trigger

  type Pid = nat

  datatype Acquisition = Acquired | ErrBusy | Unavailable

  /** A non-blocking exclusive `flock`: the first one gets it. */
  function Take(owner: Option<Pid>, pid: Pid): Option<Pid> {
    if owner == None then Some(pid) else owner
  }

  /** Unlocking, or the death of a process: it gives up what it has, and nothing else. */
  function Drop(owner: Option<Pid>, pid: Pid): Option<Pid> {
    if owner == Some(pid) then None else owner
  }

  /** The kernel's `flock` on one sentinel file. */
  class FileLock {
    var owner: Option<Pid>

    constructor ()
      ensures owner == None
    {
      owner := None;
    }

    /** `Acquire`: busy is not an error, and leaves the owner alone; so does a lock file that cannot
        be opened, on which main.go goes on without a lock. */
    method Acquire(pid: Pid, opens: bool, flockWorks: bool) returns (r: Acquisition)
      modifies this
      ensures r == Acquired <==> opens && flockWorks && old(owner) == None
      ensures r == ErrBusy <==> opens && flockWorks && old(owner) != None
      ensures owner == if opens && flockWorks then Take(old(owner), pid) else old(owner)
    {
      if !opens {
        return Unavailable;
      }
      if !flockWorks {
        return Unavailable;
      }
      if owner != None {
        return ErrBusy;
      }
      owner := Some(pid);
      return Acquired;
    }

    /** The closure `Acquire` returns, or the kernel when the process dies. */
    method Release(pid: Pid)
      modifies this
      ensures owner == Drop(old(owner), pid)
    {
      if owner == Some(pid) {
        owner := None;
      }
    }
  }

  /** What a run does once it has loaded the state: send `mail`, if there is one to send, then save `next`. */
  datatype Plan = Plan(sends: bool, mail: Mail, next: State, filtered: seq<AlertItem>)

  /** The plan for a state file, raw warnings, a time, and whether the file can be read. The lock does not
      care what it is: the protocol is proved for every planner. */
  type Planner = (Content, seq<AlertItem>, int, bool) -> Plan

  /** The plan of `Prepare` and `Dispatch`. */
  function PlannerOf(p: Policy): Planner {
    (file: Content, raw: seq<AlertItem>, now: int, readable: bool) =>
      var ctx := Notify.Prepared(raw, Loaded(file, readable), p.n, now);
      Plan(Choose(ctx, p) != NoAction, MailOf(ctx, p), NextState(ctx, p), ctx.filtered)
  }

  /** A run that carries its plan out as far as its flags say. */
  function Outcome(w: World, i: Input, plan: Plan): World {
    var sent := if plan.sends && i.sendOk then w.sent + [plan.mail] else w.sent;
    if i.saveOk && (!plan.sends || i.sendOk)
    then World(Holds(plan.next), w.commits + [Commit(i, plan.filtered, plan.mail)], sent)
    else w.(sent := sent)
  }

  function PlanFor(w: World, i: Input, f: Planner): Plan {
    f(w.file, i.raw, i.now, i.readable)
  }

  /** Runs one after another. */
  function Serial(log: seq<Input>, f: Planner): World {
    if log == [] then START
    else
      var w, i := Serial(log[..|log| - 1], f), log[|log| - 1];
      Outcome(w, i, PlanFor(w, i, f))
  }

  lemma SerialExtends(log: seq<Input>, i: Input, f: Planner)
    ensures Serial(log + [i], f) == Outcome(Serial(log, f), i, PlanFor(Serial(log, f), i, f))
  {
    assert (log + [i])[..|log|] == log;
  }

  lemma OutcomeIsStep(w: World, i: Input, p: Policy)
    ensures Outcome(w, i, PlanFor(w, i, PlannerOf(p))) == Step(w, i, p)
  {
  }

  /** With the plan of `Prepare` and `Dispatch`, that is a history. */
  lemma {:induction false} SerialIsRun(log: seq<Input>, p: Policy)
    ensures Serial(log, PlannerOf(p)) == Run(log, p)
  {
    if log != [] {
      var n := |log| - 1;
      SerialIsRun(log[..n], p);
      OutcomeIsStep(Run(log[..n], p), log[n], p);
    }
  }

  /** Where an instance is. Its input is completed as its steps succeed or fail. */
  datatype Proc =
    | Waiting
    | Locked
    | Prepared(i: Input, plan: Plan)
    | Saving(i: Input, plan: Plan)
    | Closing(i: Input)
    | Gone

  /** The atomic steps: `flock`, collecting and loading, sending, the parts of `SaveState`, unlocking,
      and the death of the process, on which the kernel drops the lock. */
  datatype Event =
    | TryLock
    | Load(raw: seq<AlertItem>, now: int, readable: bool)
    | Send(ok: bool)
    | CreateTempFile
    | WriteTempFile
    | FailSave(removable: bool)
    | RenameTempFile
    | Release
    | Crash

  datatype System = System(
    world: World,
    holder: Option<Pid>,
    procs: map<Pid, Proc>,
    temps: map<Pid, Content>,
    acquired: seq<Pid>,
    owners: seq<Pid>,
    log: seq<Input>)

  const BOOT := System(START, None, map[], map[], [], [], [])

  function ProcOf(s: System, pid: Pid): Proc {
    if pid in s.procs then s.procs[pid] else Waiting
  }

  function At(s: System, pid: Pid, proc: Proc): System {
    s.(procs := s.procs[pid := proc])
  }

  /** The instance ends: a lock it holds is free again, and what it did becomes history. */
  function End(s: System, pid: Pid): System {
    var gone := At(s, pid, Gone).(holder := Drop(s.holder, pid));
    match ProcOf(s, pid)
    case Waiting => gone
    case Gone => s
    case Locked => gone
    case Prepared(i, _) => gone.(log := s.log + [i], owners := s.owners + [pid])
    case Saving(i, _) => gone.(log := s.log + [i], owners := s.owners + [pid])
    case Closing(i) => gone.(log := s.log + [i], owners := s.owners + [pid])
  }

  /** One event; an event that is not enabled changes nothing. */
  function Next(s: System, pid: Pid, e: Event, f: Planner): System {
    match (ProcOf(s, pid), e)
    case (Waiting, TryLock) =>
      if s.holder == None
      then At(s, pid, Locked).(holder := Take(s.holder, pid), acquired := s.acquired + [pid])
      else At(s, pid, Gone)
    case (Locked, Load(raw, now, readable)) =>
      At(s, pid, Prepared(Input(raw, now, readable, false, false), f(s.world.file, raw, now, readable)))
    case (Prepared(i, plan), Send(ok)) =>
      if !plan.sends then At(s, pid, Saving(i.(sendOk := ok), plan))
      else if ok then
        At(s, pid, Saving(i.(sendOk := true), plan)).(world := s.world.(sent := s.world.sent + [plan.mail]))
      else At(s, pid, Closing(i))
    case (Saving(_, _), CreateTempFile) => s.(temps := s.temps[pid := Torn])
    case (Saving(i, plan), WriteTempFile) =>
      if pid in s.temps then s.(temps := s.temps[pid := Holds(plan.next)]) else s
    case (Saving(i, _), FailSave(removable)) =>
      At(s, pid, Closing(i)).(temps := if removable then s.temps - {pid} else s.temps)
    case (Saving(i, plan), RenameTempFile) =>
      if pid in s.temps && s.temps[pid].Holds? then
        var done := i.(saveOk := true);
        var commits := s.world.commits + [Commit(done, plan.filtered, plan.mail)];
        At(s, pid, Closing(done)).(
          temps := s.temps - {pid}, world := s.world.(file := s.temps[pid], commits := commits))
      else s
    case (_, Crash) => End(s, pid)
    case (Locked, Release) => End(s, pid)
    case (Closing(_), Release) => End(s, pid)
    case _ => s
  }

  function Exec(schedule: seq<(Pid, Event)>, f: Planner): System {
    if schedule == [] then BOOT
    else
      var last := schedule[|schedule| - 1];
      Next(Exec(schedule[..|schedule| - 1], f), last.0, last.1, f)
  }

  /** Between taking the lock and dropping it. */
  predicate Inside(proc: Proc) {
    proc.Locked? || proc.Prepared? || proc.Saving? || proc.Closing?
  }

  /** Exactly the holder is inside. */
  ghost predicate MutualExclusion(s: System) {
    forall pid: Pid :: Inside(ProcOf(s, pid)) <==> s.holder == Some(pid)
  }

  /** A log, with what the instance inside did up to now. */
  function Extended(log: seq<Input>, proc: Proc): seq<Input> {
    match proc
    case Prepared(i, _) => log + [i]
    case Saving(i, _) => log + [i]
    case Closing(i) => log + [i]
    case _ => log
  }

  /** The history so far: the instances that ended, and the one inside. */
  function History(s: System): seq<Input> {
    if s.holder == None then s.log else Extended(s.log, ProcOf(s, s.holder.value))
  }

  function TempOf(s: System, pid: Pid): Content {
    if pid in s.temps then s.temps[pid] else Missing
  }

  /** The instance inside, its temporary file and the world agree with the history. */
  ghost predicate Good(log: seq<Input>, proc: Proc, temp: Content, world: World, f: Planner) {
    var before := Serial(log, f);
    match proc
    case Prepared(i, plan) =>
      && plan == PlanFor(before, i, f) && !i.sendOk && !i.saveOk
      && world == before && temp == Missing
    case Saving(i, plan) =>
      && plan == PlanFor(before, i, f) && !i.saveOk && (!plan.sends || i.sendOk)
      && world == Outcome(before, i, plan) && (temp.Holds? ==> temp.state == plan.next)
    case Closing(i) => world == Outcome(before, i, PlanFor(before, i, f))
    case _ => world == before
  }

  /** An instance that never got to save has no temporary file. */
  ghost predicate TempsAreOwn(s: System) {
    forall pid: Pid :: pid in s.temps ==> ProcOf(s, pid).Saving? || ProcOf(s, pid).Closing? || ProcOf(s, pid).Gone?
  }

  /** The log lists instances in the order in which they got the lock. */
  ghost predicate InLockOrder(s: System) {
    && |s.owners| == |s.log|
    && match s.holder
       case None => Subsequence(s.owners, s.acquired)
       case Some(h) =>
         && s.acquired != [] && s.acquired[|s.acquired| - 1] == h
         && Subsequence(s.owners, s.acquired[..|s.acquired| - 1])
  }

  ghost predicate Inv(s: System, f: Planner) {
    && MutualExclusion(s)
    && TempsAreOwn(s)
    && !s.world.file.Torn?
    && match s.holder
       case None => s.world == Serial(s.log, f)
       case Some(h) => Good(s.log, ProcOf(s, h), TempOf(s, h), s.world, f)
  }

  /** Who is inside, and whose temporary files there are. */
  lemma NextKeepsExclusion(s: System, pid: Pid, e: Event, f: Planner)
    requires MutualExclusion(s) && TempsAreOwn(s)
    ensures MutualExclusion(Next(s, pid, e, f)) && TempsAreOwn(Next(s, pid, e, f))
  {
  }

  /** What is to be kept by a step of the holder. */
  ghost predicate HolderStays(s: System, t: System, pid: Pid, f: Planner) {
    && t.holder == s.holder && t.log == s.log && !t.world.file.Torn?
    && Good(t.log, ProcOf(t, pid), TempOf(t, pid), t.world, f)
  }

  /** The holder loads, ... */
  lemma LoadKeepsInv(s: System, pid: Pid, e: Event, f: Planner)
    requires Inv(s, f) && s.holder == Some(pid) && ProcOf(s, pid).Locked? && e.Load?
    ensures HolderStays(s, Next(s, pid, e, f), pid, f)
  {
  }

  /** ... sends, ... */
  lemma SendKeepsInv(s: System, pid: Pid, e: Event, f: Planner)
    requires Inv(s, f) && s.holder == Some(pid) && ProcOf(s, pid).Prepared? && e.Send?
    ensures HolderStays(s, Next(s, pid, e, f), pid, f)
  {
  }

  /** ... and saves. */
  lemma SaveKeepsInv(s: System, pid: Pid, e: Event, f: Planner)
    requires Inv(s, f) && s.holder == Some(pid) && ProcOf(s, pid).Saving? && e != Crash
    ensures HolderStays(s, Next(s, pid, e, f), pid, f)
  {
  }

  lemma InsideKeepsInv(s: System, pid: Pid, e: Event, f: Planner)
    requires Inv(s, f) && s.holder == Some(pid) && e != Crash && e != Release
    ensures HolderStays(s, Next(s, pid, e, f), pid, f)
  {
    assert Inside(ProcOf(s, pid));
    if ProcOf(s, pid).Locked? && e.Load? {
      LoadKeepsInv(s, pid, e, f);
    } else if ProcOf(s, pid).Prepared? && e.Send? {
      SendKeepsInv(s, pid, e, f);
    } else if ProcOf(s, pid).Saving? {
      SaveKeepsInv(s, pid, e, f);
    }
  }

  /** The holder leaves: its run becomes history as it stands. */
  lemma LeavingKeepsInv(s: System, pid: Pid, f: Planner)
    requires Inv(s, f) && s.holder == Some(pid)
    ensures var t := End(s, pid);
            t.holder == None && t.world == s.world && t.world == Serial(t.log, f)
  {
    assert Inside(ProcOf(s, pid));
    var proc := ProcOf(s, pid);
    if !proc.Locked? {
      SerialExtends(s.log, proc.i, f);
    }
  }

  /** An instance that is not inside touches nothing that is. */
  lemma OutsideKeepsInv(s: System, pid: Pid, e: Event, f: Planner)
    requires Inv(s, f) && s.holder != Some(pid)
    ensures var t := Next(s, pid, e, f);
            && t.world == s.world && t.log == s.log
            && match t.holder
               case None => t.world == Serial(t.log, f)
               case Some(h) => Good(t.log, ProcOf(t, h), TempOf(t, h), t.world, f)
  {
    assert !Inside(ProcOf(s, pid));
  }

  lemma NextKeepsInv(s: System, pid: Pid, e: Event, f: Planner)
    requires Inv(s, f)
    ensures Inv(Next(s, pid, e, f), f)
  {
    NextKeepsExclusion(s, pid, e, f);
    if s.holder != Some(pid) {
      OutsideKeepsInv(s, pid, e, f);
    } else if e == Crash || e == Release {
      LeavingKeepsInv(s, pid, f);
    } else {
      InsideKeepsInv(s, pid, e, f);
    }
  }

  lemma NextKeepsOrder(s: System, pid: Pid, e: Event, f: Planner)
    requires MutualExclusion(s) && InLockOrder(s)
    ensures InLockOrder(Next(s, pid, e, f))
  {
    var t := Next(s, pid, e, f);
    if t.acquired != s.acquired {
      assert t.acquired[..|t.acquired| - 1] == s.acquired;
    } else if t.holder != s.holder {
      assert s.owners == (s.owners + [pid])[..|s.owners|];
    }
  }

  lemma InvMeansSerial(s: System, f: Planner)
    requires Inv(s, f)
    ensures s.world == Serial(History(s), f)
  {
    if s.holder.Some? && !ProcOf(s, s.holder.value).Locked? {
      SerialExtends(s.log, ProcOf(s, s.holder.value).i, f);
    }
  }

  lemma {:induction false} InvAlways(schedule: seq<(Pid, Event)>, f: Planner)
    ensures Inv(Exec(schedule, f), f) && InLockOrder(Exec(schedule, f))
  {
    if schedule != [] {
      var n := |schedule| - 1;
      InvAlways(schedule[..n], f);
      NextKeepsInv(Exec(schedule[..n], f), schedule[n].0, schedule[n].1, f);
      NextKeepsOrder(Exec(schedule[..n], f), schedule[n].0, schedule[n].1, f);
    }
  }

  /** Any interleaving of any number of instances, crashes included, is serial: the state file, the
      committed runs and the mails are those of the instances one after another in lock order, at most
      one instance is inside, and the state file is never half written. This holds whatever the plans
      of the instances are, ... */
  lemma AnyPlanIsSerial(schedule: seq<(Pid, Event)>, f: Planner)
    ensures var s := Exec(schedule, f);
            && s.world == Serial(History(s), f)
            && !s.world.file.Torn?
            && MutualExclusion(s)
            && InLockOrder(s)
  {
    InvAlways(schedule, f);
    InvMeansSerial(Exec(schedule, f), f);
  }

  /** ... and for instances that plan as the program does, the serial world is that of a history. */
  lemma InterleavingIsSerial(schedule: seq<(Pid, Event)>, p: Policy)
    ensures var s := Exec(schedule, PlannerOf(p));
            && s.world == Run(History(s), p)
            && !s.world.file.Torn?
            && MutualExclusion(s)
            && InLockOrder(s)
  {
    AnyPlanIsSerial(schedule, PlannerOf(p));
    SerialIsRun(History(Exec(schedule, PlannerOf(p))), p);
  }

  // ---- what an undisturbed instance does ----

  /** Several steps, one after another. */
  function Fold<S, E>(s: S, es: seq<E>, step: (S, E) -> S): S {
    if es == [] then s else step(Fold(s, es[..|es| - 1], step), es[|es| - 1])
  }

  lemma FoldExtends<S, E>(s: S, es: seq<E>, e: E, step: (S, E) -> S)
    ensures Fold(s, es + [e], step) == step(Fold(s, es, step), e)
  {
    assert (es + [e])[..|es|] == es;
  }

  lemma FoldFour<S, E>(s: S, a: E, b: E, c: E, d: E, step: (S, E) -> S)
    ensures Fold(s, [a, b, c, d], step) == step(step(step(step(s, a), b), c), d)
  {
    FoldExtends(s, [], a, step);
    FoldExtends(s, [a], b, step);
    FoldExtends(s, [a, b], c, step);
    FoldExtends(s, [a, b, c], d, step);
    assert [] + [a] == [a] && [a] + [b] == [a, b] && [a, b] + [c] == [a, b, c] && [a, b, c] + [d] == [a, b, c, d];
  }

  lemma FoldSeven<S, E>(s: S, a: E, b: E, c: E, d: E, x: E, y: E, z: E, step: (S, E) -> S)
    ensures Fold(s, [a, b, c, d, x, y, z], step) == step(step(step(step(step(step(step(s, a), b), c), d), x), y), z)
  {
    FoldFour(s, a, b, c, d, step);
    FoldExtends(s, [a, b, c, d], x, step);
    FoldExtends(s, [a, b, c, d, x], y, step);
    FoldExtends(s, [a, b, c, d, x, y], z, step);
    assert [a, b, c, d] + [x] == [a, b, c, d, x] && [a, b, c, d, x] + [y] == [a, b, c, d, x, y];
    assert [a, b, c, d, x, y] + [z] == [a, b, c, d, x, y, z];
  }

  function StepOf(pid: Pid, f: Planner): (System, Event) -> System {
    (t: System, e: Event) => Next(t, pid, e, f)
  }

  /** Several events of one instance, one after another. */
  function Events(s: System, pid: Pid, es: seq<Event>, f: Planner): System {
    Fold(s, es, StepOf(pid, f))
  }

  /** Up to where the instance is ready to save, or done because its mail was not sent. */
  lemma LoadsAndSends(s: System, pid: Pid, raw: seq<AlertItem>, now: int, readable: bool, ok: bool, f: Planner)
    requires Free(s, pid)
    ensures var t := Next(Next(Next(s, pid, TryLock, f), pid, Load(raw, now, readable), f), pid, Send(ok), f);
            var plan := f(s.world.file, raw, now, readable);
            var i := Input(raw, now, readable, ok, false);
            && t.procs == s.procs[pid := if ok || !plan.sends then Saving(i, plan) else Closing(i)]
            && t == s.(procs := t.procs, holder := Some(pid), acquired := s.acquired + [pid],
                       world := s.world.(sent := if plan.sends && ok then s.world.sent + [plan.mail] else s.world.sent))
  {
  }

  /** The instance can start at once. */
  predicate Free(s: System, pid: Pid) {
    s.holder == None && ProcOf(s, pid) == Waiting && pid !in s.temps
  }

  /** The lock is free again, and of the instances only this one has changed: it is gone and leaves no file. */
  predicate HasLeft(s: System, t: System, pid: Pid) {
    && t.holder == None && t.temps == s.temps && t.procs == s.procs[pid := Gone]
    && t.acquired == s.acquired + [pid] && t.owners == s.owners + [pid]
  }

  /** From there, a save that succeeds: the temporary file takes the place of the state file. */
  lemma Saves(s: System, pid: Pid, i: Input, plan: Plan, f: Planner)
    requires ProcOf(s, pid) == Saving(i, plan) && pid !in s.temps && s.holder == Some(pid)
    ensures var c := Next(s, pid, CreateTempFile, f);
            var t := Next(Next(Next(c, pid, WriteTempFile, f), pid, RenameTempFile, f), pid, Release, f);
            var done := i.(saveOk := true);
            var commits := s.world.commits + [Commit(done, plan.filtered, plan.mail)];
            && t.world == World(Holds(plan.next), commits, s.world.sent)
            && t.log == s.log + [done] && t.owners == s.owners + [pid] && t.acquired == s.acquired
            && t.holder == None && t.temps == s.temps && t.procs == s.procs[pid := Gone]
  {
    var w := Next(Next(s, pid, CreateTempFile, f), pid, WriteTempFile, f);
    assert w == s.(temps := s.temps[pid := Holds(plan.next)]) by {
      assert s.temps[pid := Torn][pid := Holds(plan.next)] == s.temps[pid := Holds(plan.next)];
    }
    assert w.temps - {pid} == s.temps;
  }

  /** An instance that gets through all its steps: the state file is replaced by the planned state, the run is
      committed, and the mail is sent if the plan asks for one. */
  lemma CompletedRunIsCommitted(
      s: System, pid: Pid, raw: seq<AlertItem>, now: int, readable: bool, ok: bool, f: Planner)
    requires Free(s, pid) && (ok || !f(s.world.file, raw, now, readable).sends)
    ensures var es := [TryLock, Load(raw, now, readable), Send(ok), CreateTempFile, WriteTempFile, RenameTempFile,
                       Release];
            var t, plan := Events(s, pid, es, f), f(s.world.file, raw, now, readable);
            var i := Input(raw, now, readable, ok, true);
            && t.world.file == Holds(plan.next)
            && t.world.sent == (if plan.sends then s.world.sent + [plan.mail] else s.world.sent)
            && t.world.commits == s.world.commits + [Commit(i, plan.filtered, plan.mail)]
            && t.log == s.log + [i] && HasLeft(s, t, pid)
  {
    var load := Load(raw, now, readable);
    FoldSeven(s, TryLock, load, Send(ok), CreateTempFile, WriteTempFile, RenameTempFile, Release, StepOf(pid, f));
    LoadsAndSends(s, pid, raw, now, readable, ok, f);
    var u := Next(Next(Next(s, pid, TryLock, f), pid, load, f), pid, Send(ok), f);
    Saves(u, pid, Input(raw, now, readable, ok, false), f(s.world.file, raw, now, readable), f);
    assert u.procs[pid := Gone] == s.procs[pid := Gone];
  }

  /** A save that fails before the rename, and removes its temporary file. */
  lemma FailsToSave(s: System, pid: Pid, i: Input, plan: Plan, f: Planner)
    requires ProcOf(s, pid) == Saving(i, plan) && pid !in s.temps && s.holder == Some(pid)
    ensures var c := Next(s, pid, CreateTempFile, f);
            var t := Next(Next(Next(c, pid, WriteTempFile, f), pid, FailSave(true), f), pid, Release, f);
            && t.world == s.world
            && t.log == s.log + [i] && t.owners == s.owners + [pid] && t.acquired == s.acquired
            && t.holder == None && t.temps == s.temps && t.procs == s.procs[pid := Gone]
  {
    var w := Next(Next(s, pid, CreateTempFile, f), pid, WriteTempFile, f);
    assert w == s.(temps := s.temps[pid := Holds(plan.next)]) by {
      assert s.temps[pid := Torn][pid := Holds(plan.next)] == s.temps[pid := Holds(plan.next)];
    }
    assert w.temps - {pid} == s.temps;
  }

  /** An instance whose mail is sent but whose save fails leaves neither a new state nor a temporary file. */
  lemma UnsavedRunKeepsTheFile(s: System, pid: Pid, raw: seq<AlertItem>, now: int, readable: bool, ok: bool, f: Planner)
    requires Free(s, pid) && (ok || !f(s.world.file, raw, now, readable).sends)
    ensures var es := [TryLock, Load(raw, now, readable), Send(ok), CreateTempFile, WriteTempFile, FailSave(true),
                       Release];
            var t, plan := Events(s, pid, es, f), f(s.world.file, raw, now, readable);
            && t.world == s.world.(sent := if plan.sends then s.world.sent + [plan.mail] else s.world.sent)
            && t.log == s.log + [Input(raw, now, readable, ok, false)] && HasLeft(s, t, pid)
  {
    var load := Load(raw, now, readable);
    FoldSeven(s, TryLock, load, Send(ok), CreateTempFile, WriteTempFile, FailSave(true), Release, StepOf(pid, f));
    LoadsAndSends(s, pid, raw, now, readable, ok, f);
    var u := Next(Next(Next(s, pid, TryLock, f), pid, load, f), pid, Send(ok), f);
    FailsToSave(u, pid, Input(raw, now, readable, ok, false), f(s.world.file, raw, now, readable), f);
    assert u.procs[pid := Gone] == s.procs[pid := Gone];
  }

  /** An instance whose mail cannot be sent ends without saving. */
  lemma UnsentRunChangesNothing(s: System, pid: Pid, raw: seq<AlertItem>, now: int, readable: bool, f: Planner)
    requires Free(s, pid) && f(s.world.file, raw, now, readable).sends
    ensures var t := Events(s, pid, [TryLock, Load(raw, now, readable), Send(false), Release], f);
            && t.world == s.world
            && t.log == s.log + [Input(raw, now, readable, false, false)] && HasLeft(s, t, pid)
  {
    FoldFour(s, TryLock, Load(raw, now, readable), Send(false), Release, StepOf(pid, f));
    LoadsAndSends(s, pid, raw, now, readable, false, f);
  }

  /** An instance that finds the lock taken is gone, and nobody else notices. */
  lemma BusyIsGone(s: System, pid: Pid, f: Planner)
    requires s.holder != None && ProcOf(s, pid) == Waiting
    ensures Next(s, pid, TryLock, f) == s.(procs := s.procs[pid := Gone])
  {
  }

  /** A process that dies, or cannot remove its temporary file, leaves all files as they are. */
  lemma WhatStaysBehind(s: System, pid: Pid, f: Planner)
    ensures var t := Next(s, pid, Crash, f);
            t.world == s.world && t.temps == s.temps && ProcOf(t, pid) == Gone
    ensures ProcOf(s, pid).Saving? ==>
              Next(s, pid, FailSave(false), f) == s.(procs := s.procs[pid := Closing(ProcOf(s, pid).i)])
  {
    assert ProcOf(s, pid).Gone? ==> End(s, pid) == s;
  }

  /** The events of an undisturbed instance with the given input. */
  function Turn(i: Input, plan: Plan): seq<Event> {
    [TryLock, Load(i.raw, i.now, i.readable), Send(i.sendOk)] + (
      if plan.sends && !i.sendOk then [Release]
      else [CreateTempFile, WriteTempFile, if i.saveOk then RenameTempFile else FailSave(true), Release])
  }

  lemma TurnIsOutcome(s: System, pid: Pid, i: Input, f: Planner)
    requires Free(s, pid)
    ensures var plan := PlanFor(s.world, i, f);
            var t := Events(s, pid, Turn(i, plan), f);
            t.world == Outcome(s.world, i, plan) && HasLeft(s, t, pid)
  {
    var plan := PlanFor(s.world, i, f);
    if plan.sends && !i.sendOk {
      UnsentRunChangesNothing(s, pid, i.raw, i.now, i.readable, f);
      assert Turn(i, plan) == [TryLock, Load(i.raw, i.now, i.readable), Send(false), Release];
    } else if i.saveOk {
      CompletedRunIsCommitted(s, pid, i.raw, i.now, i.readable, i.sendOk, f);
      assert Turn(i, plan) == [TryLock, Load(i.raw, i.now, i.readable), Send(i.sendOk), CreateTempFile, WriteTempFile,
                               RenameTempFile, Release];
    } else {
      UnsavedRunKeepsTheFile(s, pid, i.raw, i.now, i.readable, i.sendOk, f);
      assert Turn(i, plan) == [TryLock, Load(i.raw, i.now, i.readable), Send(i.sendOk), CreateTempFile, WriteTempFile,
                               FailSave(true), Release];
    }
  }

  /** One instance's events as a schedule. */
  function ByOne(pid: Pid, es: seq<Event>): seq<(Pid, Event)> {
    seq(|es|, k requires 0 <= k < |es| => (pid, es[k]))
  }

  lemma {:induction false} ExecByOne(schedule: seq<(Pid, Event)>, pid: Pid, es: seq<Event>, f: Planner)
    ensures Exec(schedule + ByOne(pid, es), f) == Events(Exec(schedule, f), pid, es, f)
  {
    if es == [] {
      assert schedule + ByOne(pid, es) == schedule;
    } else {
      var init, e := es[..|es| - 1], es[|es| - 1];
      ExecByOne(schedule, pid, init, f);
      ExecStep(schedule + ByOne(pid, init), pid, e, f);
      assert schedule + ByOne(pid, es) == schedule + ByOne(pid, init) + [(pid, e)];
    }
  }

  /** The instances one after another, each undisturbed, the k-th with process id k. */
  function InTurn(log: seq<Input>, f: Planner): seq<(Pid, Event)> {
    if log == [] then []
    else
      var n := |log| - 1;
      InTurn(log[..n], f) + ByOne(n, Turn(log[n], PlanFor(Serial(log[..n], f), log[n], f)))
  }

  /** The lock is free, and the process ids from n on are unused. */
  ghost predicate UnusedFrom(s: System, n: nat) {
    s.holder == None && forall q: Pid :: q >= n ==> q !in s.procs && q !in s.temps
  }

  /** Every history happens: whatever the log, some schedule leaves the state file, the commits and the mails
      of the runs one after another. With `AnyPlanIsSerial`, the worlds schedules leave are the serial ones. */
  lemma {:induction false} EveryLogIsReached(log: seq<Input>, f: Planner)
    ensures Exec(InTurn(log, f), f).world == Serial(log, f)
    ensures UnusedFrom(Exec(InTurn(log, f), f), |log|)
  {
    if log != [] {
      var n := |log| - 1;
      EveryLogIsReached(log[..n], f);
      var s, turn := Exec(InTurn(log[..n], f), f), Turn(log[n], PlanFor(Serial(log[..n], f), log[n], f));
      TurnIsOutcome(s, n, log[n], f);
      ExecByOne(InTurn(log[..n], f), n, turn, f);
    }
  }

  /** The state files, commits and mails that schedules leave are exactly those of serial logs. */
  lemma ReachedExactlyWhenSerial(w: World, f: Planner)
    ensures (exists schedule :: Exec(schedule, f).world == w) <==> (exists log :: Serial(log, f) == w)
  {
    if schedule :| Exec(schedule, f).world == w {
      AnyPlanIsSerial(schedule, f);
      assert Serial(History(Exec(schedule, f)), f) == w;
    }
    if log :| Serial(log, f) == w {
      EveryLogIsReached(log, f);
      assert Exec(InTurn(log, f), f).world == w;
    }
  }

  /** Does the event end the instance? */
  predicate Ends(proc: Proc, e: Event) {
    e.Crash? || (e.Release? && (proc.Locked? || proc.Closing?))
  }

  /** The holder changes like the owner of a `FileLock`: `TryLock` takes it as `Acquire` does, the end of
      an instance drops it as `Release` does, and no other step touches it. */
  lemma HolderIsAFileLock(s: System, pid: Pid, e: Event, f: Planner)
    requires MutualExclusion(s)
    ensures var t, proc := Next(s, pid, e, f), ProcOf(s, pid);
            if proc.Waiting? && e.TryLock? then
              t.holder == Take(s.holder, pid) && (ProcOf(t, pid).Locked? <==> t.holder == Some(pid))
            else if Ends(proc, e) then
              t.holder == Drop(s.holder, pid) && ProcOf(t, pid).Gone?
            else t.holder == s.holder
  {
    assert Inside(ProcOf(s, pid)) <==> s.holder == Some(pid);
  }

  /** One event of the system, with the lock itself: the owner of the `FileLock` is the holder. */
  method Execute(lock: FileLock, s: System, pid: Pid, e: Event, f: Planner) returns (t: System)
    requires MutualExclusion(s) && lock.owner == s.holder
    modifies lock
    ensures t == Next(s, pid, e, f) && lock.owner == t.holder
  {
    HolderIsAFileLock(s, pid, e, f);
    var proc := ProcOf(s, pid);
    if proc.Waiting? && e.TryLock? {
      var r := lock.Acquire(pid, true, true);
      if r == Acquired {
        t := At(s, pid, Locked).(holder := lock.owner, acquired := s.acquired + [pid]);
      } else {
        t := At(s, pid, Gone);
      }
    } else {
      if Ends(proc, e) {
        lock.Release(pid);
      }
      t := Next(s, pid, e, f);
    }
  }

  /** A whole schedule on one lock. */
  method ExecuteAll(schedule: seq<(Pid, Event)>, f: Planner) returns (lock: FileLock, s: System)
    ensures s == Exec(schedule, f) && lock.owner == s.holder && fresh(lock)
  {
    lock := new FileLock();
    s := BOOT;
    for k := 0 to |schedule|
      invariant s == Exec(schedule[..k], f) && lock.owner == s.holder && fresh(lock)
    {
      InvAlways(schedule[..k], f);
      ExecStep(schedule[..k], schedule[k].0, schedule[k].1, f);
      assert schedule[..k + 1] == schedule[..k] + [(schedule[k].0, schedule[k].1)];
      s := Execute(lock, s, schedule[k].0, schedule[k].1, f);
    }
    assert schedule[..|schedule|] == schedule;
  }

  // ---- busy instances ----

  /** The schedule without the events of one instance. */
  function Without(schedule: seq<(Pid, Event)>, pid: Pid): seq<(Pid, Event)> {
    if schedule == [] then []
    else
      var n := |schedule| - 1;
      Without(schedule[..n], pid) + (if schedule[n].0 == pid then [] else [schedule[n]])
  }

  /** The instance has not got the lock. */
  predicate Spectator(s: System, pid: Pid) {
    (ProcOf(s, pid).Waiting? || ProcOf(s, pid).Gone?) && s.holder != Some(pid)
  }

  /** What is not private to one instance: files, mails, lock and history. */
  function Shared(s: System): System {
    s.(procs := map[])
  }

  /** The same system as far as every other instance can see. */
  ghost predicate SameForOthers(s: System, t: System, pid: Pid) {
    && Shared(s) == Shared(t)
    && forall q: Pid :: q != pid ==> ProcOf(s, q) == ProcOf(t, q)
  }

  lemma SpectatorStep(s: System, pid: Pid, e: Event, f: Planner)
    requires Spectator(s, pid) && pid !in Next(s, pid, e, f).acquired
    ensures Spectator(Next(s, pid, e, f), pid) && SameForOthers(s, Next(s, pid, e, f), pid)
  {
    assert pid in s.acquired + [pid];
  }

  /** A step moves one instance only. */
  lemma OthersStay(s: System, q: Pid, e: Event, f: Planner, r: Pid)
    requires r != q
    ensures ProcOf(Next(s, q, e, f), r) == ProcOf(s, r)
  {
  }

  lemma EndIsLocal(s: System, t: System, q: Pid)
    requires Shared(s) == Shared(t) && ProcOf(s, q) == ProcOf(t, q)
    ensures Shared(End(s, q)) == Shared(End(t, q)) && ProcOf(End(s, q), q) == ProcOf(End(t, q), q)
    ensures End(s, q).holder == s.holder || End(s, q).holder == None
  {
  }

  /** A step depends only on what is shared and on its own instance. */
  lemma StepIsLocal(s: System, t: System, q: Pid, e: Event, f: Planner)
    requires Shared(s) == Shared(t) && ProcOf(s, q) == ProcOf(t, q)
    ensures var s', t' := Next(s, q, e, f), Next(t, q, e, f);
            && Shared(s') == Shared(t') && ProcOf(s', q) == ProcOf(t', q)
            && (s'.holder == s.holder || s'.holder == Some(q) || s'.holder == None)
  {
    if Ends(ProcOf(s, q), e) {
      EndIsLocal(s, t, q);
    } else if ProcOf(s, q).Saving? {
      SavingIsLocal(s, t, q, e, f);
    } else if ProcOf(s, q).Prepared? {
      SendingIsLocal(s, t, q, e, f);
    } else {
      LoadingIsLocal(s, t, q, e, f);
    }
  }

  lemma SavingIsLocal(s: System, t: System, q: Pid, e: Event, f: Planner)
    requires Shared(s) == Shared(t) && ProcOf(s, q) == ProcOf(t, q)
    requires ProcOf(s, q).Saving? && !Ends(ProcOf(s, q), e)
    ensures var s', t' := Next(s, q, e, f), Next(t, q, e, f);
            && Shared(s') == Shared(t') && ProcOf(s', q) == ProcOf(t', q)
            && (s'.holder == s.holder || s'.holder == Some(q))
  {
  }

  lemma SendingIsLocal(s: System, t: System, q: Pid, e: Event, f: Planner)
    requires Shared(s) == Shared(t) && ProcOf(s, q) == ProcOf(t, q)
    requires ProcOf(s, q).Prepared? && !Ends(ProcOf(s, q), e)
    ensures var s', t' := Next(s, q, e, f), Next(t, q, e, f);
            && Shared(s') == Shared(t') && ProcOf(s', q) == ProcOf(t', q)
            && (s'.holder == s.holder || s'.holder == Some(q))
  {
  }

  lemma LoadingIsLocal(s: System, t: System, q: Pid, e: Event, f: Planner)
    requires Shared(s) == Shared(t) && ProcOf(s, q) == ProcOf(t, q)
    requires !ProcOf(s, q).Saving? && !ProcOf(s, q).Prepared? && !Ends(ProcOf(s, q), e)
    ensures var s', t' := Next(s, q, e, f), Next(t, q, e, f);
            && Shared(s') == Shared(t') && ProcOf(s', q) == ProcOf(t', q)
            && (s'.holder == s.holder || s'.holder == Some(q))
  {
  }

  lemma OtherStep(s: System, t: System, pid: Pid, q: Pid, e: Event, f: Planner)
    requires q != pid && SameForOthers(s, t, pid) && Spectator(s, pid)
    ensures SameForOthers(Next(s, q, e, f), Next(t, q, e, f), pid)
    ensures Spectator(Next(s, q, e, f), pid)
  {
    StepIsLocal(s, t, q, e, f);
    OthersStay(s, q, e, f, pid);
    forall r: Pid | r != pid
      ensures ProcOf(Next(s, q, e, f), r) == ProcOf(Next(t, q, e, f), r)
    {
      if r != q {
        OthersStay(s, q, e, f, r);
        OthersStay(t, q, e, f, r);
      }
    }
  }

  lemma AcquiredGrows(s: System, pid: Pid, e: Event, f: Planner)
    ensures s.acquired <= Next(s, pid, e, f).acquired
  {
  }

  lemma ExecStep(schedule: seq<(Pid, Event)>, q: Pid, e: Event, f: Planner)
    ensures Exec(schedule + [(q, e)], f) == Next(Exec(schedule, f), q, e, f)
  {
    assert (schedule + [(q, e)])[..|schedule|] == schedule;
  }

  /** Busy instances are skipped without a trace: for an instance that never gets the lock, the run of
      the system is the one without that instance. */
  lemma {:induction false} BusyLeavesNoTrace(schedule: seq<(Pid, Event)>, pid: Pid, f: Planner)
    requires pid !in Exec(schedule, f).acquired
    ensures SameForOthers(Exec(schedule, f), Exec(Without(schedule, pid), f), pid)
    ensures Spectator(Exec(schedule, f), pid)
  {
    if schedule != [] {
      var n := |schedule| - 1;
      var init, q, e := schedule[..n], schedule[n].0, schedule[n].1;
      AcquiredGrows(Exec(init, f), q, e, f);
      BusyLeavesNoTrace(init, pid, f);
      if q == pid {
        SpectatorStep(Exec(init, f), pid, e, f);
        assert Without(schedule, pid) == Without(init, pid) + [] == Without(init, pid);
      } else {
        OtherStep(Exec(init, f), Exec(Without(init, pid), f), pid, q, e, f);
        ExecStep(Without(init, pid), q, e, f);
        assert schedule[n] == (q, e);
      }
    }
  }

  /** So overlapping and crashing instances cannot make the state run ahead of the mail either. */
  lemma StateNeverRunsAheadOfMailWhenOverlapping(schedule: seq<(Pid, Event)>, p: Policy)
    requires p.Valid()
    ensures Truthful(Exec(schedule, PlannerOf(p)).world)
  {
    InterleavingIsSerial(schedule, p);
    StateNeverRunsAheadOfMail(History(Exec(schedule, PlannerOf(p))), p);
  }
}
