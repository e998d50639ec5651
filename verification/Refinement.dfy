/** With N = 1 the program is the older one, without confirmation: the machine below decides on the
    raw list alone, and keeps no counters. */
module Refinement {
  import opened Config
  import opened Notify
  import opened Persistence
  import opened Signatures
  import opened StateFile
  import opened Trigger

  /** The state of the machine without confirmation. */
  datatype PlainState = PlainState(lastSentAt: int, lastSignature: string, lastStatus: Status)

  datatype PlainWorld = PlainWorld(file: PlainState, sent: seq<Mail>)

  const PLAIN_COLD := PlainState(ZERO_TIME, "", Empty)

  function PlainLoaded(s: PlainState, readable: bool): PlainState {
    if readable then s else PLAIN_COLD
  }

  /** `Decide` on the raw list, with recovery mails switched off when they are not wanted. */
  function PlainAction(s: PlainState, i: Input, p: Policy): Action {
    var seen := State(s.lastSentAt, s.lastSignature, s.lastStatus, map[], 0);
    var action := Decide(i.now, seen, |i.raw|, Signature(i.raw, p.digest), p.cooldown);
    if action == SendRecovery && !p.sendRecovery then NoAction else action
  }

  function PlainMail(action: Action, i: Input, p: Policy): Mail {
    Mail(action, if action == SendAlert then Signature(i.raw, p.digest) else "", i.now)
  }

  function PlainNext(s: PlainState, action: Action, i: Input, p: Policy): PlainState {
    match action
    case NoAction => s
    case SendAlert => PlainState(i.now, Signature(i.raw, p.digest), Alert)
    case SendRecovery => PlainState(i.now, "", Ok)
  }

  function PlainStep(w: PlainWorld, i: Input, p: Policy): PlainWorld {
    var s := PlainLoaded(w.file, i.readable);
    var action := PlainAction(s, i, p);
    PlainWorld(
      if i.saveOk && (action == NoAction || i.sendOk) then PlainNext(s, action, i, p) else w.file,
      if action != NoAction && i.sendOk then w.sent + [PlainMail(action, i, p)] else w.sent)
  }

  function PlainRunFrom(w: PlainWorld, inputs: seq<Input>, p: Policy): PlainWorld {
    if inputs == [] then w
    else PlainStep(PlainRunFrom(w, inputs[..|inputs| - 1], p), inputs[|inputs| - 1], p)
  }

  /** What the machine without confirmation sees of a state, and of a world. */
  function Forget(s: State): PlainState {
    PlainState(s.lastSentAt, s.lastSignature, s.lastStatus)
  }

  function ForgetWorld(w: World): PlainWorld {
    PlainWorld(Forget(w.State()), w.sent)
  }

  lemma LoadingCommutes(w: World, readable: bool)
    ensures Forget(Loaded(w.file, readable)) == PlainLoaded(Forget(w.State()), readable)
  {
  }

  /** The states from which the plain machine is followed: all but an alert with a negative streak
      while recovery mails are wanted. Only a file that was edited by hand can hold a negative streak. */
  predicate FollowsPlain(s: State, p: Policy) {
    !(s.lastStatus == Alert && s.recoveryStreak < 0 && p.sendRecovery)
  }

  /** One run with N = 1 from such a state does what the plain machine does, and stays in such a state. */
  lemma PlainStepIsStep(w: World, i: Input, p: Policy)
    requires p.n == 1 && FollowsPlain(w.State(), p)
    ensures Choose(Context(w, i, p), p) == PlainAction(PlainLoaded(ForgetWorld(w).file, i.readable), i, p)
    ensures Context(w, i, p).filtered == i.raw
    ensures ForgetWorld(Step(w, i, p)) == PlainStep(ForgetWorld(w), i, p)
    ensures FollowsPlain(Step(w, i, p).State(), p)
    ensures Commits(w, i, p) ==> Step(w, i, p).State().pending == map[]
  {
    var s := Loaded(w.file, i.readable);
    EveryItemFires(i.raw, s.pending, p.n, i.now);
    LoadingCommutes(w, i.readable);
  }

  /** From any other state a clean run goes wrong: the streak is still too low, and the recovery mail
      is not sent. */
  lemma NegativeStreakBreaksIt(w: World, i: Input, p: Policy)
    requires p.n == 1 && !FollowsPlain(w.State(), p)
    requires i.raw == [] && i.readable
    ensures Choose(Context(w, i, p), p) == NoAction
    ensures PlainAction(PlainLoaded(ForgetWorld(w).file, true), i, p) == SendRecovery
  {
    EveryItemFires(i.raw, w.State().pending, p.n, i.now);
  }

  ghost predicate EveryChoiceIsPlain(w: World, p: Policy) {
    forall i: Input :: Choose(Context(w, i, p), p) == PlainAction(PlainLoaded(ForgetWorld(w).file, i.readable), i, p)
  }

  /** So with N = 1 the next decision is the plain machine's, whatever the run sees, exactly in those
      states. */
  lemma ChoiceIsPlainExactlyWhen(w: World, p: Policy)
    requires p.n == 1
    ensures EveryChoiceIsPlain(w, p) <==> FollowsPlain(w.State(), p)
  {
    if FollowsPlain(w.State(), p) {
      forall i: Input
        ensures Choose(Context(w, i, p), p) == PlainAction(PlainLoaded(ForgetWorld(w).file, i.readable), i, p)
      {
        PlainStepIsStep(w, i, p);
      }
    } else {
      NegativeStreakBreaksIt(w, Input([], ZERO_TIME, true, true, true), p);
    }
  }

  /** Whole runs: from any such world the mails, and all that is remembered of them, are the plain
      machine's; counters are gone after the first commit and never return. */
  lemma {:induction false} NoConfirmationRefinesPlain(w: World, inputs: seq<Input>, p: Policy)
    requires p.n == 1 && FollowsPlain(w.State(), p)
    ensures ForgetWorld(RunFrom(w, inputs, p)) == PlainRunFrom(ForgetWorld(w), inputs, p)
    ensures RunFrom(w, inputs, p).sent == PlainRunFrom(ForgetWorld(w), inputs, p).sent
    ensures var v := RunFrom(w, inputs, p);
            FollowsPlain(v.State(), p) && (v.file == w.file || v.State().pending == map[])
  {
    if inputs != [] {
      var init := inputs[..|inputs| - 1];
      NoConfirmationRefinesPlain(w, init, p);
      PlainStepIsStep(RunFrom(w, init, p), inputs[|inputs| - 1], p);
    }
  }

  /** And so is every decision on the way. */
  lemma EveryActionIsDecideOnRaw(w: World, inputs: seq<Input>, i: Input, p: Policy)
    requires p.n == 1 && FollowsPlain(w.State(), p)
    ensures Choose(Context(RunFrom(w, inputs, p), i, p), p)
         == PlainAction(PlainLoaded(PlainRunFrom(ForgetWorld(w), inputs, p).file, i.readable), i, p)
  {
    NoConfirmationRefinesPlain(w, inputs, p);
    PlainStepIsStep(RunFrom(w, inputs, p), i, p);
  }

  ghost predicate SameMails(w: World, p: Policy) {
    forall inputs: seq<Input> :: RunFrom(w, inputs, p).sent == PlainRunFrom(ForgetWorld(w), inputs, p).sent
  }

  /** The mails of all histories are the plain machine's exactly from those states. */
  lemma MailsArePlainExactlyWhen(w: World, p: Policy)
    requires p.n == 1
    ensures SameMails(w, p) <==> FollowsPlain(w.State(), p)
  {
    if FollowsPlain(w.State(), p) {
      forall inputs: seq<Input>
        ensures RunFrom(w, inputs, p).sent == PlainRunFrom(ForgetWorld(w), inputs, p).sent
      {
        NoConfirmationRefinesPlain(w, inputs, p);
      }
    } else {
      var inputs := [Input([], ZERO_TIME, true, true, true)];
      OneRunDiffers(w, inputs, p);
    }
  }

  lemma OneRunDiffers(w: World, inputs: seq<Input>, p: Policy)
    requires p.n == 1 && !FollowsPlain(w.State(), p)
    requires |inputs| == 1 && inputs[0].raw == [] && inputs[0].readable && inputs[0].sendOk
    ensures RunFrom(w, inputs, p).sent != PlainRunFrom(ForgetWorld(w), inputs, p).sent
  {
    NegativeStreakBreaksIt(w, inputs[0], p);
    assert inputs[..0] == [];
  }
}
