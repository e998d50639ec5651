/** notify/state.go: the state kept between runs, and the file that keeps it. */
module StateFile {

  /** `last_status`; a value the program never writes behaves like `Empty`. */
  datatype Status = Empty | Alert | Ok

  /** A confirmation counter: runs seen so far, and the time of the first of them. */
  datatype PendingItem = PendingItem(count: int, firstSeen: int)

  datatype State = State(
    lastSentAt: int,
    lastSignature: string,
    lastStatus: Status,
    pending: map<string, PendingItem>,
    recoveryStreak: int)

  /** Go's zero `time.Time`: the origin of the time scale. */
  const ZERO_TIME := 0

  /** The state of a first run, and of a run that cannot read the file. */
  const COLD := State(ZERO_TIME, "", Empty, map[], 0)

  /** What a path can hold. `Torn` is text that does not parse: half a write, or damage. */
  datatype Content = Missing | Torn | Holds(state: State)

  /** What `LoadState` makes of the file; `readable` is false when reading it fails. */
  function Loaded(c: Content, readable: bool): State {
    if readable && c.Holds? then c.state else COLD
  }

  /** The step of `SaveState` that fails, if any. */
  datatype SaveFault = NoFault | Mkdir | Marshal | CreateTemp | WriteTemp | Chmod | Close | Rename

  class StateDir {
    var target: Content
    var temps: map<nat, Content>

    constructor ()
      ensures target == Missing && temps == map[]
    {
      target, temps := Missing, map[];
    }

    method LoadState(readable: bool) returns (s: State)
      ensures s == Loaded(target, readable)
      ensures readable && target.Holds? ==> s == target.state
      ensures !readable || !target.Holds? ==> s == State(0, "", Empty, map[], 0)
    {
      if !readable || target == Missing {
        return COLD;
      }
      match target {
        case Holds(state) => s := state;
        case _ => s := COLD;
      }
    }

    /** Either the target holds exactly the new state, or it is untouched. A temporary file stays only
        when the save failed and removing the file failed too; `removable` is false in that case. */
    method SaveState(s: State, tmp: nat, fault: SaveFault, removable: bool) returns (ok: bool)
      requires tmp !in temps
      modifies this
      ensures ok <==> fault == NoFault
      ensures target == if ok then Holds(s) else old(target)
      ensures temps - {tmp} == old(temps)
      ensures ok || removable ==> temps == old(temps)
    {
      if fault == Mkdir || fault == Marshal || fault == CreateTemp {
        return false;
      }
      temps := temps[tmp := Torn];
      if fault == WriteTemp {
        Remove(tmp, removable);
        return false;
      }
      temps := temps[tmp := Holds(s)];
      if fault == Chmod || fault == Close || fault == Rename {
        Remove(tmp, removable);
        return false;
      }
      target, temps := temps[tmp], temps - {tmp};
      return true;
    }

    /** `os.Remove`, whose error is ignored. */
    method Remove(tmp: nat, removable: bool)
      modifies this`temps
      ensures temps == if removable then old(temps) - {tmp} else old(temps)
    {
      if removable {
        temps := temps - {tmp};
      }
    }
  }
}
