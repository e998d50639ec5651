/** notify/trigger.go: what to do, given the state of the last mail and what fires now. */
module Trigger {
  import opened Clock
  import opened StateFile

  datatype Action = NoAction | SendAlert | SendRecovery

  function Decide(now: int, prev: State, warnCount: nat, sigNow: string, cooldown: int): Action {
    var hasAlerts := warnCount > 0;
    var wasAlert := prev.lastStatus == Alert;
    if !hasAlerts && !wasAlert then NoAction
    else if !hasAlerts && wasAlert then SendRecovery
    else if hasAlerts && !wasAlert then SendAlert
    else if sigNow != prev.lastSignature then SendAlert
    else if Sub(now, prev.lastSentAt) >= cooldown then SendAlert
    else NoAction
  }
}
