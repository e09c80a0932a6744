/** The watchdog's pure decisions (src/thinr/update/watchdog_core.cpp). */
module WatchdogCore {
  import opened Options
  import opened UpdateMarker

  const WATCHDOG_MAX_ATTEMPTS := 3
  const REVERTED_RETRY_COOLDOWN_S := 24 * 60 * 60

  datatype BootAction = CleanStart | ReportRolledBack | Arm | Rollback | ClearNoRevert
  datatype BootDecision = BootDecision(action: BootAction, marker: Marker)

  function DecideBoot(marker: Option<Marker>, running: string): BootDecision {
    if marker.None? || marker.value.phase.NoPhase? then
      BootDecision(CleanStart, BLANK_MARKER)
    else if marker.value.phase.RolledBack? then
      BootDecision(ReportRolledBack, marker.value)
    else if running != marker.value.to then
      BootDecision(ClearNoRevert, marker.value)
    else
      var armed := marker.value.(attempts := marker.value.attempts + 1);
      if armed.attempts > WATCHDOG_MAX_ATTEMPTS then BootDecision(Rollback, armed)
      else BootDecision(Arm, armed)
  }

  datatype RuntimeEvent = ReadyEvent | AuthRejected | AuthTransportError | OtherEvent | DeadlineEvent
  datatype RuntimeAction = Ignore | Confirm | Revert

  function DecideRuntime(ev: RuntimeEvent): RuntimeAction {
    match ev
    case ReadyEvent => Confirm
    case AuthRejected => Revert
    case DeadlineEvent => Revert
    case AuthTransportError => Ignore
    case OtherEvent => Ignore
  }

  predicate SkipRevertedVersion(rev: Reverted, candidate: string, now: int, cooldown: int) {
    if rev.version != candidate then false
    else if rev.reason != "deadline" then true
    else now - rev.at < cooldown
  }
}
