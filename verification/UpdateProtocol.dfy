/** The update and rollback protocol as a machine whose steps are the single
    file operations and critical sections of
    src/thinr/extensions/updater.cpp, src/thinr/runtime/update_watchdog.cpp and
    src/thinr/runtime/update_poller.cpp.

    A thread is a program counter; `ThreadStep` advances it by one atomic action.
    `Next` adds what surrounds the threads: power loss or exit between any two
    actions, process start, state callbacks, poll cycles and orchestrated
    updates. The flag `ok` of an action is the outcome of its fallible call; an
    unlink that fails is silent, as it is in the source. */
module UpdateProtocol {
  import opened Options
  import opened UpdateMarker
  import opened WatchdogCore

  const PREV_PATH := "thinr-agent.prev"

  /** An executable: the version it reports and whatever else tells it apart. */
  datatype Binary = Binary(version: string, payload: nat)

  /** A file that should hold an executable: complete, or cut short. */
  datatype Image = Whole(bin: Binary) | Torn(bin: Binary)

  datatype Disk = Disk(
    install: Image,            // the installed binary
    staged: Option<Image>,     // <install>.new
    prevTmp: Option<Image>,    // <install>.prev.tmp
    prev: Option<Image>,       // <install>.prev
    marker: Option<Marker>,    // update.state
    reverted: Option<Reverted>) // update.reverted

  datatype Flags = Flags(
    running: Binary,
    marker: Marker,            // marker_, as read by the constructor
    armed: bool,
    reportPending: bool,
    resolved: bool,
    deadlineStop: bool,
    inProgress: bool,          // the updater's static flag
    connected: bool)           // the poller's view of the client

  datatype Shared = Shared(disk: Disk, flags: Flags, clock: int)

  datatype ClientState =
    | Connecting | Connected | Authenticating | Authenticated
    | AuthFailed | Disconnected | ConnectionError | StreamsReady

  datatype Origin = AutoPoll | Orchestrated

  /** An update: the version announced and the bytes the server will return. */
  datatype Request = Request(version: string, image: Binary, deadlineS: int, origin: Origin)

  datatype ApplyResult = Updated | Deferred | Failed(reason: string)

  /** Who called the shared rollback routine, and so what happens after it. */
  datatype Caller = ByDispatch(st: ClientState) | ByDeadline | ByBoot

  /** A state callback: the watchdog observes first, then the poller; and the
      deadline thread. */
  datatype WatchPc =
    | WatchEnter(st: ClientState, reason: string)
    | WatchResolve(st: ClientState, ev: RuntimeEvent)
    | ConfirmStop | ConfirmMarker | ConfirmPrev
    | ReportMarker | ReportClear
    | Observe(st: ClientState)
    | DeadlineWait | DeadlineResolve

  /** update_watchdog::rollback and the shared do_rollback. */
  datatype RevertPc = RevertStop | RevertCheck | RevertRename | RevertRecord | RevertMark | RevertRaise

  /** check_boot and the watchdog's constructor. */
  datatype BootPc =
    | BootDecide | BootClearMarker(m: Marker) | BootClearPrev(m: Marker) | BootArm(m: Marker)
    | BootConstruct | BootExit | Booted

  /** The two callers of the apply path: update_poller::run_cycle and updater::run. */
  datatype CallPc = PollEnter | PollManifest | PollReverted | RunCompare

  /** updater::apply_with_watchdog up to the swap. */
  datatype ApplyPc =
    | ApEnter | ApCheck | ApSessions | ApDownload | ApDownloading | ApChecksum | ApPreflight
    | ApSessionsAgain | ApRemoveTmp | ApCopy | ApCopying | ApStage | ApMark | ApSwap

  /** Its early exits: unlink what was made, then drop the in-progress flag. */
  datatype LeavePc = DropMarker | DropPrev | DropTmp | DropNew | Release

  datatype Pc =
    | Watch(w: WatchPc)
    | Revert(r: RevertPc, m: Marker, why: string, k: Caller)
    | Boot(b: BootPc)
    | Call(c: CallPc, req: Request)
    | Apply(a: ApplyPc, req: Request)
    | Leave(l: LeavePc, res: ApplyResult)
    | Finished(res: ApplyResult)
    | Done

  // ---- vocabulary -----------------------------------------------------------

  /** The installed binary is the target of a swap that has not been confirmed. */
  predicate OnTrial(d: Disk) {
    && d.marker.Some? && d.marker.value.phase.Pending?
    && d.install.Whole? && d.install.bin.version == d.marker.value.to
  }

  /** fs::exists(m.prev_binary), over the paths the updater writes. */
  predicate PrevExists(d: Disk, m: Marker) {
    m.prevBinary == PREV_PATH && d.prev.Some?
  }

  /** A binary on trial with nothing to go back to. */
  predicate Stranded(d: Disk) {
    OnTrial(d) && !PrevExists(d, d.marker.value)
  }

  function RemovePath(d: Disk, path: string): Disk {
    if path == PREV_PATH then d.(prev := None) else d
  }

  function Classify(st: ClientState, reason: string): RuntimeEvent {
    if st == StreamsReady then ReadyEvent
    else if st == AuthFailed then if reason == "io_error" then AuthTransportError else AuthRejected
    else OtherEvent
  }

  function NewMarker(running: Binary, req: Request, now: int): Marker {
    Marker(Pending, running.version, req.version, PREV_PATH, now, 0,
           if req.deadlineS > 0 then req.deadlineS else 90, 0)
  }

  /** Where the rollback routine returns to, having restored nothing. */
  function Resume(k: Caller): Pc {
    match k
    case ByDispatch(st) => Watch(Observe(st))
    case ByDeadline => Done
    case ByBoot => Boot(BootConstruct)
  }

  function FreshFlags(running: Binary): Flags {
    Flags(running, BLANK_MARKER, false, false, false, false, false, false)
  }

  /** The watchdog's constructor: what it takes from the marker on disk. */
  function Constructed(f: Flags, marker: Option<Marker>): Flags {
    if marker.None? then f
    else
      var m := marker.value;
      if m.phase.Pending? && f.running.version == m.to then f.(marker := m, armed := true)
      else if m.phase.RolledBack? then f.(marker := m, reportPending := true)
      else f.(marker := m)
  }

  // ---- one atomic action of one thread --------------------------------------

  function WatchStep(w: WatchPc, s: Shared, ok: bool): (Pc, Shared) {
    var d := s.disk;
    var f := s.flags;
    match w
    // update_watchdog::on_state
    case WatchEnter(st, reason) =>
      var ev := Classify(st, reason);
      if !f.armed && !f.reportPending then (Watch(Observe(st)), s)
      else if ev.ReadyEvent? || (f.armed && DecideRuntime(ev) == RuntimeAction.Revert)
      then (Watch(WatchResolve(st, ev)), s)
      else (Watch(Observe(st)), s)
    case WatchResolve(st, ev) =>
      if f.resolved then (Watch(Observe(st)), s)
      else
        var s' := s.(flags := f.(resolved := true));
        if !ev.ReadyEvent? then (Pc.Revert(RevertStop, f.marker, "auth_failed", ByDispatch(st)), s')
        else if f.reportPending then (Watch(ReportMarker), s')
        else if f.armed then (Watch(ConfirmStop), s')
        else (Watch(Observe(st)), s')
    case ReportMarker => (Watch(ReportClear), if ok then s.(disk := d.(marker := None)) else s)
    case ReportClear => (Watch(Observe(StreamsReady)), s.(flags := f.(reportPending := false)))
    // update_watchdog::confirm
    case ConfirmStop => (Watch(ConfirmMarker), s.(flags := f.(deadlineStop := true)))
    case ConfirmMarker => (Watch(ConfirmPrev), if ok then s.(disk := d.(marker := None)) else s)
    case ConfirmPrev =>
      (Watch(Observe(StreamsReady)), if ok then s.(disk := RemovePath(d, f.marker.prevBinary)) else s)
    // update_poller::on_state
    case Observe(st) => (Done, s.(flags := f.(connected := st == StreamsReady)))
    // update_watchdog::deadline_loop
    case DeadlineWait => (if f.deadlineStop then Done else Watch(DeadlineResolve), s)
    case DeadlineResolve =>
      if f.resolved then (Done, s)
      else (Pc.Revert(RevertStop, f.marker, "deadline", ByDeadline), s.(flags := f.(resolved := true)))
  }

  function RevertStep(r: RevertPc, m: Marker, why: string, k: Caller, s: Shared, ok: bool): (Pc, Shared) {
    var d := s.disk;
    match r
    case RevertStop =>
      (Pc.Revert(RevertCheck, m, why, k), s.(flags := s.flags.(deadlineStop := true)))
    case RevertCheck =>
      (if PrevExists(d, m) then Pc.Revert(RevertRename, m, why, k) else Resume(k), s)
    case RevertRename =>
      if ok && d.prev.Some? then
        (Pc.Revert(RevertRecord, m, why, k), s.(disk := d.(install := d.prev.value, prev := None)))
      else (Resume(k), s)
    case RevertRecord =>
      (Pc.Revert(RevertMark, m, why, k),
       if ok then s.(disk := d.(reverted := Some(Reverted(m.to, m.from, why, s.clock)))) else s)
    case RevertMark =>
      (if k.ByBoot? then Boot(BootExit) else Pc.Revert(RevertRaise, m, why, k),
       if ok then s.(disk := d.(marker := Some(m.(phase := RolledBack)))) else s)
    case RevertRaise => (Resume(k), s)
  }

  function BootStep(b: BootPc, s: Shared, ok: bool): (Pc, Shared) {
    var d := s.disk;
    var f := s.flags;
    match b
    case BootDecide =>
      var dec := DecideBoot(d.marker, f.running.version);
      (match dec.action
       case CleanStart => Boot(BootConstruct)
       case ClearNoRevert => Boot(BootClearMarker(dec.marker))
       case ReportRolledBack => Boot(BootConstruct)
       case Arm => Boot(BootArm(dec.marker))
       case Rollback => Pc.Revert(RevertCheck, dec.marker, "crash_loop", ByBoot), s)
    case BootClearMarker(m) =>
      (Boot(if m.prevBinary == "" then BootConstruct else BootClearPrev(m)),
       if ok then s.(disk := d.(marker := None)) else s)
    case BootClearPrev(m) =>
      (Boot(BootConstruct), if ok then s.(disk := RemovePath(d, m.prevBinary)) else s)
    case BootArm(m) => (Boot(BootConstruct), if ok then s.(disk := d.(marker := Some(m))) else s)
    case BootConstruct => (Boot(Booted), s.(flags := Constructed(f, d.marker)))
    case BootExit => (Boot(b), s)
    case Booted => (Boot(b), s)
  }

  /** For PollEnter `ok` stands for the policy, for PollReverted for eligibility. */
  function CallStep(c: CallPc, req: Request, s: Shared, ok: bool): (Pc, Shared) {
    var d := s.disk;
    var f := s.flags;
    match c
    case PollEnter => (if ok && f.connected then Call(PollManifest, req) else Done, s)
    case PollManifest =>
      (if req.version == "" || req.version == f.running.version then Done else Call(PollReverted, req), s)
    case PollReverted =>
      if d.reverted.Some?
         && SkipRevertedVersion(d.reverted.value, req.version, s.clock, REVERTED_RETRY_COOLDOWN_S)
      then (Done, s)
      else (if ok then Apply(ApEnter, req) else Done, s)
    case RunCompare =>
      (if req.version == "" || req.version == f.running.version then Done else Apply(ApEnter, req), s)
  }

  function ApplyStep(a: ApplyPc, req: Request, s: Shared, ok: bool): (Pc, Shared) {
    var d := s.disk;
    var f := s.flags;
    match a
    case ApEnter =>
      if req.version == "" then (Finished(Failed("error")), s)
      else if f.inProgress then (Finished(Failed("busy")), s)
      else (Apply(ApCheck, req), s.(flags := f.(inProgress := true)))
    case ApCheck =>
      (if d.marker.Some? then Leave(Release, Failed("restart_pending")) else Apply(ApSessions, req), s)
    case ApSessions =>
      (if req.origin.AutoPoll? && !ok then Leave(Release, Deferred) else Apply(ApDownload, req), s)
    case ApDownload => (Apply(ApDownloading, req), s.(disk := d.(staged := Some(Torn(req.image)))))
    case ApDownloading =>
      if ok then (Apply(ApChecksum, req), s.(disk := d.(staged := Some(Whole(req.image)))))
      else (Leave(DropNew, Failed("download")), s)
    case ApChecksum => (if ok then Apply(ApPreflight, req) else Leave(DropNew, Failed("checksum")), s)
    case ApPreflight => (if ok then Apply(ApSessionsAgain, req) else Leave(DropNew, Failed("preflight")), s)
    case ApSessionsAgain =>
      (if req.origin.AutoPoll? && !ok then Leave(DropNew, Deferred) else Apply(ApRemoveTmp, req), s)
    case ApRemoveTmp => (Apply(ApCopy, req), if ok then s.(disk := d.(prevTmp := None)) else s)
    case ApCopy =>
      if ok then (Apply(ApCopying, req), s.(disk := d.(prevTmp := Some(Torn(d.install.bin)))))
      else (Leave(DropNew, Failed("prev_failed")), s)
    case ApCopying =>
      if ok then (Apply(ApStage, req), s.(disk := d.(prevTmp := Some(d.install))))
      else (Leave(DropNew, Failed("no_space")), s)
    case ApStage =>
      if ok then (Apply(ApMark, req), s.(disk := d.(prev := d.prevTmp, prevTmp := None)))
      else (Leave(DropTmp, Failed("prev_failed")), s)
    case ApMark =>
      if ok then (Apply(ApSwap, req), s.(disk := d.(marker := Some(NewMarker(f.running, req, s.clock)))))
      else (Leave(DropPrev, Failed("marker_failed")), s)
    case ApSwap =>
      if ok && d.staged.Some? then
        (Leave(Release, Updated), s.(disk := d.(install := d.staged.value, staged := None)))
      else (Leave(DropMarker, Failed("swap_failed")), s)
  }

  function LeaveStep(l: LeavePc, res: ApplyResult, s: Shared, ok: bool): (Pc, Shared) {
    var d := s.disk;
    match l
    case DropMarker => (Leave(DropPrev, res), if ok then s.(disk := d.(marker := None)) else s)
    case DropPrev => (Leave(DropNew, res), if ok then s.(disk := d.(prev := None)) else s)
    case DropTmp => (Leave(DropNew, res), if ok then s.(disk := d.(prevTmp := None)) else s)
    case DropNew => (Leave(Release, res), if ok then s.(disk := d.(staged := None)) else s)
    case Release => (Finished(res), s.(flags := s.flags.(inProgress := false)))
  }

  function ThreadStep(pc: Pc, s: Shared, ok: bool): (Pc, Shared) {
    match pc
    case Watch(w) => WatchStep(w, s, ok)
    case Revert(r, m, why, k) => RevertStep(r, m, why, k, s, ok)
    case Boot(b) => BootStep(b, s, ok)
    case Call(c, req) => CallStep(c, req, s, ok)
    case Apply(a, req) => ApplyStep(a, req, s, ok)
    case Leave(l, res) => LeaveStep(l, res, s, ok)
    case Finished(res) => (pc, s)
    case Done => (pc, s)
  }

  /** One thread running alone, the outcomes of its calls given in order. */
  function Drive(pc: Pc, s: Shared, oks: seq<bool>): (Pc, Shared)
    decreases |oks|
  {
    if oks == [] then (pc, s)
    else
      var (pc', s') := ThreadStep(pc, s, oks[0]);
      Drive(pc', s', oks[1..])
  }

  // ---- what the proofs remember ---------------------------------------------

  datatype Outcome = Confirmed | Reported | RolledBackOutcome | NoOutcome

  /** History: which outcome the watchdog of this process took; and, since the
      last swap, the binary it replaced and how the starts on trial went. */
  datatype History = History(
    outcomes: seq<Outcome>,
    before: Binary,
    starts: nat,        // starts of the binary on trial
    arms: nat,          // of those, counted by check_boot
    lostWrites: nat,    // counted, but the new count did not reach the disk
    failedReverts: nat, // over budget, but the previous binary was not restored
    earlyDeaths: nat)   // died before check_boot had finished

  function Note(pc: Pc, s: Shared, ok: bool, h: History): History {
    var f := s.flags;
    if pc.Watch? && pc.w.WatchResolve? && !f.resolved then
      h.(outcomes := h.outcomes + [
        if !pc.w.ev.ReadyEvent? then RolledBackOutcome
        else if f.reportPending then Reported
        else if f.armed then Confirmed else NoOutcome])
    else if pc.Watch? && pc.w.DeadlineResolve? && !f.resolved then
      h.(outcomes := h.outcomes + [RolledBackOutcome])
    else if pc.Apply? && pc.a.ApSwap? && ok && s.disk.staged.Some? then
      h.(before := s.disk.install.bin, starts := 0, arms := 0, lostWrites := 0,
         failedReverts := 0, earlyDeaths := 0)
    else if pc.Boot? && pc.b.BootArm? then
      h.(arms := h.arms + 1, lostWrites := h.lostWrites + if ok then 0 else 1)
    else if && pc.Revert? && pc.k.ByBoot?
            && ((pc.r.RevertCheck? && !PrevExists(s.disk, pc.m))
                || (pc.r.RevertRename? && !(ok && s.disk.prev.Some?))) then
      h.(failedReverts := h.failedReverts + 1)
    else h
  }

  // ---- the whole system -----------------------------------------------------

  datatype Proc = Down | Booting(pc: Pc) | Live(threads: map<nat, Pc>)
  datatype State = State(shared: Shared, proc: Proc, hist: History)

  datatype Event =
    | Tick(n: nat)
    | Die                                       // exit, kill or power loss
    | Start
    | BootNext(ok: bool)
    | Emit(t: nat, st: ClientState, reason: string)
    | StopWatchdog
    | Poll(t: nat, req: Request)
    | Orchestrate(t: nat, req: Request)
    | Step(t: nat, ok: bool)

  /** check_boot has begun on a trial and has not yet decided its fate. */
  predicate Undecided(pc: Pc) {
    || (pc.Boot? && (pc.b.BootDecide? || pc.b.BootArm?))
    || (pc.Revert? && (pc.r.RevertCheck? || pc.r.RevertRename?))
  }

  function Next(s: State, e: Event): Option<State> {
    match e
    case Tick(n) => Some(s.(shared := s.shared.(clock := s.shared.clock + n)))
    case Die =>
      if s.proc.Down? then None
      else
        var early := s.proc.Booting? && Undecided(s.proc.pc) && OnTrial(s.shared.disk);
        Some(State(s.shared, Down,
          s.hist.(earlyDeaths := s.hist.earlyDeaths + if early then 1 else 0)))
    case Start =>
      if !s.proc.Down? || !s.shared.disk.install.Whole? then None
      else
        Some(State(s.shared.(flags := FreshFlags(s.shared.disk.install.bin)), Booting(Boot(BootDecide)),
          s.hist.(outcomes := [],
                  starts := s.hist.starts + if OnTrial(s.shared.disk) then 1 else 0)))
    case BootNext(ok) =>
      if !s.proc.Booting? then None
      else if s.proc.pc == Boot(BootExit) then Some(s.(proc := Down))
      else
        var (pc', shared') := ThreadStep(s.proc.pc, s.shared, ok);
        var hist' := Note(s.proc.pc, s.shared, ok, s.hist);
        if pc' == Boot(Booted) then
          Some(State(shared', Live(if shared'.flags.armed then map[0 := Watch(DeadlineWait)] else map[]), hist'))
        else Some(State(shared', Booting(pc'), hist'))
    case Emit(t, st, reason) =>
      if s.proc.Live? && t !in s.proc.threads then Some(Spawn(s, t, Watch(WatchEnter(st, reason)))) else None
    case StopWatchdog =>
      if s.proc.Live? then Some(s.(shared := s.shared.(flags := s.shared.flags.(deadlineStop := true))))
      else None
    case Poll(t, req) =>
      if s.proc.Live? && t !in s.proc.threads && req.origin.AutoPoll? then Some(Spawn(s, t, Call(PollEnter, req)))
      else None
    case Orchestrate(t, req) =>
      if s.proc.Live? && t !in s.proc.threads && req.origin.Orchestrated? then Some(Spawn(s, t, Call(RunCompare, req)))
      else None
    case Step(t, ok) =>
      if s.proc.Live? && t in s.proc.threads then Some(Advance(s, t, ok)) else None
  }

  function Spawn(s: State, t: nat, pc: Pc): State
    requires s.proc.Live?
  {
    s.(proc := Live(s.proc.threads[t := pc]))
  }

  function Advance(s: State, t: nat, ok: bool): State
    requires s.proc.Live? && t in s.proc.threads
  {
    var pc := s.proc.threads[t];
    var (pc', shared') := ThreadStep(pc, s.shared, ok);
    State(shared', Live(s.proc.threads[t := pc']), Note(pc, s.shared, ok, s.hist))
  }

  /** Any run from a device at rest: a whole binary, no update in flight, and
      whatever an earlier life left in the other files. */
  predicate Init(s: State) {
    s.proc.Down? && s.shared.disk.install.Whole? && s.shared.disk.marker.None?
  }

  function Exec(s: State, es: seq<Event>): Option<State>
    decreases |es|
  {
    if es == [] then Some(s)
    else
      var s' := Next(s, es[0]);
      if s'.None? then None else Exec(s'.value, es[1..])
  }

  // ---- the three things the code takes for granted ---------------------------

  /** Dispatching a STREAMS_READY, its outcome not yet decided or already nothing. */
  predicate ReadyComing(pc: Pc) {
    pc.Watch? && (pc.w.WatchEnter? || pc.w.WatchResolve? || pc.w.Observe?) && pc.w.st == StreamsReady
  }

  predicate Confirms(pc: Pc) {
    pc.Watch? && (pc.w.ConfirmStop? || pc.w.ConfirmMarker? || pc.w.ConfirmPrev?)
  }

  /** A trial that is being confirmed, or is about to be by a dispatch under way. */
  ghost predicate ConfirmComing(s: State) {
    s.proc.Live? &&
    exists t :: t in s.proc.threads &&
      (Confirms(s.proc.threads[t])
       || (s.shared.flags.armed && !s.shared.flags.resolved && ReadyComing(s.proc.threads[t])))
  }

  /** STREAMS_READY is not emitted while an earlier one confirms or is about to. */
  ghost predicate SerialReady(s: State, e: Event) {
    e.Emit? && e.st == StreamsReady ==> !ConfirmComing(s)
  }

  predicate Checking(pc: Pc) { pc.Apply? && pc.a.ApCheck? }

  /** No orchestrated update passes its marker check between confirm's two unlinks. */
  predicate NotInConfirmWindow(s: State, e: Event) {
    e.Step? && s.proc.Live? && e.t in s.proc.threads
    && Checking(s.proc.threads[e.t]) && s.proc.threads[e.t].req.origin.Orchestrated? ==>
      forall t :: t in s.proc.threads ==> s.proc.threads[t] != Watch(ConfirmPrev)
  }

  /** Unlinking the marker on confirm succeeds. */
  predicate ConfirmUnlinks(s: State, e: Event) {
    e.Step? && s.proc.Live? && e.t in s.proc.threads && s.proc.threads[e.t] == Watch(ConfirmMarker) ==> e.ok
  }

  ghost predicate Disciplined(s: State, e: Event) {
    SerialReady(s, e) && NotInConfirmWindow(s, e) && ConfirmUnlinks(s, e)
  }

  ghost predicate DisciplinedRun(s: State, es: seq<Event>)
    decreases |es|
  {
    es == [] ||
    (Disciplined(s, es[0]) && Next(s, es[0]).Some? && DisciplinedRun(Next(s, es[0]).value, es[1..]))
  }
}
