/** The inductive invariant of the update protocol, by assertions on each
    program counter that the other threads leave true. */
module UpdateInvariant {
  import opened Options
  import opened UpdateMarker
  import opened WatchdogCore
  import opened UpdateProtocol

  // ---- the disk --------------------------------------------------------------

  predicate GoodMarker(m: Marker) {
    && m.prevBinary == PREV_PATH
    && m.from != m.to
    && !m.phase.NoPhase?
    && 0 <= m.attempts
    && (m.phase.Pending? ==> m.attempts <= WATCHDOG_MAX_ATTEMPTS)
    && m.attempts <= WATCHDOG_MAX_ATTEMPTS + 1
  }

  predicate DiskInv(d: Disk, h: History) {
    && d.install.Whole?
    && (d.marker.Some? ==> GoodMarker(d.marker.value))
    && (OnTrial(d) ==>
          && d.prev == Some(Whole(h.before))
          && h.before.version == d.marker.value.from
          && d.marker.value.attempts + h.lostWrites == h.arms)
  }

  // ---- the running process ---------------------------------------------------

  /** Nothing is owed any more: no trial to settle and no rollback to report. */
  predicate Settled(f: Flags) {
    f.armed || f.reportPending ==> f.resolved
  }

  predicate LiveInv(s: Shared, h: History) {
    var d := s.disk;
    var f := s.flags;
    && (d.install != Whole(f.running) ==> d.marker.Some?)
    && (f.armed ==> f.marker.phase.Pending? && f.running.version == f.marker.to && GoodMarker(f.marker))
    && (f.reportPending ==> !f.armed && f.marker.phase.RolledBack?)
    && (f.armed && !f.resolved ==> d.marker == Some(f.marker) && d.install == Whole(f.running))
    && (f.reportPending && !f.resolved ==> d.marker == Some(f.marker) && d.install == Whole(f.running))
    && (f.connected ==> Settled(f))
    && |h.outcomes| == (if f.resolved then 1 else 0)
    && (h.outcomes == [RolledBackOutcome] ==> d.marker.Some?)
  }

  /** An automatic request may apply now, as far as the reverted record goes. */
  predicate RecordAllows(s: Shared, version: string) {
    var r := s.disk.reverted;
    r.Some? && r.value.version == version ==>
      r.value.reason == "deadline" && s.clock - r.value.at >= REVERTED_RETRY_COOLDOWN_S
  }

  predicate RequestOk(s: Shared, req: Request) {
    req.version != s.flags.running.version
  }

  predicate AutoWaiting(s: Shared, h: History, req: Request) {
    req.origin.AutoPoll? ==>
      && Settled(s.flags)
      && (h.outcomes == [RolledBackOutcome] || RecordAllows(s, req.version))
  }

  /** Past the marker check: nothing can make the watchdog act any more. */
  predicate Admitted(s: Shared, h: History, req: Request) {
    && RequestOk(s, req)
    && s.flags.inProgress && Settled(s.flags)
    && h.outcomes != [RolledBackOutcome]
    && (req.origin.AutoPoll? ==> RecordAllows(s, req.version))
  }

  predicate BackingUp(s: Shared, h: History, req: Request) {
    && Admitted(s, h, req)
    && s.disk.marker.None? && s.disk.install == Whole(s.flags.running)
  }

  predicate Downloaded(s: Shared, req: Request) {
    s.disk.staged == Some(Whole(req.image))
  }

  /** Undoing a failed apply: the old binary is in place and not on trial. */
  predicate Undoing(s: Shared, h: History, res: ApplyResult) {
    && s.flags.inProgress && Settled(s.flags) && !res.Updated?
    && h.outcomes != [RolledBackOutcome]
    && s.disk.install == Whole(s.flags.running) && !OnTrial(s.disk)
  }

  /** The rollback routine before it has restored anything. */
  predicate BeforeRestore(s: Shared, h: History, m: Marker, k: Caller) {
    var d := s.disk;
    && d.install == Whole(s.flags.running) && OnTrial(d) && GoodMarker(m.(attempts := 0))
    && m.phase.Pending?
    && (if k.ByBoot?
        then m.attempts == WATCHDOG_MAX_ATTEMPTS + 1
             && d.marker == Some(m.(attempts := WATCHDOG_MAX_ATTEMPTS))
        else s.flags.armed && m == s.flags.marker && d.marker == Some(m))
  }

  predicate AfterRestoreInv(s: Shared, m: Marker) {
    && s.disk.marker.Some? && !OnTrial(s.disk)
    && GoodMarker(m.(phase := RolledBack))
  }

  predicate Outcomes(s: Shared, h: History, o: Outcome) {
    s.flags.resolved && h.outcomes == [o]
  }

  predicate WatchInv(w: WatchPc, s: Shared, h: History) {
    var d := s.disk;
    var f := s.flags;
    match w
    case WatchEnter(st, reason) => true
    case WatchResolve(st, ev) =>
      && (!f.resolved ==> f.armed || f.reportPending)
      && (ev.ReadyEvent? <==> st == StreamsReady)
      && (!ev.ReadyEvent? ==> f.armed && ev.AuthRejected? && st == AuthFailed)
    case ConfirmStop => Confirming(s, h) && d.marker == Some(f.marker)
    case ConfirmMarker => Confirming(s, h) && d.marker == Some(f.marker)
    case ConfirmPrev => Confirming(s, h) && d.marker.None?
    case ReportMarker =>
      && f.reportPending && Outcomes(s, h, Reported)
      && d.marker == Some(f.marker) && d.install == Whole(f.running)
    case ReportClear => !f.armed && Outcomes(s, h, Reported)
    case Observe(st) => st == StreamsReady ==> Settled(f)
    case DeadlineWait => f.armed
    case DeadlineResolve => f.armed
  }

  predicate Confirming(s: Shared, h: History) {
    s.flags.armed && !s.flags.connected && s.disk.install == Whole(s.flags.running) && Outcomes(s, h, Confirmed)
  }

  /** Why a rollback is made, by who makes it: the dispatch only for a rejected login. */
  predicate Because(why: string, k: Caller) {
    match k
    case ByDispatch(st) => why == "auth_failed" && st == AuthFailed
    case ByDeadline => why == "deadline"
    case ByBoot => why == "crash_loop"
  }

  predicate RevertInv(r: RevertPc, m: Marker, why: string, k: Caller, s: Shared, h: History) {
    && Because(why, k)
    && (!r.RevertRaise? ==> m.to == s.flags.running.version)
    && (!k.ByBoot? ==> s.flags.armed && Outcomes(s, h, RolledBackOutcome))
    && match r
       case RevertStop => !k.ByBoot? && BeforeRestore(s, h, m, k)
       case RevertCheck => BeforeRestore(s, h, m, k)
       case RevertRename => BeforeRestore(s, h, m, k)
       case RevertRecord => AfterRestoreInv(s, m)
       case RevertMark => AfterRestoreInv(s, m)
       case RevertRaise => !k.ByBoot?
  }

  /** At the start of the process, before there are other threads. */
  predicate BootInv(b: BootPc, s: Shared) {
    var d := s.disk;
    match b
    case BootDecide => d.install == Whole(s.flags.running)
    case BootClearMarker(m) => d.install == Whole(s.flags.running) && !OnTrial(d) && m.prevBinary == PREV_PATH
    case BootClearPrev(m) => d.install == Whole(s.flags.running) && !OnTrial(d)
    case BootArm(m) =>
      && d.install == Whole(s.flags.running) && OnTrial(d)
      && 1 <= m.attempts <= WATCHDOG_MAX_ATTEMPTS
      && d.marker == Some(m.(attempts := m.attempts - 1))
    case BootConstruct => d.install == Whole(s.flags.running)
    case BootExit => d.marker.Some?
    case Booted => false
  }

  predicate CallInv(c: CallPc, req: Request, s: Shared) {
    match c
    case PollEnter => req.origin.AutoPoll?
    case PollManifest => req.origin.AutoPoll? && Settled(s.flags)
    case PollReverted => req.origin.AutoPoll? && Settled(s.flags) && RequestOk(s, req)
    case RunCompare => req.origin.Orchestrated?
  }

  predicate ApplyInv(a: ApplyPc, req: Request, s: Shared, h: History) {
    var d := s.disk;
    match a
    case ApEnter => RequestOk(s, req) && AutoWaiting(s, h, req)
    case ApCheck => s.flags.inProgress && RequestOk(s, req) && AutoWaiting(s, h, req)
    case ApSessions => BackingUp(s, h, req)
    case ApDownload => BackingUp(s, h, req)
    case ApDownloading => BackingUp(s, h, req)
    case ApChecksum => BackingUp(s, h, req) && Downloaded(s, req)
    case ApPreflight => BackingUp(s, h, req) && Downloaded(s, req)
    case ApSessionsAgain => BackingUp(s, h, req) && Downloaded(s, req)
    case ApRemoveTmp => BackingUp(s, h, req) && Downloaded(s, req)
    case ApCopy => BackingUp(s, h, req) && Downloaded(s, req)
    case ApCopying => BackingUp(s, h, req) && Downloaded(s, req)
    case ApStage => BackingUp(s, h, req) && Downloaded(s, req) && d.prevTmp == Some(d.install)
    case ApMark => BackingUp(s, h, req) && Downloaded(s, req) && d.prev == Some(d.install)
    case ApSwap =>
      && Admitted(s, h, req) && Downloaded(s, req)
      && d.install == Whole(s.flags.running) && d.prev == Some(d.install)
      && d.marker.Some? && d.marker == Some(NewMarker(s.flags.running, req, d.marker.value.startedAt))
  }

  predicate PcInv(pc: Pc, s: Shared, h: History) {
    match pc
    case Watch(w) => WatchInv(w, s, h)
    case Revert(r, m, why, k) => RevertInv(r, m, why, k, s, h)
    case Boot(b) => BootInv(b, s)
    case Call(c, req) => CallInv(c, req, s)
    case Apply(a, req) => ApplyInv(a, req, s, h)
    case Leave(l, res) => if l.Release? then s.flags.inProgress else Undoing(s, h, res)
    case Finished(res) => true
    case Done => true
  }

  // ---- pairs of threads ------------------------------------------------------

  predicate Reports(pc: Pc) {
    pc.Watch? && (pc.w.ReportMarker? || pc.w.ReportClear?)
  }

  /** Holds the single outcome of the process. */
  predicate Winner(pc: Pc) {
    Confirms(pc) || Reports(pc) || pc.Revert?
  }

  /** Still has disk writes of its outcome ahead. */
  predicate OutcomeWriter(pc: Pc) {
    Winner(pc) && !(pc.Watch? && pc.w.ReportClear?) && !(pc.Revert? && pc.r.RevertRaise?)
  }

  predicate AdmittedPc(pc: Pc) {
    (pc.Apply? && !pc.a.ApEnter? && !pc.a.ApCheck?) || (pc.Leave? && !pc.l.Release?)
  }

  /** Holds the updater's in-progress flag. */
  predicate Holder(pc: Pc) {
    (pc.Apply? && !pc.a.ApEnter?) || pc.Leave?
  }

  /** An automatic cycle that found the client connected and was not yet admitted. */
  predicate AutoPast(pc: Pc) {
    || (pc.Call? && (pc.c.PollManifest? || pc.c.PollReverted?))
    || (pc.Apply? && (pc.a.ApEnter? || pc.a.ApCheck?) && pc.req.origin.AutoPoll?)
  }

  predicate Excluded(a: Pc, b: Pc) {
    || (AdmittedPc(a) && OutcomeWriter(b))
    || (AutoPast(a) && Confirms(b))
    || (Confirms(a) && ReadyComing(b))
  }

  predicate Compatible(a: Pc, b: Pc, f: Flags) {
    && !(Winner(a) && Winner(b))
    && !(Holder(a) && Holder(b))
    && (f.armed && !f.resolved ==> !(ReadyComing(a) && ReadyComing(b)))
    && !Excluded(a, b) && !Excluded(b, a)
  }

  predicate AtBoot(pc: Pc) {
    pc.Boot? || (pc.Revert? && pc.k.ByBoot?)
  }

  // ---- one step, one thread ---------------------------------------------------

  /** What the discipline gives the stepping thread. */
  predicate StepAllowed(pc: Pc, ok: bool) {
    pc == Watch(ConfirmMarker) ==> ok
  }

  predicate Sound(pc: Pc, s: Shared, h: History) {
    DiskInv(s.disk, h) && LiveInv(s, h) && PcInv(pc, s, h)
  }

  lemma StepKeepsDisk(pc: Pc, s: Shared, ok: bool, h: History)
    requires DiskInv(s.disk, h) && PcInv(pc, s, h) && StepAllowed(pc, ok)
    ensures DiskInv(ThreadStep(pc, s, ok).1.disk, Note(pc, s, ok, h))
  {
  }

  /** About to test and set resolved_. */
  predicate Resolving(pc: Pc) {
    pc.Watch? && (pc.w.WatchResolve? || pc.w.DeadlineResolve?)
  }

  predicate Preparing(pc: Pc) {
    pc.Apply? && (|| pc.a.ApEnter? || pc.a.ApCheck? || pc.a.ApSessions? || pc.a.ApDownload?
                  || pc.a.ApDownloading? || pc.a.ApChecksum? || pc.a.ApPreflight?)
  }

  /** The stepping thread re-establishes the shared part and its own assertion. */
  predicate StepsWell(pc: Pc, s: Shared, ok: bool, h: History) {
    var (pc', s') := ThreadStep(pc, s, ok);
    LiveInv(s', Note(pc, s, ok, h)) && PcInv(pc', s', Note(pc, s, ok, h)) && !AtBoot(pc')
  }

  lemma ResolvingKeepsLive(pc: Pc, s: Shared, ok: bool, h: History)
    requires Sound(pc, s, h) && Resolving(pc)
    ensures LiveInv(ThreadStep(pc, s, ok).1, Note(pc, s, ok, h))
  {
  }

  lemma SettlingKeepsLive(pc: Pc, s: Shared, ok: bool, h: History)
    requires Sound(pc, s, h) && StepAllowed(pc, ok) && (Confirms(pc) || Reports(pc))
    ensures LiveInv(ThreadStep(pc, s, ok).1, Note(pc, s, ok, h))
  {
  }

  lemma WatchingKeepsLive(pc: Pc, s: Shared, ok: bool, h: History)
    requires Sound(pc, s, h) && pc.Watch? && !Resolving(pc) && !Confirms(pc) && !Reports(pc)
    ensures LiveInv(ThreadStep(pc, s, ok).1, Note(pc, s, ok, h))
  {
  }

  lemma WatchKeepsLive(pc: Pc, s: Shared, ok: bool, h: History)
    requires Sound(pc, s, h) && StepAllowed(pc, ok) && pc.Watch?
    ensures LiveInv(ThreadStep(pc, s, ok).1, Note(pc, s, ok, h))
  {
    if Resolving(pc) {
      ResolvingKeepsLive(pc, s, ok, h);
    } else if Confirms(pc) || Reports(pc) {
      SettlingKeepsLive(pc, s, ok, h);
    } else {
      WatchingKeepsLive(pc, s, ok, h);
    }
  }

  lemma WatchKeepsOwn(pc: Pc, s: Shared, ok: bool, h: History)
    requires Sound(pc, s, h) && StepAllowed(pc, ok) && pc.Watch? && !Resolving(pc)
    ensures PcInv(ThreadStep(pc, s, ok).0, ThreadStep(pc, s, ok).1, Note(pc, s, ok, h))
    ensures !AtBoot(ThreadStep(pc, s, ok).0)
  {
  }

  lemma ResolvingKeepsOwn(pc: Pc, s: Shared, ok: bool, h: History)
    requires Sound(pc, s, h) && Resolving(pc)
    ensures PcInv(ThreadStep(pc, s, ok).0, ThreadStep(pc, s, ok).1, Note(pc, s, ok, h))
    ensures !AtBoot(ThreadStep(pc, s, ok).0)
  {
  }

  lemma BeforeRenameStepsWell(pc: Pc, s: Shared, ok: bool, h: History)
    requires Sound(pc, s, h) && pc.Revert? && !AtBoot(pc) && (pc.r.RevertStop? || pc.r.RevertCheck?)
    ensures StepsWell(pc, s, ok, h)
  {
  }

  lemma RenameStepsWell(pc: Pc, s: Shared, ok: bool, h: History)
    requires Sound(pc, s, h) && pc.Revert? && !AtBoot(pc) && pc.r.RevertRename?
    ensures StepsWell(pc, s, ok, h)
  {
  }

  lemma AfterRenameStepsWell(pc: Pc, s: Shared, ok: bool, h: History)
    requires Sound(pc, s, h) && pc.Revert? && !AtBoot(pc)
    requires pc.r.RevertRecord? || pc.r.RevertMark? || pc.r.RevertRaise?
    ensures StepsWell(pc, s, ok, h)
  {
  }

  lemma RevertStepsWell(pc: Pc, s: Shared, ok: bool, h: History)
    requires Sound(pc, s, h) && pc.Revert? && !AtBoot(pc)
    ensures StepsWell(pc, s, ok, h)
  {
    if pc.r.RevertRename? {
      RenameStepsWell(pc, s, ok, h);
    } else if pc.r.RevertStop? || pc.r.RevertCheck? {
      BeforeRenameStepsWell(pc, s, ok, h);
    } else {
      AfterRenameStepsWell(pc, s, ok, h);
    }
  }

  lemma CallStepsWell(pc: Pc, s: Shared, ok: bool, h: History)
    requires Sound(pc, s, h) && StepAllowed(pc, ok) && pc.Call? && !AtBoot(pc)
    ensures StepsWell(pc, s, ok, h)
  {
  }

  lemma ApplyKeepsLive(pc: Pc, s: Shared, ok: bool, h: History)
    requires Sound(pc, s, h) && StepAllowed(pc, ok) && pc.Apply?
    ensures LiveInv(ThreadStep(pc, s, ok).1, Note(pc, s, ok, h))
  {
  }

  lemma PreparingKeepsOwn(pc: Pc, s: Shared, ok: bool, h: History)
    requires Sound(pc, s, h) && Preparing(pc)
    ensures PcInv(ThreadStep(pc, s, ok).0, ThreadStep(pc, s, ok).1, Note(pc, s, ok, h))
    ensures !AtBoot(ThreadStep(pc, s, ok).0)
  {
  }

  lemma ApplyKeepsOwn(pc: Pc, s: Shared, ok: bool, h: History)
    requires Sound(pc, s, h) && pc.Apply? && !Preparing(pc)
    ensures PcInv(ThreadStep(pc, s, ok).0, ThreadStep(pc, s, ok).1, Note(pc, s, ok, h))
    ensures !AtBoot(ThreadStep(pc, s, ok).0)
  {
  }

  lemma LeaveStepsWell(pc: Pc, s: Shared, ok: bool, h: History)
    requires Sound(pc, s, h) && StepAllowed(pc, ok) && pc.Leave? && !AtBoot(pc)
    ensures StepsWell(pc, s, ok, h)
  {
  }

  lemma AllStepWell(pc: Pc, s: Shared, ok: bool, h: History)
    requires Sound(pc, s, h) && StepAllowed(pc, ok) && !AtBoot(pc)
    ensures StepsWell(pc, s, ok, h)
  {
    match pc
    case Watch(_) =>
      WatchKeepsLive(pc, s, ok, h);
      if Resolving(pc) {
        ResolvingKeepsOwn(pc, s, ok, h);
      } else {
        WatchKeepsOwn(pc, s, ok, h);
      }
    case Revert(_, _, _, _) => RevertStepsWell(pc, s, ok, h);
    case Call(_, _) => CallStepsWell(pc, s, ok, h);
    case Apply(_, _) =>
      ApplyKeepsLive(pc, s, ok, h);
      if Preparing(pc) {
        PreparingKeepsOwn(pc, s, ok, h);
      } else {
        ApplyKeepsOwn(pc, s, ok, h);
      }
    case Leave(_, _) => LeaveStepsWell(pc, s, ok, h);
    case _ =>
  }

  lemma ResolvingLeavesOther(pc: Pc, u: Pc, s: Shared, ok: bool, h: History)
    requires Sound(pc, s, h) && Resolving(pc)
    requires PcInv(u, s, h) && Compatible(pc, u, s.flags) && !AtBoot(u)
    ensures PcInv(u, ThreadStep(pc, s, ok).1, Note(pc, s, ok, h))
  {
  }

  lemma SettlingLeavesOther(pc: Pc, u: Pc, s: Shared, ok: bool, h: History)
    requires Sound(pc, s, h) && StepAllowed(pc, ok) && (Confirms(pc) || Reports(pc))
    requires PcInv(u, s, h) && Compatible(pc, u, s.flags) && !AtBoot(u)
    ensures PcInv(u, ThreadStep(pc, s, ok).1, Note(pc, s, ok, h))
  {
  }

  lemma WatchingLeavesOther(pc: Pc, u: Pc, s: Shared, ok: bool, h: History)
    requires Sound(pc, s, h) && pc.Watch? && !Resolving(pc) && !Confirms(pc) && !Reports(pc)
    requires PcInv(u, s, h) && Compatible(pc, u, s.flags) && !AtBoot(u)
    ensures PcInv(u, ThreadStep(pc, s, ok).1, Note(pc, s, ok, h))
  {
  }

  lemma WatchLeavesOther(pc: Pc, u: Pc, s: Shared, ok: bool, h: History)
    requires Sound(pc, s, h) && StepAllowed(pc, ok) && pc.Watch?
    requires PcInv(u, s, h) && Compatible(pc, u, s.flags) && !AtBoot(u)
    ensures PcInv(u, ThreadStep(pc, s, ok).1, Note(pc, s, ok, h))
  {
    if Resolving(pc) {
      ResolvingLeavesOther(pc, u, s, ok, h);
    } else if Confirms(pc) || Reports(pc) {
      SettlingLeavesOther(pc, u, s, ok, h);
    } else {
      WatchingLeavesOther(pc, u, s, ok, h);
    }
  }

  lemma RevertLeavesOther(pc: Pc, u: Pc, s: Shared, ok: bool, h: History)
    requires Sound(pc, s, h) && StepAllowed(pc, ok) && pc.Revert? && !AtBoot(pc)
    requires PcInv(u, s, h) && Compatible(pc, u, s.flags) && !AtBoot(u)
    ensures PcInv(u, ThreadStep(pc, s, ok).1, Note(pc, s, ok, h))
  {
  }

  lemma CallLeavesOther(pc: Pc, u: Pc, s: Shared, ok: bool, h: History)
    requires Sound(pc, s, h) && StepAllowed(pc, ok) && pc.Call? && !AtBoot(pc)
    requires PcInv(u, s, h) && Compatible(pc, u, s.flags) && !AtBoot(u)
    ensures PcInv(u, ThreadStep(pc, s, ok).1, Note(pc, s, ok, h))
  {
  }

  lemma ApplyLeavesOther(pc: Pc, u: Pc, s: Shared, ok: bool, h: History)
    requires Sound(pc, s, h) && StepAllowed(pc, ok) && pc.Apply? && !AtBoot(pc)
    requires PcInv(u, s, h) && Compatible(pc, u, s.flags) && !AtBoot(u)
    ensures PcInv(u, ThreadStep(pc, s, ok).1, Note(pc, s, ok, h))
  {
  }

  lemma LeaveLeavesOther(pc: Pc, u: Pc, s: Shared, ok: bool, h: History)
    requires Sound(pc, s, h) && StepAllowed(pc, ok) && pc.Leave? && !AtBoot(pc)
    requires PcInv(u, s, h) && Compatible(pc, u, s.flags) && !AtBoot(u)
    ensures PcInv(u, ThreadStep(pc, s, ok).1, Note(pc, s, ok, h))
  {
  }

  /** No step disturbs the assertion of a compatible thread. */
  lemma StepLeavesOther(pc: Pc, u: Pc, s: Shared, ok: bool, h: History)
    requires Sound(pc, s, h) && StepAllowed(pc, ok) && !AtBoot(pc)
    requires PcInv(u, s, h) && Compatible(pc, u, s.flags) && !AtBoot(u)
    ensures PcInv(u, ThreadStep(pc, s, ok).1, Note(pc, s, ok, h))
  {
    match pc
    case Watch(_) => WatchLeavesOther(pc, u, s, ok, h);
    case Revert(_, _, _, _) => RevertLeavesOther(pc, u, s, ok, h);
    case Call(_, _) => CallLeavesOther(pc, u, s, ok, h);
    case Apply(_, _) => ApplyLeavesOther(pc, u, s, ok, h);
    case Leave(_, _) => LeaveLeavesOther(pc, u, s, ok, h);
    case _ =>
  }

  /** Two bystanders stay compatible: the flags only ever settle. */
  lemma StepKeepsOthers(pc: Pc, u: Pc, v: Pc, s: Shared, ok: bool)
    requires Compatible(u, v, s.flags) && !AtBoot(pc)
    ensures Compatible(u, v, ThreadStep(pc, s, ok).1.flags)
  {
  }

  lemma ResolvingKeepsPair(pc: Pc, u: Pc, s: Shared, ok: bool, h: History)
    requires Sound(pc, s, h) && Resolving(pc)
    requires PcInv(u, s, h) && Compatible(pc, u, s.flags) && !AtBoot(u)
    ensures Compatible(ThreadStep(pc, s, ok).0, u, ThreadStep(pc, s, ok).1.flags)
  {
  }

  lemma WatchKeepsPair(pc: Pc, u: Pc, s: Shared, ok: bool, h: History)
    requires Sound(pc, s, h) && pc.Watch? && !Resolving(pc)
    requires PcInv(u, s, h) && Compatible(pc, u, s.flags) && !AtBoot(u)
    ensures Compatible(ThreadStep(pc, s, ok).0, u, ThreadStep(pc, s, ok).1.flags)
  {
  }

  lemma RevertKeepsPair(pc: Pc, u: Pc, s: Shared, ok: bool, h: History)
    requires Sound(pc, s, h) && pc.Revert? && !AtBoot(pc)
    requires PcInv(u, s, h) && Compatible(pc, u, s.flags) && !AtBoot(u)
    requires Checking(pc) && pc.req.origin.Orchestrated? ==> u != Watch(ConfirmPrev)
    ensures Compatible(ThreadStep(pc, s, ok).0, u, ThreadStep(pc, s, ok).1.flags)
  {
  }

  lemma CallKeepsPair(pc: Pc, u: Pc, s: Shared, ok: bool, h: History)
    requires Sound(pc, s, h) && pc.Call? && !AtBoot(pc)
    requires PcInv(u, s, h) && Compatible(pc, u, s.flags) && !AtBoot(u)
    requires Checking(pc) && pc.req.origin.Orchestrated? ==> u != Watch(ConfirmPrev)
    ensures Compatible(ThreadStep(pc, s, ok).0, u, ThreadStep(pc, s, ok).1.flags)
  {
  }

  lemma ApplyKeepsPair(pc: Pc, u: Pc, s: Shared, ok: bool, h: History)
    requires Sound(pc, s, h) && pc.Apply? && !AtBoot(pc)
    requires PcInv(u, s, h) && Compatible(pc, u, s.flags) && !AtBoot(u)
    requires Checking(pc) && pc.req.origin.Orchestrated? ==> u != Watch(ConfirmPrev)
    ensures Compatible(ThreadStep(pc, s, ok).0, u, ThreadStep(pc, s, ok).1.flags)
  {
  }

  lemma LeaveKeepsPair(pc: Pc, u: Pc, s: Shared, ok: bool, h: History)
    requires Sound(pc, s, h) && pc.Leave? && !AtBoot(pc)
    requires PcInv(u, s, h) && Compatible(pc, u, s.flags) && !AtBoot(u)
    requires Checking(pc) && pc.req.origin.Orchestrated? ==> u != Watch(ConfirmPrev)
    ensures Compatible(ThreadStep(pc, s, ok).0, u, ThreadStep(pc, s, ok).1.flags)
  {
  }

  /** No step makes two compatible threads clash. */
  lemma StepKeepsPair(pc: Pc, u: Pc, s: Shared, ok: bool, h: History)
    requires Sound(pc, s, h) && !AtBoot(pc)
    requires PcInv(u, s, h) && Compatible(pc, u, s.flags) && !AtBoot(u)
    requires Checking(pc) && pc.req.origin.Orchestrated? ==> u != Watch(ConfirmPrev)
    ensures Compatible(ThreadStep(pc, s, ok).0, u, ThreadStep(pc, s, ok).1.flags)
  {
    match pc
    case Watch(_) =>
      if Resolving(pc) {
        ResolvingKeepsPair(pc, u, s, ok, h);
      } else {
        WatchKeepsPair(pc, u, s, ok, h);
      }
    case Revert(_, _, _, _) => RevertKeepsPair(pc, u, s, ok, h);
    case Call(_, _) => CallKeepsPair(pc, u, s, ok, h);
    case Apply(_, _) => ApplyKeepsPair(pc, u, s, ok, h);
    case Leave(_, _) => LeaveKeepsPair(pc, u, s, ok, h);
    case _ =>
  }
}
