/** Runs of the machine from beginning to end: that it gets where the theorems speak
    of, and the stories of an update that succeeds and of one that is undone. */
module UpdateStories {
  import opened Options
  import opened UpdateMarker
  import opened WatchdogCore
  import opened UpdateProtocol
  import opened UpdateRuns
  import opened UpdateDiscipline
  import UpdateTheorems
  import UpdateTrials

  // ---- the machine gets there ------------------------------------------------------------

  /** A device at rest. */
  const AT_REST := State(
    Shared(Disk(Whole(Binary("1", 0)), None, None, None, None, None), FreshFlags(Binary("1", 0)), 0), Down,
    History([], Binary("1", 0), 0, 0, 0, 0, 0))

  /** From rest, a run that leaves a new binary on trial. */
  lemma TrialIsReached() returns (es: seq<Event>, s: State)
    ensures Init(AT_REST) && DisciplinedRun(AT_REST, es) && Exec(AT_REST, es) == Some(s)
    ensures Inv(s) && s.proc.Down? && OnTrial(s.shared.disk) && s.shared.disk.marker.value.attempts == 0
  {
    var req := Request("2", Binary("2", 0), 90, Orchestrated);
    var b := BootNext(true);
    var s1 := Next(AT_REST, Start).value;
    var s2 := Next(s1, b).value;
    var s3 := Next(s2, b).value;
    es := [];
    Extend(AT_REST, es, AT_REST, Start); es := es + [Start];
    Extend(AT_REST, es, s1, b); es := es + [b];
    Extend(AT_REST, es, s2, b); es := es + [b];
    var fs, s4 := OrderIsApplied(s3, 0, req);
    RunAppend(AT_REST, es, s3, fs);
    es := es + fs;
    Extend(AT_REST, es, s4, Die);
    es, s := es + [Die], Next(s4, Die).value;
    RunKeepsInv(AT_REST, es);
  }

  /** An orchestrated update of an idle agent gets to its marker check. */
  lemma OrderIsChecked(s: State, t: nat, req: Request) returns (es: seq<Event>, s': State)
    requires s.proc.Live? && t !in s.proc.threads && req.origin.Orchestrated? && !s.shared.flags.inProgress
    requires req.version != "" && req.version != s.shared.flags.running.version
    ensures DisciplinedRun(s, es) && Exec(s, es) == Some(s')
    ensures s'.proc == Live(s.proc.threads[t := Apply(ApCheck, req)])
    ensures s'.shared == s.shared.(flags := s.shared.flags.(inProgress := true))
  {
    var e := Step(t, true);
    var s1 := Next(s, Orchestrate(t, req)).value;
    var s2 := Next(s1, e).value;
    s' := Next(s2, e).value;
    es := [];
    Extend(s, es, s, Orchestrate(t, req)); es := es + [Orchestrate(t, req)];
    Extend(s, es, s1, e); es := es + [e];
    Extend(s, es, s2, e); es := es + [e];
  }

  /** And, alone, to its swap. */
  lemma OrderIsApplied(s: State, t: nat, req: Request) returns (es: seq<Event>, s': State)
    requires s.proc == Live(map[]) && req.origin.Orchestrated?
    requires s.shared.disk.marker.None? && !s.shared.flags.inProgress
    requires req.version != "" && req.version != s.shared.flags.running.version && req.image.version == req.version
    ensures DisciplinedRun(s, es) && Exec(s, es) == Some(s') && s'.proc.Live?
    ensures OnTrial(s'.shared.disk) && s'.shared.disk.marker.value.attempts == 0
  {
    var s1, fs;
    es, s1 := OrderIsChecked(s, t, req);
    Extend(s, es, s1, Step(t, true));
    es := es + [Step(t, true)];
    var s2 := Advance(s1, t, true);
    fs, s' := ApplyCompletes(s2, t, ApSessions, req);
    RunAppend(s, es, s2, fs);
    es := es + fs;
  }

  /** So states with a binary on trial are reachable; and so is the window: a
      confirmation between its two unlinks beside an orchestrated update about to pass
      its marker check, from which the device can be stranded. */
  lemma WindowIsReachable() returns (s: State, c: nat, t: nat, req: Request)
    ensures UpdateTheorems.Reachable(s) && s.proc.Live? && c in s.proc.threads && t in s.proc.threads
    ensures s.proc.threads[c] == Watch(ConfirmPrev) && s.proc.threads[t] == Apply(ApCheck, req)
    ensures req.origin.Orchestrated? && CanStrand(Advance(s, t, true))
  {
    var es, s0 := TrialIsReached();
    var fs, s1 := TrialGoesLive(s0);
    RunAppend(AT_REST, es, s0, fs);
    var gs;
    gs, s, req := WindowFrom(s1);
    RunAppend(AT_REST, es + fs, s1, gs);
    c, t := 1, 2;
    RunKeepsInv(AT_REST, es + fs + gs);
    AdmissionSafeIff(s, t, req);
  }

  lemma WindowFrom(s: State) returns (es: seq<Event>, s': State, req: Request)
    requires Inv(s) && s.proc == Live(map[0 := Watch(DeadlineWait)])
    requires s.shared.flags.armed && !s.shared.flags.resolved && !s.shared.flags.inProgress
    ensures DisciplinedRun(s, es) && Exec(s, es) == Some(s') && s'.proc.Live?
    ensures 1 in s'.proc.threads && s'.proc.threads[1] == Watch(ConfirmPrev)
    ensures 2 in s'.proc.threads && s'.proc.threads[2] == Apply(ApCheck, req)
    ensures req.origin.Orchestrated? && req.image.version == req.version && s'.shared.disk.marker.None?
  {
    var v := OtherVersion(s.shared.flags.running.version, "");
    req := Request(v, Binary(v, 0), 90, Orchestrated);
    var ready := Emit(1, StreamsReady, "");
    var s1 := Next(s, ready).value;
    var es1, s2 := ConfirmReachesWindow(s1, 1);
    var es2;
    es2, s' := OrderIsChecked(s2, 2, req);
    OneEvent(s, ready);
    RunAppend(s, [ready], s1, es1);
    RunAppend(s, [ready] + es1, s2, es2);
    es := [ready] + es1 + es2;
  }

  // ---- complete stories ----------------------------------------------------------------

  /** A start within budget brings the binary on trial up, watched. */
  lemma TrialGoesLive(s: State) returns (es: seq<Event>, s': State)
    requires Inv(s) && s.proc.Down? && OnTrial(s.shared.disk)
    requires s.shared.disk.marker.value.attempts < WATCHDOG_MAX_ATTEMPTS
    ensures DisciplinedRun(s, es) && Exec(s, es) == Some(s') && Inv(s')
    ensures s'.proc == Live(map[0 := Watch(DeadlineWait)]) && s'.shared.flags.armed && !s'.shared.flags.resolved
    ensures !s'.shared.flags.deadlineStop && !s'.shared.flags.inProgress && OnTrial(s'.shared.disk)
    ensures var m := s.shared.disk.marker.value;
            s'.shared.disk == s.shared.disk.(marker := Some(m.(attempts := m.attempts + 1)))
  {
    var b := BootNext(true);
    var s1, s2 := UpdateTrials.TrialStart(s);
    var s3 := Next(s2, b).value;
    NextKeepsInv(s2, b);
    s' := Next(s3, b).value;
    NextKeepsInv(s3, b);
    Extend(s, [], s, Start);
    Extend(s, [] + [Start], s1, b);
    Extend(s, [] + [Start] + [b], s2, b);
    Extend(s, [] + [Start] + [b] + [b], s3, b);
    es := [] + [Start] + [b] + [b] + [b];
  }

  /** From any trial within budget there is a run with one STREAMS_READY that leaves
      the device at rest on the new binary, with neither marker nor backup. */
  lemma HealthyTrialIsConfirmed(s: State) returns (es: seq<Event>, s': State)
    requires Inv(s) && s.proc.Down? && OnTrial(s.shared.disk)
    requires s.shared.disk.marker.value.attempts < WATCHDOG_MAX_ATTEMPTS
    ensures DisciplinedRun(s, es) && Exec(s, es) == Some(s') && Init(s') && Emit(1, StreamsReady, "") in es
    ensures s'.shared.disk == s.shared.disk.(marker := None, prev := None)
  {
    var es0, s0 := TrialGoesLive(s);
    ConfirmDrive(s0.shared);
    var es1, s1 := CallbackThenDie(s0, 6);
    RunAppend(s, es0, s0, es1);
    es, s' := es0 + es1, s1;
  }

  function Ready(): Pc { Watch(WatchEnter(StreamsReady, "")) }

  function Succeed(n: nat): seq<bool> {
    if n == 0 then [] else [true] + Succeed(n - 1)
  }

  lemma {:induction false} SucceedIsTrusting(pc: Pc, s: Shared, n: nat)
    ensures Trusting(pc, s, Succeed(n))
    decreases n
  {
    if n > 0 {
      assert Succeed(n)[1..] == Succeed(n - 1);
      var (pc', s') := ThreadStep(pc, s, true);
      SucceedIsTrusting(pc', s', n - 1);
    }
  }

  lemma DriveSucceeds(pc: Pc, s: Shared, n: nat)
    ensures n > 0 ==>
              Drive(pc, s, Succeed(n)) == Drive(ThreadStep(pc, s, true).0, ThreadStep(pc, s, true).1, Succeed(n - 1))
    ensures n == 0 ==> Drive(pc, s, Succeed(n)) == (pc, s)
  {
  }

  lemma ConfirmDrive(s: Shared)
    requires s.flags.armed && !s.flags.resolved && !s.flags.reportPending
    requires s.flags.marker.prevBinary == PREV_PATH
    ensures Drive(Ready(), s, Succeed(6)).1.disk == s.disk.(marker := None, prev := None)
  {
  }

  /** STREAMS_READY is dispatched as far as `n` actions, and then the process ends. */
  lemma CallbackThenDie(s: State, n: nat) returns (es: seq<Event>, s': State)
    requires s.proc.Live? && 1 !in s.proc.threads
    requires !ConfirmComing(s)
    ensures DisciplinedRun(s, es) && Exec(s, es) == Some(s') && s'.proc.Down? && Emit(1, StreamsReady, "") in es
    ensures s'.shared == Drive(Ready(), s.shared, Succeed(n)).1
  {
    var e := Emit(1, StreamsReady, "");
    var s1 := Next(s, e).value;
    OneEvent(s, e);
    SucceedIsTrusting(Ready(), s.shared, n);
    var s2 := DriveIsRun(s1, 1, Succeed(n));
    var fs := StepsOf(1, Succeed(n));
    RunAppend(s, [e], s1, fs);
    Extend(s, [e] + fs, s2, Die);
    es, s' := [e] + fs + [Die], Next(s2, Die).value;
  }

  lemma RestoreDrive(s: Shared, m: Marker, why: string, k: Caller)
    requires !k.ByBoot? && PrevExists(s.disk, m)
    ensures Drive(Pc.Revert(RevertCheck, m, why, k), s, Succeed(4)).1.disk ==
              s.disk.(install := s.disk.prev.value, prev := None,
                      reverted := Some(Reverted(m.to, m.from, why, s.clock)),
                      marker := Some(m.(phase := RolledBack)))
  {
  }

  lemma RevertDrive(s: Shared)
    requires s.flags.armed && !s.flags.resolved && !s.flags.deadlineStop
    requires PrevExists(s.disk, s.flags.marker)
    ensures var m := s.flags.marker;
            Drive(Watch(DeadlineWait), s, Succeed(7)).1.disk ==
              s.disk.(install := s.disk.prev.value, prev := None,
                      reverted := Some(Reverted(m.to, m.from, "deadline", s.clock)),
                      marker := Some(m.(phase := RolledBack)))
  {
    var p0 := Watch(DeadlineWait);
    var (p1, s1) := ThreadStep(p0, s, true);
    var (p2, s2) := ThreadStep(p1, s1, true);
    var (p3, s3) := ThreadStep(p2, s2, true);
    DriveSucceeds(p0, s, 7);
    DriveSucceeds(p1, s1, 6);
    DriveSucceeds(p2, s2, 5);
    RestoreDrive(s3, s.flags.marker, "deadline", ByDeadline);
  }

  /** From any armed process there is a run in which the deadline thread alone puts the
      replaced binary back and records the revert. */
  lemma DeadlineRestores(s: State) returns (es: seq<Event>, s': State)
    requires Inv(s) && s.proc == Live(map[0 := Watch(DeadlineWait)])
    requires s.shared.flags.armed && !s.shared.flags.resolved && !s.shared.flags.deadlineStop
    ensures DisciplinedRun(s, es) && Exec(s, es) == Some(s') && s'.proc.Down?
    ensures var d := s.shared.disk;
            var m := s.shared.flags.marker;
            && d.marker == Some(m) && d.prev == Some(Whole(s.hist.before))
            && s'.shared.disk == d.(install := d.prev.value, prev := None,
                 reverted := Some(Reverted(m.to, m.from, "deadline", s.shared.clock)),
                 marker := Some(m.(phase := RolledBack)))
  {
    RevertDrive(s.shared);
    SucceedIsTrusting(Watch(DeadlineWait), s.shared, 7);
    var s1 := DriveIsRun(s, 0, Succeed(7));
    Extend(s, StepsOf(0, Succeed(7)), s1, Die);
    es, s' := StepsOf(0, Succeed(7)) + [Die], Next(s1, Die).value;
  }

  lemma ReportDrive(s: Shared)
    requires !s.flags.armed && s.flags.reportPending && !s.flags.resolved
    ensures Drive(Ready(), s, Succeed(3)).1.disk == s.disk.(marker := None)
  {
  }

  /** From any rolled-back device at rest there is a run that reports the rollback and
      clears the marker. */
  lemma ReportClears(s: State) returns (es: seq<Event>, s': State)
    requires s.proc.Down? && s.shared.disk.install.Whole?
    requires s.shared.disk.marker.Some? && s.shared.disk.marker.value.phase.RolledBack?
    ensures DisciplinedRun(s, es) && Exec(s, es) == Some(s') && s'.proc.Down?
    ensures s'.shared.disk == s.shared.disk.(marker := None)
  {
    var b := BootNext(true);
    var s1 := Next(s, Start).value;
    var s2 := Next(s1, b).value;
    var s3 := Next(s2, b).value;
    Extend(s, [], s, Start);
    Extend(s, [] + [Start], s1, b);
    Extend(s, [] + [Start] + [b], s2, b);
    ReportDrive(s3.shared);
    var fs, s4 := CallbackThenDie(s3, 3);
    RunAppend(s, [] + [Start] + [b] + [b], s3, fs);
    es, s' := [] + [Start] + [b] + [b] + fs, s4;
  }

  /** From any trial within budget there is a run that undoes the update: it ends at
      rest with the very binary the swap replaced, and a record that names the version.
      (That no run without STREAMS_READY ends otherwise is
      `UpdateTrials.UnreadyUpdateIsUndone`.) */
  lemma FailedTrialIsUndone(s: State) returns (es: seq<Event>, s': State)
    requires Inv(s) && s.proc.Down? && OnTrial(s.shared.disk)
    requires s.shared.disk.marker.value.attempts < WATCHDOG_MAX_ATTEMPTS
    ensures DisciplinedRun(s, es) && Exec(s, es) == Some(s') && Init(s')
    ensures s'.shared.disk.install == Whole(s.hist.before) && s'.shared.disk.prev.None?
    ensures s'.shared.disk.reverted.Some? && s'.shared.disk.reverted.value.version == s.shared.disk.marker.value.to
  {
    var es1, s1 := TrialGoesLive(s);
    var es2, s2 := DeadlineRestores(s1);
    var es3, s3 := ReportClears(s2);
    RunAppend(s, es1, s1, es2);
    RunAppend(s, es1 + es2, s2, es3);
    es, s' := es1 + es2 + es3, s3;
  }
}
