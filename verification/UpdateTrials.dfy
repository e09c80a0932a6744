/** A binary on trial, from the swap that put it there: over every run it is still on
    trial, or confirmed, or gone; and it is started only so often. */
module UpdateTrials {
  import opened Options
  import opened UpdateMarker
  import opened WatchdogCore
  import opened UpdateProtocol
  import opened UpdateInvariant
  import opened UpdateRuns
  import opened UpdateTheorems

  // ---- three fates -----------------------------------------------------------------

  /** The step that ends a trial in favour of the new binary. */
  predicate Confirmation(s: State, e: Event) {
    e.Step? && s.proc.Live? && e.t in s.proc.threads && s.proc.threads[e.t] == Watch(ConfirmMarker)
  }

  predicate ConfirmedIn(s: State, es: seq<Event>)
    decreases |es|
  {
    es != [] &&
    (Confirmation(s, es[0]) || (Next(s, es[0]).Some? && ConfirmedIn(Next(s, es[0]).value, es[1..])))
  }

  /** A new binary that replaced an old one is confirmed and stays; or on trial with
      the old one behind it; or gone, the old one back in its place. */
  predicate Fate(d: Disk, before: Binary, after: Binary, confirmed: bool) {
    if confirmed then d.install == Whole(after) && !OnTrial(d)
    else if OnTrial(d) then d.install == Whole(after) && d.prev == Some(Whole(before))
    else d.install == Whole(before)
  }

  lemma ThreadKeepsFate(pc: Pc, s: Shared, ok: bool, h: History, after: Binary, confirmed: bool)
    requires Sound(pc, s, h) && StepAllowed(pc, ok) && Fate(s.disk, h.before, after, confirmed)
    requires !(pc.Apply? && pc.a.ApSwap? && ok && s.disk.staged.Some?)
    ensures Note(pc, s, ok, h).before == h.before
    ensures Fate(ThreadStep(pc, s, ok).1.disk, h.before, after, confirmed || pc == Watch(ConfirmMarker))
  {
  }

  lemma EventKeepsFate(s: State, e: Event, after: Binary, confirmed: bool)
    requires Inv(s) && Disciplined(s, e) && Next(s, e).Some? && !Swaps(s, e)
    requires Fate(s.shared.disk, s.hist.before, after, confirmed)
    ensures Next(s, e).value.hist.before == s.hist.before
    ensures Fate(Next(s, e).value.shared.disk, s.hist.before, after, confirmed || Confirmation(s, e))
  {
    match e
    case Step(t, ok) => ThreadKeepsFate(s.proc.threads[t], s.shared, ok, s.hist, after, confirmed);
    case BootNext(ok) =>
      if s.proc.pc != Boot(BootExit) {
        ThreadKeepsFate(s.proc.pc, s.shared, ok, s.hist, after, confirmed);
      }
    case _ =>
  }

  lemma {:induction false} RunKeepsFate(s: State, es: seq<Event>, after: Binary, confirmed: bool)
    requires Inv(s) && DisciplinedRun(s, es) && SwapFree(s, es)
    requires Fate(s.shared.disk, s.hist.before, after, confirmed)
    ensures Exec(s, es).Some?
    ensures Fate(Exec(s, es).value.shared.disk, s.hist.before, after, confirmed || ConfirmedIn(s, es))
    decreases |es|
  {
    if es != [] {
      EventKeepsFate(s, es[0], after, confirmed);
      NextKeepsInv(s, es[0]);
      RunKeepsFate(Next(s, es[0]).value, es[1..], after, confirmed || Confirmation(s, es[0]));
    }
  }

  /** The swap of a binary that reports the version announced. */
  predicate PutsOnTrial(s: State, e: Event) {
    Swaps(s, e) && s.proc.threads[e.t].req.image.version == s.proc.threads[e.t].req.version
  }

  lemma SwapStartsTrial(s: State, e: Event)
    requires Inv(s) && Disciplined(s, e) && PutsOnTrial(s, e)
    ensures var s1 := Next(s, e).value;
            && Inv(s1) && s.shared.disk.install == Whole(s1.hist.before)
            && s1.hist.starts == 0 && Faults(s1.hist) == 0 && !ConfirmComing(s1)
            && Fate(s1.shared.disk, s1.hist.before, s.proc.threads[e.t].req.image, false)
            && OnTrial(s1.shared.disk)
  {
    NextKeepsInv(s, e);
    var threads := s.proc.threads;
    assert PcInv(threads[e.t], s.shared, s.hist);
    forall t | t in threads && t != e.t
      ensures !Confirms(threads[t])
    {
      assert Compatible(threads[e.t], threads[t], s.shared.flags);
    }
  }

  /** From a swap on, along every run to the next: the trial ends in favour of the new
      binary exactly by a confirmation, after which it stays installed; and without
      one the new binary is either still on trial, with the very file it replaced
      behind it, or gone, with that file back in place. */
  lemma TrialHasOneFate(s: State, e: Event, es: seq<Event>)
    requires Reachable(s) && PutsOnTrial(s, e)
    requires DisciplinedRun(s, [e] + es) && SwapFree(Next(s, e).value, es)
    ensures Exec(s, [e] + es).Some?
    ensures var d := Exec(s, [e] + es).value.shared.disk;
            var was, req := s.shared.disk.install, s.proc.threads[e.t].req;
            if ConfirmedIn(Next(s, e).value, es) then d.install == Whole(req.image) && !OnTrial(d)
            else if OnTrial(d) then d.install == Whole(req.image) && d.prev == Some(was)
            else d.install == was
  {
    assert ([e] + es)[1..] == es;
    ReachableInv(s);
    SwapStartsTrial(s, e);
    RunKeepsFate(Next(s, e).value, es, s.proc.threads[e.t].req.image, false);
  }

  // ---- what confirms -------------------------------------------------------------------

  /** STREAMS_READY reaches a process whose trial is undecided. */
  predicate ReadyOnTrial(s: State, e: Event) {
    e.Emit? && e.st == StreamsReady && s.shared.flags.armed && !s.shared.flags.resolved
  }

  predicate NeverReady(s: State, es: seq<Event>)
    decreases |es|
  {
    es == [] || (!ReadyOnTrial(s, es[0]) && (Next(s, es[0]).Some? ==> NeverReady(Next(s, es[0]).value, es[1..])))
  }

  lemma StepStaysUnconfirmed(s: State, t: nat, ok: bool)
    requires Inv(s) && s.proc.Live? && t in s.proc.threads && !ConfirmComing(s)
    ensures !ConfirmComing(Advance(s, t, ok))
  {
    var s' := Advance(s, t, ok);
    assert PcInv(s.proc.threads[t], s.shared, s.hist);
    forall u | u in s'.proc.threads
      ensures !Confirms(s'.proc.threads[u])
      ensures s'.shared.flags.armed && !s'.shared.flags.resolved ==> !ReadyComing(s'.proc.threads[u])
    {
      assert u != t ==> s'.proc.threads[u] == s.proc.threads[u];
    }
  }

  lemma EventStaysUnconfirmed(s: State, e: Event)
    requires Inv(s) && Disciplined(s, e) && Next(s, e).Some? && !ConfirmComing(s) && !ReadyOnTrial(s, e)
    ensures !ConfirmComing(Next(s, e).value) && !Confirmation(s, e)
  {
    match e
    case Step(t, ok) => StepStaysUnconfirmed(s, t, ok);
    case _ =>
  }

  lemma {:induction false} NeverReadyNeverConfirmed(s: State, es: seq<Event>)
    requires Inv(s) && DisciplinedRun(s, es) && !ConfirmComing(s) && NeverReady(s, es)
    ensures !ConfirmedIn(s, es)
    decreases |es|
  {
    if es != [] {
      EventStaysUnconfirmed(s, es[0]);
      NextKeepsInv(s, es[0]);
      NeverReadyNeverConfirmed(Next(s, es[0]).value, es[1..]);
    }
  }

  /** An update that never reaches STREAMS_READY, along every run to the next swap: it
      is still on trial, or undone. */
  lemma UnreadyUpdateIsUndone(s: State, e: Event, es: seq<Event>)
    requires Reachable(s) && PutsOnTrial(s, e)
    requires DisciplinedRun(s, [e] + es) && SwapFree(Next(s, e).value, es) && NeverReady(Next(s, e).value, es)
    ensures Exec(s, [e] + es).Some?
    ensures var d := Exec(s, [e] + es).value.shared.disk;
            if OnTrial(d) then d.prev == Some(s.shared.disk.install) else d.install == s.shared.disk.install
  {
    assert ([e] + es)[1..] == es;
    ReachableInv(s);
    SwapStartsTrial(s, e);
    NeverReadyNeverConfirmed(Next(s, e).value, es);
    TrialHasOneFate(s, e, es);
  }

  // ---- how an outcome ends -------------------------------------------------------------

  /** Whenever a confirmation makes its last unlink, and it works, the device is at
      rest on the running binary: no marker and no backup. */
  lemma ConfirmedIsAtRest(s: State, t: nat)
    requires Reachable(s) && s.proc.Live? && t in s.proc.threads && s.proc.threads[t] == Watch(ConfirmPrev)
    ensures var d := Advance(s, t, true).shared.disk;
            && d == s.shared.disk.(prev := None) && d.marker.None?
            && d.install == Whole(s.shared.flags.running)
            && s.shared.flags.running.version == s.shared.flags.marker.to
  {
    ReachableInv(s);
  }

  /** Whenever a rollback, at start or at run time, makes its rename, the replaced
      binary is back if it works, and the trial goes on as it was if it does not. */
  lemma RenameRestores(s: State, pc: Pc, ok: bool)
    requires Reachable(s) && Runs(s, pc) && pc.Revert? && pc.r.RevertRename?
    ensures var d, d' := s.shared.disk, ThreadStep(pc, s.shared, ok).1.disk;
            if ok then d' == d.(install := Whole(s.hist.before), prev := None) && !OnTrial(d')
            else d' == d && OnTrial(d)
  {
    ReachableInv(s);
  }

  /** Whenever the report path unlinks the marker, and it works, nothing is owed any
      more and the running binary is the installed one. */
  lemma ReportedIsAtRest(s: State, t: nat)
    requires Reachable(s) && s.proc.Live? && t in s.proc.threads && s.proc.threads[t] == Watch(ReportMarker)
    ensures var d := Advance(s, t, true).shared.disk;
            && d == s.shared.disk.(marker := None) && d.install == Whole(s.shared.flags.running)
            && s.shared.disk.marker.Some? && s.shared.disk.marker.value.phase.RolledBack?
  {
    ReachableInv(s);
  }

  // ---- how often it is started -----------------------------------------------------------

  /** What can cost a start without the budget paying for it. */
  function Faults(h: History): nat {
    h.lostWrites + h.failedReverts + h.earlyDeaths
  }

  predicate Bounded(h: History) {
    h.starts <= WATCHDOG_MAX_ATTEMPTS + 1 + Faults(h)
  }

  lemma EventKeepsBounded(s: State, e: Event)
    requires Inv(s) && Disciplined(s, e) && Next(s, e).Some? && Bounded(s.hist)
    ensures Bounded(Next(s, e).value.hist)
  {
    NextKeepsInv(s, e);
  }

  lemma {:induction false} RunKeepsBounded(s: State, es: seq<Event>)
    requires Inv(s) && DisciplinedRun(s, es) && Bounded(s.hist)
    ensures Exec(s, es).Some? && Bounded(Exec(s, es).value.hist)
    decreases |es|
  {
    if es != [] {
      EventKeepsBounded(s, es[0]);
      NextKeepsInv(s, es[0]);
      RunKeepsBounded(Next(s, es[0]).value, es[1..]);
    }
  }

  lemma OnTrialBudget(s: State)
    requires Inv(s) && OnTrial(s.shared.disk)
    ensures s.shared.disk.marker.value.attempts <= WATCHDOG_MAX_ATTEMPTS
    ensures s.hist.starts <= s.shared.disk.marker.value.attempts + Faults(s.hist) + if s.proc.Booting? then 1 else 0
    ensures !s.proc.Booting? ==> s.hist.starts == s.shared.disk.marker.value.attempts + Faults(s.hist)
  {
  }

  /** From a swap on, along every run to the next in which the new binary is not
      confirmed: it is started at most once more than the budget, faults aside; while
      it is on trial the attempts on disk account for every start; and once the budget
      is used up, the start that found it so being over, the binary it replaced is
      back. A fault is a count that did not reach the disk, a restore that failed, or
      a death before check_boot was done. */
  lemma CrashLoopBound(s: State, e: Event, es: seq<Event>)
    requires Reachable(s) && PutsOnTrial(s, e)
    requires DisciplinedRun(s, [e] + es) && SwapFree(Next(s, e).value, es) && !ConfirmedIn(Next(s, e).value, es)
    ensures Exec(s, [e] + es).Some?
    ensures var end := Exec(s, [e] + es).value;
            var d, h := end.shared.disk, end.hist;
            && h.starts <= 4 + Faults(h)
            && (OnTrial(d) || d.install == s.shared.disk.install)
            && (OnTrial(d) ==> d.marker.value.attempts <= 3)
            && (OnTrial(d) && !end.proc.Booting? ==> h.starts == d.marker.value.attempts + Faults(h))
            && (!end.proc.Booting? && h.starts > 3 + Faults(h) ==>
                  d.install == s.shared.disk.install)
  {
    assert ([e] + es)[1..] == es;
    ReachableInv(s);
    SwapStartsTrial(s, e);
    var s1 := Next(s, e).value;
    RunKeepsInv(s1, es);
    RunKeepsBounded(s1, es);
    TrialHasOneFate(s, e, es);
    var end := Exec(s1, es).value;
    if OnTrial(end.shared.disk) {
      OnTrialBudget(end);
    }
  }

  /** An event that costs a start. */
  predicate Faulty(s: State, e: Event) {
    s.proc.Booting? &&
    ( || (e.BootNext? && !e.ok && s.proc.pc.Boot? && s.proc.pc.b.BootArm?)
      || (e.BootNext? && !e.ok && s.proc.pc.Revert? && s.proc.pc.r.RevertRename?)
      || (e.Die? && Undecided(s.proc.pc)))
  }

  predicate FaultFree(s: State, es: seq<Event>)
    decreases |es|
  {
    es == [] || (!Faulty(s, es[0]) && (Next(s, es[0]).Some? ==> FaultFree(Next(s, es[0]).value, es[1..])))
  }

  lemma EventKeepsFaults(s: State, e: Event)
    requires Inv(s) && Disciplined(s, e) && Next(s, e).Some? && !Swaps(s, e) && !Faulty(s, e)
    ensures Faults(Next(s, e).value.hist) == Faults(s.hist)
  {
    if e.Step? {
      assert PcInv(s.proc.threads[e.t], s.shared, s.hist);
    }
  }

  lemma {:induction false} RunKeepsFaults(s: State, es: seq<Event>)
    requires Inv(s) && DisciplinedRun(s, es) && SwapFree(s, es) && FaultFree(s, es)
    ensures Exec(s, es).Some? && Faults(Exec(s, es).value.hist) == Faults(s.hist)
    decreases |es|
  {
    if es != [] {
      EventKeepsFaults(s, es[0]);
      NextKeepsInv(s, es[0]);
      RunKeepsFaults(Next(s, es[0]).value, es[1..]);
    }
  }

  /** The crash loop bound. Along every run after a swap in which the counts reach the
      disk, the restoring rename works, no process dies before check_boot is done, and
      the new binary never reaches STREAMS_READY, whenever and however it dies: it is
      started at most four times, and once it has been, the binary it replaced is
      back. */
  lemma CrashLoopEnds(s: State, e: Event, es: seq<Event>)
    requires Reachable(s) && PutsOnTrial(s, e)
    requires DisciplinedRun(s, [e] + es) && SwapFree(Next(s, e).value, es)
    requires NeverReady(Next(s, e).value, es) && FaultFree(Next(s, e).value, es)
    ensures Exec(s, [e] + es).Some?
    ensures var end := Exec(s, [e] + es).value;
            && end.hist.starts <= 4
            && (OnTrial(end.shared.disk) && !end.proc.Booting? ==>
                  end.hist.starts == end.shared.disk.marker.value.attempts)
            && (end.hist.starts == 4 && !end.proc.Booting? ==>
                  end.shared.disk.install == s.shared.disk.install)
  {
    assert ([e] + es)[1..] == es;
    ReachableInv(s);
    SwapStartsTrial(s, e);
    NeverReadyNeverConfirmed(Next(s, e).value, es);
    CrashLoopBound(s, e, es);
    RunKeepsFaults(Next(s, e).value, es);
  }

  // ---- two extremes ------------------------------------------------------------------------

  /** One start that is counted and then dies. */
  const CRASH: seq<Event> := [Start, BootNext(true), BootNext(true), BootNext(true), Die]

  /** A start over budget, up to the restored binary and its two records. */
  const REVERTING_START: seq<Event> :=
    [Start, BootNext(true), BootNext(true), BootNext(true), BootNext(true), BootNext(true)]

  function CrashLoop(n: nat): seq<Event> {
    if n == 0 then REVERTING_START else CRASH + CrashLoop(n - 1)
  }

  lemma FiveSteps(s: State, s1: State, s2: State, s3: State, s4: State, s5: State, es: seq<Event>, rest: seq<Event>)
    requires |es| == 5
    requires Next(s, es[0]) == Some(s1) && Next(s1, es[1]) == Some(s2) && Next(s2, es[2]) == Some(s3)
    requires Next(s3, es[3]) == Some(s4) && Next(s4, es[4]) == Some(s5)
    ensures Exec(s, es + rest) == Exec(s5, rest)
  {
    var all := es + rest;
    assert all[0] == es[0] && all[1..][0] == es[1] && all[2..][0] == es[2];
    assert all[3..][0] == es[3] && all[4..][0] == es[4];
    assert all[1..][1..] == all[2..] && all[2..][1..] == all[3..] && all[3..][1..] == all[4..] && all[4..][1..] == rest;
    assert Exec(s, all) == Exec(s1, all[1..]);
    assert Exec(s1, all[1..]) == Exec(s2, all[2..]);
    assert Exec(s2, all[2..]) == Exec(s3, all[3..]);
    assert Exec(s3, all[3..]) == Exec(s4, all[4..]);
  }

  /** A start on trial reaches the decision the attempt count asks for. */
  lemma TrialStart(s: State) returns (s1: State, s2: State)
    requires Inv(s) && s.proc.Down? && OnTrial(s.shared.disk)
    ensures Next(s, Start) == Some(s1) && Next(s1, BootNext(true)) == Some(s2)
    ensures Inv(s1) && Inv(s2) && s2.shared.disk == s.shared.disk && s2.hist.before == s.hist.before
    ensures var m := s.shared.disk.marker.value;
            var counted := m.(attempts := m.attempts + 1);
            s2.proc == Booting(if m.attempts < WATCHDOG_MAX_ATTEMPTS
                               then Boot(BootArm(counted))
                               else Pc.Revert(RevertCheck, counted, "crash_loop", ByBoot))
  {
    s1 := Next(s, Start).value;
    NextKeepsInv(s, Start);
    s2 := Next(s1, BootNext(true)).value;
    NextKeepsInv(s1, BootNext(true));
  }

  lemma OneCrash(s: State, rest: seq<Event>) returns (s5: State)
    requires Inv(s) && s.proc.Down? && OnTrial(s.shared.disk)
    requires s.shared.disk.marker.value.attempts < WATCHDOG_MAX_ATTEMPTS
    ensures Exec(s, CRASH + rest) == Exec(s5, rest)
    ensures Inv(s5) && s5.proc.Down? && s5.hist.before == s.hist.before
    ensures var m := s.shared.disk.marker.value;
            s5.shared.disk == s.shared.disk.(marker := Some(m.(attempts := m.attempts + 1)))
  {
    var s1, s2 := TrialStart(s);
    var s3 := Next(s2, BootNext(true)).value;
    BootKeepsInv(s2, true);
    var s4 := Next(s3, BootNext(true)).value;
    BootKeepsInv(s3, true);
    s5 := Next(s4, Die).value;
    StartKeepsInv(s4, Die);
    FiveSteps(s, s1, s2, s3, s4, s5, CRASH, rest);
  }

  lemma RevertingStart(s: State) returns (s6: State)
    requires Inv(s) && s.proc.Down? && OnTrial(s.shared.disk)
    requires s.shared.disk.marker.value.attempts == WATCHDOG_MAX_ATTEMPTS
    ensures Exec(s, REVERTING_START) == Some(s6)
    ensures var m := s.shared.disk.marker.value;
            && s6.shared.disk.install == Whole(s.hist.before)
            && s6.shared.disk.marker == Some(m.(phase := RolledBack, attempts := WATCHDOG_MAX_ATTEMPTS + 1))
            && s6.shared.disk.reverted == Some(Reverted(m.to, m.from, "crash_loop", s.shared.clock))
  {
    var s1, s2 := TrialStart(s);
    var s3 := Next(s2, BootNext(true)).value;
    var s4 := Next(s3, BootNext(true)).value;
    var s5 := Next(s4, BootNext(true)).value;
    s6 := Next(s5, BootNext(true)).value;
    FiveSteps(s, s1, s2, s3, s4, s5, REVERTING_START[..5], REVERTING_START[5..]);
    assert REVERTING_START[..5] + REVERTING_START[5..] == REVERTING_START;
    assert Exec(s5, REVERTING_START[5..]) == Some(s6);
  }

  /** The shortest crash loop: a binary that dies at every start as soon as it is
      counted is gone after its remaining budget and one start more, and the revert is
      recorded. */
  lemma {:induction false} ShortestCrashLoop(s: State)
    requires Inv(s) && s.proc.Down? && OnTrial(s.shared.disk)
    ensures var m := s.shared.disk.marker.value;
            var end := Exec(s, CrashLoop(WATCHDOG_MAX_ATTEMPTS - m.attempts));
            && end.Some? && end.value.shared.disk.install == Whole(s.hist.before)
            && end.value.shared.disk.marker ==
                 Some(m.(phase := RolledBack, attempts := WATCHDOG_MAX_ATTEMPTS + 1))
            && end.value.shared.disk.reverted.Some?
            && end.value.shared.disk.reverted.value.version == m.to
            && end.value.shared.disk.reverted.value.reason == "crash_loop"
    decreases WATCHDOG_MAX_ATTEMPTS - s.shared.disk.marker.value.attempts
  {
    var m := s.shared.disk.marker.value;
    var left := WATCHDOG_MAX_ATTEMPTS - m.attempts;
    if left == 0 {
      var _ := RevertingStart(s);
    } else {
      var s1 := OneCrash(s, CrashLoop(left - 1));
      ShortestCrashLoop(s1);
    }
  }

  function EarlyDeaths(n: nat): seq<Event> {
    if n == 0 then [] else [Start, Die] + EarlyDeaths(n - 1)
  }

  /** The budget counts the starts that reach check_boot, not starts as such: a
      binary that dies before it can be started any number of times. */
  lemma {:induction false} EarlyDeathsAreNotCounted(s: State, n: nat)
    requires Inv(s) && s.proc.Down? && OnTrial(s.shared.disk)
    ensures var end := Exec(s, EarlyDeaths(n));
            && end.Some? && end.value.proc.Down? && end.value.shared.disk == s.shared.disk
            && end.value.hist.starts == s.hist.starts + n
    decreases n
  {
    if n > 0 {
      var es := EarlyDeaths(n);
      var s1 := Next(s, Start).value;
      var s2 := Next(s1, Die).value;
      NextKeepsInv(s, Start);
      NextKeepsInv(s1, Die);
      assert es[0] == Start && es[1..][0] == Die && es[1..][1..] == EarlyDeaths(n - 1);
      EarlyDeathsAreNotCounted(s2, n - 1);
    }
  }
}
