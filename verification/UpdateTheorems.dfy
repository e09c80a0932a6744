/** What the protocol guarantees, on every run from a device at rest that keeps
    the discipline of `UpdateProtocol.Disciplined`. */
module UpdateTheorems {
  import opened Options
  import opened UpdateMarker
  import opened WatchdogCore
  import opened UpdateProtocol
  import opened UpdateInvariant
  import opened UpdateRuns

  /** Some disciplined run from a device at rest ends here. */
  ghost predicate Reachable(s: State) {
    exists s0: State, es: seq<Event> :: Init(s0) && DisciplinedRun(s0, es) && Exec(s0, es) == Some(s)
  }

  lemma ReachableInv(s: State)
    requires Reachable(s)
    ensures Inv(s)
  {
    var s0: State, es: seq<Event> :| Init(s0) && DisciplinedRun(s0, es) && Exec(s0, es) == Some(s);
    RunKeepsInv(s0, es);
  }

  // ---- recoverability ---------------------------------------------------------

  /** Wherever the power goes, the installed file is a whole binary, and a binary
      on trial has its whole predecessor beside it, the one the marker names. */
  lemma Recoverability(s: State)
    requires Reachable(s)
    ensures s.shared.disk.install.Whole? && !Stranded(s.shared.disk)
    ensures OnTrial(s.shared.disk) ==>
              && s.shared.disk.prev.Some? && s.shared.disk.prev.value.Whole?
              && s.shared.disk.prev.value.bin.version == s.shared.disk.marker.value.from
  {
    ReachableInv(s);
  }

  /** The step that puts a downloaded binary in place. */
  predicate Swaps(s: State, e: Event) {
    && e.Step? && s.proc.Live? && e.t in s.proc.threads
    && s.proc.threads[e.t].Apply? && s.proc.threads[e.t].a.ApSwap?
    && e.ok && s.shared.disk.staged.Some?
  }

  predicate SwapFree(s: State, es: seq<Event>)
    decreases |es|
  {
    es == [] || (!Swaps(s, es[0]) && (Next(s, es[0]).Some? ==> SwapFree(Next(s, es[0]).value, es[1..])))
  }

  lemma {:induction false} BeforeKept(s: State, es: seq<Event>)
    requires Inv(s) && DisciplinedRun(s, es) && SwapFree(s, es)
    ensures Exec(s, es).Some? && Exec(s, es).value.hist.before == s.hist.before
    decreases |es|
  {
    if es != [] {
      NextKeepsInv(s, es[0]);
      BeforeKept(Next(s, es[0]).value, es[1..]);
    }
  }

  /** The backup is, byte for byte, what the last swap replaced, for as long as
      the new binary is on trial. */
  lemma BackupIsWhatWasReplaced(s: State, e: Event, es: seq<Event>)
    requires Reachable(s) && DisciplinedRun(s, [e] + es) && Swaps(s, e)
    requires SwapFree(Next(s, e).value, es)
    ensures Exec(s, [e] + es).Some?
    ensures var d := Exec(s, [e] + es).value.shared.disk;
            OnTrial(d) ==> d.prev == Some(s.shared.disk.install)
  {
    assert ([e] + es)[1..] == es;
    ReachableInv(s);
    NextKeepsInv(s, e);
    RunKeepsInv(Next(s, e).value, es);
    BeforeKept(Next(s, e).value, es);
  }

  predicate Runs(s: State, pc: Pc) {
    match s.proc
    case Down => false
    case Booting(b) => b == pc
    case Live(threads) => pc in threads.Values
  }

  /** At every rollback the previous binary is there: neither the boot-time nor
      the runtime rollback can find it missing. */
  lemma PreviousNeverMissing(s: State, pc: Pc)
    requires Reachable(s) && Runs(s, pc) && pc.Revert? && (pc.r.RevertCheck? || pc.r.RevertRename?)
    ensures PrevExists(s.shared.disk, pc.m) && s.shared.disk.prev == Some(Whole(s.hist.before))
  {
    ReachableInv(s);
  }

  // ---- version agreement ------------------------------------------------------

  /** A process that is not running the installed binary has a marker on disk. */
  lemma VersionAgreement(s: State)
    requires Reachable(s) && !s.proc.Down?
    ensures s.shared.disk.install != Whole(s.shared.flags.running) ==> s.shared.disk.marker.Some?
  {
    ReachableInv(s);
  }

  /** An apply past its marker check is alone, runs on the installed binary and,
      at the swap, has that binary whole in the backup and named in the marker. */
  lemma AdmittedApply(s: State, t: nat)
    requires Reachable(s) && s.proc.Live? && t in s.proc.threads && AdmittedPc(s.proc.threads[t])
    ensures s.shared.disk.install == Whole(s.shared.flags.running)
    ensures forall u :: u in s.proc.threads && u != t ==>
              !AdmittedPc(s.proc.threads[u]) && !OutcomeWriter(s.proc.threads[u])
    ensures s.proc.threads[t].Apply? && s.proc.threads[t].a.ApSwap? ==>
              && s.shared.disk.prev == Some(Whole(s.shared.flags.running))
              && s.shared.disk.marker.Some?
              && s.shared.disk.marker.value.from == s.shared.flags.running.version
              && s.shared.disk.marker.value.to == s.proc.threads[t].req.version
              && s.shared.disk.marker.value.from != s.shared.disk.marker.value.to
  {
    ReachableInv(s);
    var pc := s.proc.threads[t];
    forall u | u in s.proc.threads && u != t
      ensures !AdmittedPc(s.proc.threads[u]) && !OutcomeWriter(s.proc.threads[u])
    {
      assert Compatible(pc, s.proc.threads[u], s.shared.flags);
    }
  }

  /** The restoring rename fires only over the running binary, and only when that
      binary is the target the marker names. */
  lemma RollbackOverTargetOnly(s: State, pc: Pc)
    requires Reachable(s) && Runs(s, pc) && pc.Revert? && pc.r.RevertRename?
    ensures s.shared.disk.install == Whole(s.shared.flags.running)
    ensures s.shared.flags.running.version == pc.m.to
    ensures s.shared.disk.marker.Some? && s.shared.disk.marker.value.phase.Pending?
    ensures s.shared.disk.marker.value.to == pc.m.to && s.shared.disk.marker.value.from == pc.m.from
  {
    ReachableInv(s);
  }

  // ---- one outcome ------------------------------------------------------------

  predicate Pursues(pc: Pc, o: Outcome) {
    match o
    case Confirmed => pc.Watch? && (pc.w.ConfirmStop? || pc.w.ConfirmMarker? || pc.w.ConfirmPrev?)
    case Reported => pc.Watch? && (pc.w.ReportMarker? || pc.w.ReportClear?)
    case RolledBackOutcome => pc.Revert?
    case NoOutcome => false
  }

  /** However callbacks, the deadline and stop interleave, a process takes at most
      one outcome, by one thread. */
  lemma OneOutcome(s: State)
    requires Reachable(s) && s.proc.Live?
    ensures |s.hist.outcomes| <= 1
    ensures forall t, o :: t in s.proc.threads && Pursues(s.proc.threads[t], o) ==> s.hist.outcomes == [o]
    ensures forall t, u :: t in s.proc.threads && u in s.proc.threads && t != u ==>
              !(Winner(s.proc.threads[t]) && Winner(s.proc.threads[u]))
  {
    ReachableInv(s);
    forall t, u | t in s.proc.threads && u in s.proc.threads && t != u
      ensures !(Winner(s.proc.threads[t]) && Winner(s.proc.threads[u]))
    {
      assert Compatible(s.proc.threads[t], s.proc.threads[u], s.shared.flags);
    }
  }

  predicate StartFree(es: seq<Event>) {
    forall i :: 0 <= i < |es| ==> !es[i].Start?
  }

  /** The outcome once taken is final until the process is started again: no
      rollback follows a confirm, and no confirm follows a rollback, failed or not. */
  lemma {:induction false} OutcomeIsFinal(s: State, es: seq<Event>)
    requires Inv(s) && s.proc.Live? && s.shared.flags.resolved
    requires DisciplinedRun(s, es) && StartFree(es)
    ensures Exec(s, es).Some?
    ensures Exec(s, es).value.hist.outcomes == s.hist.outcomes
    decreases |es|
  {
    if es != [] {
      var s' := Next(s, es[0]).value;
      NextKeepsInv(s, es[0]);
      if s'.proc.Live? {
        OutcomeIsFinal(s', es[1..]);
      } else {
        DownStaysDown(s', es[1..]);
      }
    }
  }

  lemma {:induction false} DownStaysDown(s: State, es: seq<Event>)
    requires s.proc.Down? && StartFree(es) && DisciplinedRun(s, es)
    ensures Exec(s, es).Some? && Exec(s, es).value.hist == s.hist
    decreases |es|
  {
    if es != [] {
      DownStaysDown(Next(s, es[0]).value, es[1..]);
    }
  }

  // ---- the poller and the confirmation ----------------------------------------

  /** No apply that passed its marker check coexists with an unlink still owed by a
      confirmation or a report; and while a confirmation owes one, no automatic cycle
      has even got past the connection. */
  lemma AutoPollCannotOvertake(s: State, t: nat, u: nat)
    requires Reachable(s) && s.proc.Live? && t in s.proc.threads && u in s.proc.threads
    ensures AdmittedPc(s.proc.threads[t]) ==>
              s.proc.threads[u] !in {Watch(ConfirmMarker), Watch(ConfirmPrev), Watch(ReportMarker)}
    ensures AutoPast(s.proc.threads[t]) ==> !Confirms(s.proc.threads[u])
  {
    ReachableInv(s);
    assert t != u ==> Compatible(s.proc.threads[t], s.proc.threads[u], s.shared.flags);
  }

  // ---- flapping -----------------------------------------------------------------

  predicate AutoSwaps(s: State, e: Event, v: string) {
    Swaps(s, e) && s.proc.threads[e.t].req.origin.AutoPoll? && s.proc.threads[e.t].req.version == v
  }

  /** The revert record on disk stays `r` along the run. */
  predicate RecordStays(s: State, es: seq<Event>, r: Reverted)
    decreases |es|
  {
    && s.shared.disk.reverted == Some(r)
    && (es != [] && Next(s, es[0]).Some? ==> RecordStays(Next(s, es[0]).value, es[1..], r))
  }

  /** Every automatic swap to the reverted version along the run comes after a
      missed deadline, and no sooner than the cooldown. */
  predicate OnlyAfterCooldown(s: State, es: seq<Event>, r: Reverted)
    decreases |es|
  {
    es == [] ||
    (&& (AutoSwaps(s, es[0], r.version) ==>
           r.reason == "deadline" && s.shared.clock >= r.at + REVERTED_RETRY_COOLDOWN_S)
     && (Next(s, es[0]).Some? ==> OnlyAfterCooldown(Next(s, es[0]).value, es[1..], r)))
  }

  /** While the record stands, a version reverted for a crash loop or a rejected
      login is never applied by the poller, and one that missed its deadline only
      after the cooldown. */
  lemma {:induction false} NoFlapping(s: State, es: seq<Event>, r: Reverted)
    requires Inv(s) && DisciplinedRun(s, es) && RecordStays(s, es, r)
    ensures OnlyAfterCooldown(s, es, r)
    decreases |es|
  {
    if es != [] {
      var e := es[0];
      if AutoSwaps(s, e, r.version) {
        assert PcInv(s.proc.threads[e.t], s.shared, s.hist);
      }
      NextKeepsInv(s, e);
      NoFlapping(Next(s, e).value, es[1..], r);
    }
  }

  /** The step that writes the revert record of thread `pc`, at start or at run time. */
  predicate Records(s: State, e: Event, pc: Pc) {
    && pc.Revert? && pc.r.RevertRecord?
    && match e
       case BootNext(ok) => ok && s.proc.Booting? && s.proc.pc == pc
       case Step(t, ok) => ok && s.proc.Live? && t in s.proc.threads && s.proc.threads[t] == pc
       case _ => false
  }

  /** What is recorded: the version running, which is the one taken back, and the reason
      by who took it back: a rejected login, a missed deadline or a crash loop. */
  lemma RecordSays(s: State, e: Event, pc: Pc)
    requires Reachable(s) && Records(s, e, pc)
    ensures Next(s, e).Some?
    ensures Next(s, e).value.shared.disk.reverted ==
              Some(Reverted(s.shared.flags.running.version, pc.m.from,
                            match pc.k
                            case ByDispatch(_) => "auth_failed"
                            case ByDeadline => "deadline"
                            case ByBoot => "crash_loop",
                            s.shared.clock))
    ensures pc.k.ByDispatch? ==> pc.k.st == AuthFailed
  {
    ReachableInv(s);
    assert PcInv(pc, s.shared, s.hist);
  }

  /** Automatic swaps to a version along the run come at a given time or later; with
      None there are none at all. */
  predicate AutoSwapsFrom(s: State, es: seq<Event>, v: string, from: Option<int>)
    decreases |es|
  {
    es == [] ||
    (&& (AutoSwaps(s, es[0], v) ==> from.Some? && s.shared.clock >= from.value)
     && (Next(s, es[0]).Some? ==> AutoSwapsFrom(Next(s, es[0]).value, es[1..], v, from)))
  }

  lemma {:induction false} CooldownGivesFrom(s: State, es: seq<Event>, r: Reverted, from: Option<int>)
    requires OnlyAfterCooldown(s, es, r)
    requires if r.reason == "deadline" then from == Some(r.at + 86400) else from == None
    ensures AutoSwapsFrom(s, es, r.version, from)
    decreases |es|
  {
    if es != [] && Next(s, es[0]).Some? {
      CooldownGivesFrom(Next(s, es[0]).value, es[1..], r, from);
    }
  }

  /** A version taken back is not swapped in again by the poller while its record
      stands: after a rejected login or a crash loop never, at no later clock; after a
      missed deadline no sooner than a day later. */
  lemma RevertedVersionStaysAway(s: State, e: Event, pc: Pc, es: seq<Event>)
    requires Reachable(s) && DisciplinedRun(s, [e] + es) && Records(s, e, pc)
    ensures var s' := Next(s, e).value;
            s'.shared.disk.reverted.Some? && RecordStays(s', es, s'.shared.disk.reverted.value) ==>
              AutoSwapsFrom(s', es, s.shared.flags.running.version,
                            if pc.k.ByDeadline? then Some(s.shared.clock + 86400) else None)
  {
    assert ([e] + es)[1..] == es;
    ReachableInv(s);
    NextKeepsInv(s, e);
    RecordSays(s, e, pc);
    var s' := Next(s, e).value;
    var r := s'.shared.disk.reverted.value;
    if RecordStays(s', es, r) {
      NoFlapping(s', es, r);
      CooldownGivesFrom(s', es, r, if pc.k.ByDeadline? then Some(s.shared.clock + 86400) else None);
    }
  }
}
