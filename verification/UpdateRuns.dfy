/** The invariant over whole runs: every event keeps it, so every reachable
    state has it, wherever the power was cut and however the threads met. */
module UpdateRuns {
  import opened UpdateProtocol
  import opened UpdateInvariant

  ghost predicate ThreadsInv(threads: map<nat, Pc>, s: Shared, h: History) {
    && (forall t :: t in threads ==> PcInv(threads[t], s, h) && !AtBoot(threads[t]))
    && (forall t, u :: t in threads && u in threads && t != u ==>
          Compatible(threads[t], threads[u], s.flags))
  }

  /** Every start on trial is accounted for. */
  predicate Accounted(s: State) {
    var h := s.hist;
    OnTrial(s.shared.disk) ==>
      h.starts == h.arms + h.failedReverts + h.earlyDeaths
                  + if s.proc.Booting? && Undecided(s.proc.pc) then 1 else 0
  }

  ghost predicate Inv(s: State) {
    && DiskInv(s.shared.disk, s.hist)
    && Accounted(s)
    && match s.proc
       case Down => true
       case Booting(pc) =>
         && LiveInv(s.shared, s.hist) && PcInv(pc, s.shared, s.hist) && AtBoot(pc)
         && s.shared.flags == FreshFlags(s.shared.flags.running)
       case Live(threads) => LiveInv(s.shared, s.hist) && ThreadsInv(threads, s.shared, s.hist)
  }

  /** check_boot and the constructor keep the shared part and their own assertion. */
  lemma BootStepsWell(b: BootPc, s: Shared, ok: bool, h: History)
    requires Sound(Boot(b), s, h) && s.flags == FreshFlags(s.flags.running) && b != BootExit
    ensures var (pc', s') := BootStep(b, s, ok);
            && LiveInv(s', Note(Boot(b), s, ok, h))
            && (pc' != Boot(Booted) ==>
                  PcInv(pc', s', Note(Boot(b), s, ok, h)) && AtBoot(pc') && s'.flags == s.flags)
  {
  }

  lemma BootRevertStepsWell(pc: Pc, s: Shared, ok: bool, h: History)
    requires Sound(pc, s, h) && s.flags == FreshFlags(s.flags.running) && pc.Revert? && pc.k.ByBoot?
    ensures var (pc', s') := ThreadStep(pc, s, ok);
            && LiveInv(s', Note(pc, s, ok, h)) && PcInv(pc', s', Note(pc, s, ok, h))
            && AtBoot(pc') && pc' != Boot(Booted) && s'.flags == s.flags
  {
  }

  lemma BootAccounted(s: State, ok: bool)
    requires Inv(s) && s.proc.Booting? && Next(s, BootNext(ok)).Some?
    ensures Accounted(Next(s, BootNext(ok)).value)
  {
  }

  lemma BootKeepsInv(s: State, ok: bool)
    requires Inv(s) && s.proc.Booting?
    ensures Next(s, BootNext(ok)).Some? && Inv(Next(s, BootNext(ok)).value)
  {
    BootAccounted(s, ok);
    StepKeepsDisk(s.proc.pc, s.shared, ok, s.hist);
    if s.proc.pc.Revert? {
      BootRevertStepsWell(s.proc.pc, s.shared, ok, s.hist);
    } else if s.proc.pc.b != BootExit {
      BootStepsWell(s.proc.pc.b, s.shared, ok, s.hist);
    }
  }

  lemma StartKeepsInv(s: State, e: Event)
    requires Inv(s) && (e.Start? || e.Die?) && Next(s, e).Some?
    ensures Inv(Next(s, e).value)
  {
  }

  lemma SpawnKeepsInv(s: State, t: nat, pc: Pc)
    requires Inv(s) && s.proc.Live? && t !in s.proc.threads
    requires PcInv(pc, s.shared, s.hist) && !AtBoot(pc)
    requires forall u :: u in s.proc.threads ==> Compatible(pc, s.proc.threads[u], s.shared.flags)
    ensures Inv(Spawn(s, t, pc))
  {
  }

  lemma AmbientKeepsInv(s: State, s': Shared)
    requires Inv(s) && s.proc.Live?
    requires s' == s.shared.(clock := s'.clock, flags := s.shared.flags.(deadlineStop := s'.flags.deadlineStop))
    requires s'.clock >= s.shared.clock
    ensures Inv(s.(shared := s'))
  {
    forall t | t in s.proc.threads
      ensures PcInv(s.proc.threads[t], s', s.hist)
    {
      AmbientKeepsPc(s.proc.threads[t], s.shared, s', s.hist);
    }
  }

  lemma AmbientKeepsPc(pc: Pc, s: Shared, s': Shared, h: History)
    requires PcInv(pc, s, h)
    requires s' == s.(clock := s'.clock, flags := s.flags.(deadlineStop := s'.flags.deadlineStop))
    requires s'.clock >= s.clock
    ensures PcInv(pc, s', h)
  {
  }

  lemma AdvanceKeepsThreads(s: State, t: nat, ok: bool)
    requires Inv(s) && s.proc.Live? && t in s.proc.threads
    requires Disciplined(s, Step(t, ok))
    ensures var s' := Advance(s, t, ok);
            forall u :: u in s'.proc.threads ==>
              PcInv(s'.proc.threads[u], s'.shared, s'.hist) && !AtBoot(s'.proc.threads[u])
  {
    var pc, threads, h := s.proc.threads[t], s.proc.threads, s.hist;
    AllStepWell(pc, s.shared, ok, h);
    forall u | u in threads && u != t
      ensures PcInv(threads[u], ThreadStep(pc, s.shared, ok).1, Note(pc, s.shared, ok, h))
    {
      StepLeavesOther(pc, threads[u], s.shared, ok, h);
    }
  }

  lemma AdvanceKeepsPairs(s: State, t: nat, ok: bool)
    requires Inv(s) && s.proc.Live? && t in s.proc.threads
    requires Disciplined(s, Step(t, ok))
    ensures var s' := Advance(s, t, ok);
            forall u, v :: u in s'.proc.threads && v in s'.proc.threads && u != v ==>
              Compatible(s'.proc.threads[u], s'.proc.threads[v], s'.shared.flags)
  {
    var pc, threads := s.proc.threads[t], s.proc.threads;
    var (pc', shared') := ThreadStep(pc, s.shared, ok);
    forall u | u in threads && u != t
      ensures Compatible(pc', threads[u], shared'.flags)
    {
      StepKeepsPair(pc, threads[u], s.shared, ok, s.hist);
    }
    forall u, v | u in threads && v in threads && u != v && u != t && v != t
      ensures Compatible(threads[u], threads[v], shared'.flags)
    {
      StepKeepsOthers(pc, threads[u], threads[v], s.shared, ok);
    }
  }

  lemma AdvanceKeepsInv(s: State, t: nat, ok: bool)
    requires Inv(s) && s.proc.Live? && t in s.proc.threads
    requires Disciplined(s, Step(t, ok))
    ensures Inv(Advance(s, t, ok))
  {
    StepKeepsDisk(s.proc.threads[t], s.shared, ok, s.hist);
    AllStepWell(s.proc.threads[t], s.shared, ok, s.hist);
    AdvanceKeepsThreads(s, t, ok);
    AdvanceKeepsPairs(s, t, ok);
    AdvanceAccounted(s, t, ok);
  }

  lemma AdvanceAccounted(s: State, t: nat, ok: bool)
    requires Inv(s) && s.proc.Live? && t in s.proc.threads
    ensures Accounted(Advance(s, t, ok))
  {
    assert PcInv(s.proc.threads[t], s.shared, s.hist);
  }

  lemma BootingTickKeepsInv(s: State, clock: int)
    requires Inv(s) && s.proc.Booting? && clock >= s.shared.clock
    ensures Inv(s.(shared := s.shared.(clock := clock)))
  {
  }

  lemma DownTickKeepsInv(s: State, clock: int)
    requires Inv(s) && s.proc.Down?
    ensures Inv(s.(shared := s.shared.(clock := clock)))
  {
  }

  lemma ClockKeepsInv(s: State, clock: int)
    requires Inv(s) && clock >= s.shared.clock
    ensures Inv(s.(shared := s.shared.(clock := clock)))
  {
    if s.proc.Live? {
      AmbientKeepsInv(s, s.shared.(clock := clock));
    } else if s.proc.Booting? {
      BootingTickKeepsInv(s, clock);
    } else {
      DownTickKeepsInv(s, clock);
    }
  }

  lemma TickKeepsInv(s: State, n: nat)
    requires Inv(s)
    ensures Inv(Next(s, Tick(n)).value)
  {
    ClockKeepsInv(s, s.shared.clock + n);
  }

  lemma EmitIsCompatible(s: State, t: nat, st: ClientState, reason: string)
    requires Inv(s) && s.proc.Live? && SerialReady(s, Emit(t, st, reason))
    ensures forall u :: u in s.proc.threads ==>
              Compatible(Watch(WatchEnter(st, reason)), s.proc.threads[u], s.shared.flags)
  {
    forall u | u in s.proc.threads
      ensures Compatible(Watch(WatchEnter(st, reason)), s.proc.threads[u], s.shared.flags)
    {
      assert PcInv(s.proc.threads[u], s.shared, s.hist);
    }
  }

  lemma NextKeepsInv(s: State, e: Event)
    requires Inv(s) && Disciplined(s, e) && Next(s, e).Some?
    ensures Inv(Next(s, e).value)
  {
    match e
    case Tick(n) => TickKeepsInv(s, n);
    case Die => StartKeepsInv(s, e);
    case Start => StartKeepsInv(s, e);
    case BootNext(ok) => BootKeepsInv(s, ok);
    case Emit(t, st, reason) =>
      EmitIsCompatible(s, t, st, reason);
      SpawnKeepsInv(s, t, Watch(WatchEnter(st, reason)));
    case StopWatchdog =>
      AmbientKeepsInv(s, s.shared.(flags := s.shared.flags.(deadlineStop := true)));
    case Poll(t, req) => SpawnKeepsInv(s, t, Call(PollEnter, req));
    case Orchestrate(t, req) => SpawnKeepsInv(s, t, Call(RunCompare, req));
    case Step(t, ok) => AdvanceKeepsInv(s, t, ok);
  }

  lemma {:induction false} RunKeepsInv(s: State, es: seq<Event>)
    requires Inv(s) && DisciplinedRun(s, es)
    ensures Exec(s, es).Some? && Inv(Exec(s, es).value)
    decreases |es|
  {
    if es != [] {
      NextKeepsInv(s, es[0]);
      RunKeepsInv(Next(s, es[0]).value, es[1..]);
    }
  }
}
