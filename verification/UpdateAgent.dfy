/** The agent's update code in its own imperative form: the object's fields and
    the files around it, changed one call at a time. Every method is proved to take
    one thread of the machine in `UpdateProtocol` through the machine's own states,
    one by one and in order, so the states a power cut can leave are the machine's.

    How an action turns out is given from outside: `calls(n)` for action number n.
    A method starts with action `at` and returns `n`, the number of the one to come,
    and the trip it has made. */
module UpdateAgent {
  import opened Options
  import opened UpdateMarker
  import opened WatchdogCore
  import opened UpdateProtocol
  import opened UpdateApply

  /** The shared states a thread running alone passes through. */
  function Path(pc: Pc, s: Shared, oks: seq<bool>): seq<Shared>
    decreases |oks|
  {
    if oks == [] then []
    else
      var (pc', s') := ThreadStep(pc, s, oks[0]);
      [s'] + Path(pc', s', oks[1..])
  }

  /** One run of a thread after another. */
  lemma {:induction false} DriveAppend(pc: Pc, s: Shared, a: seq<bool>, b: seq<bool>)
    ensures Drive(pc, s, a + b) == Drive(Drive(pc, s, a).0, Drive(pc, s, a).1, b)
    ensures Path(pc, s, a + b) == Path(pc, s, a) + Path(Drive(pc, s, a).0, Drive(pc, s, a).1, b)
    decreases |a|
  {
    if a == [] {
      assert a + b == b;
    } else {
      assert (a + b)[0] == a[0] && (a + b)[1..] == a[1..] + b;
      var (pc', s') := ThreadStep(pc, s, a[0]);
      DriveAppend(pc', s', a[1..], b);
    }
  }

  /** How far a thread has come: where it is, the shared state, the outcomes it met
      and the states it passed through, one for every action. */
  datatype Trip = Trip(pc: Pc, s: Shared, oks: seq<bool>, seen: seq<Shared>)

  /** The trip is the machine's own run of the thread from a point and a state. */
  ghost predicate Goes(pc0: Pc, s0: Shared, t: Trip) {
    Drive(pc0, s0, t.oks) == (t.pc, t.s) && Path(pc0, s0, t.oks) == t.seen
  }

  lemma GoesNowhere(pc0: Pc, s0: Shared)
    ensures Goes(pc0, s0, Trip(pc0, s0, [], []))
  {
  }

  lemma GoesOn(pc0: Pc, s0: Shared, t: Trip, u: Trip)
    requires Goes(pc0, s0, t) && Goes(t.pc, t.s, u)
    ensures Goes(pc0, s0, Trip(u.pc, u.s, t.oks + u.oks, t.seen + u.seen))
  {
    DriveAppend(pc0, s0, t.oks, u.oks);
  }

  lemma GoesOne(pc: Pc, s: Shared, ok: bool)
    ensures Goes(pc, s, Trip(ThreadStep(pc, s, ok).0, ThreadStep(pc, s, ok).1, [ok], [ThreadStep(pc, s, ok).1]))
  {
  }

  /** How a part of an apply ends: it goes on, or gives up and says what to undo. */
  datatype Phase = Proceed | Bail(undo: LeavePc, res: ApplyResult)

  function Following(p: Phase, a: ApplyPc, req: Request): Pc {
    if p.Proceed? then Apply(a, req) else Leave(p.undo, p.res)
  }

  class Agent {
    // files
    var install: Image
    var staged: Option<Image>
    var prevTmp: Option<Image>
    var prev: Option<Image>
    var markerFile: Option<Marker>
    var revertedFile: Option<Reverted>
    // the process
    var running: Binary
    var marker: Marker
    var armed: bool
    var reportPending: bool
    var resolved: bool
    var deadlineStop: bool
    var inProgress: bool
    var connected: bool
    // time(nullptr)
    var clock: int
    // how its actions turn out, by number
    const calls: nat -> bool

    function Disk(): Disk
      reads this
    {
      UpdateProtocol.Disk(install, staged, prevTmp, prev, markerFile, revertedFile)
    }

    function Flags(): Flags
      reads this
    {
      UpdateProtocol.Flags(running, marker, armed, reportPending, resolved, deadlineStop, inProgress, connected)
    }

    function Shared(): Shared
      reads this
    {
      UpdateProtocol.Shared(Disk(), Flags(), clock)
    }

    /** From action number `at` to `n`, with the outcomes given for them. */
    ghost predicate Ran(pc0: Pc, s0: Shared, at: nat, n: nat, t: Trip) {
      at <= n && t.oks == Outcomes(at, n) && Goes(pc0, s0, t)
    }

    function Outcomes(at: nat, n: nat): seq<bool>
      requires at <= n
    {
      seq(n - at, (i: nat) => calls(at + i))
    }

    lemma Begin(pc0: Pc, s0: Shared, at: nat) returns (t: Trip)
      ensures Ran(pc0, s0, at, at, t) && t == Trip(pc0, s0, [], [])
    {
      GoesNowhere(pc0, s0);
      t := Trip(pc0, s0, [], []);
    }

    /** An action is complete: `after` is the machine's next state. */
    lemma Did(pc0: Pc, s0: Shared, at: nat, n: nat, t: Trip, after: Shared) returns (t': Trip)
      requires Ran(pc0, s0, at, n, t) && after == ThreadStep(t.pc, t.s, calls(n)).1
      ensures Ran(pc0, s0, at, n + 1, t')
      ensures t'.pc == ThreadStep(t.pc, t.s, calls(n)).0 && t'.s == after && t'.seen == t.seen + [after]
    {
      GoesOne(t.pc, t.s, calls(n));
      GoesOn(pc0, s0, t, Trip(ThreadStep(t.pc, t.s, calls(n)).0, after, [calls(n)], [after]));
      assert Outcomes(at, n + 1) == Outcomes(at, n) + [calls(n)];
      t' := Trip(ThreadStep(t.pc, t.s, calls(n)).0, after, t.oks + [calls(n)], t.seen + [after]);
    }

    /** A part is complete. */
    lemma Joined(pc0: Pc, s0: Shared, at: nat, n: nat, t: Trip, n': nat, u: Trip) returns (t': Trip)
      requires Ran(pc0, s0, at, n, t) && Ran(t.pc, t.s, n, n', u)
      ensures Ran(pc0, s0, at, n', t')
      ensures t'.pc == u.pc && t'.s == u.s && t'.seen == t.seen + u.seen
    {
      GoesOn(pc0, s0, t, u);
      assert Outcomes(at, n') == Outcomes(at, n) + Outcomes(n, n');
      t' := Trip(u.pc, u.s, t.oks + u.oks, t.seen + u.seen);
    }

    /** The two records of a rollback. */
    method Record(m: Marker, reason: string, ghost k: Caller, at: nat) returns (n: nat, ghost t: Trip)
      modifies this`revertedFile, this`markerFile
      ensures Ran(Pc.Revert(RevertRecord, m, reason, k), old(Shared()), at, n, t) && t.s == Shared()
      ensures t.pc == if k.ByBoot? then Boot(BootExit) else Pc.Revert(RevertRaise, m, reason, k)
      ensures n == at + 2
      ensures revertedFile == if calls(at) then Some(Reverted(m.to, m.from, reason, clock)) else old(revertedFile)
      ensures markerFile == if calls(at + 1) then Some(m.(phase := RolledBack)) else old(markerFile)
    {
      ghost var pc0, s0 := Pc.Revert(RevertRecord, m, reason, k), Shared();
      t := Begin(pc0, s0, at);
      if calls(at) {
        revertedFile := Some(Reverted(m.to, m.from, reason, clock));
      }
      t := Did(pc0, s0, at, at, t, Shared());
      n := at + 1;

      if calls(n) {
        markerFile := Some(m.(phase := RolledBack));
      }
      t := Did(pc0, s0, at, n, t, Shared());
      n := n + 1;
    }

    /** The records of a rollback from `m`, the first of them written by action `at`; a
        write that fails leaves the file as it was. */
    predicate Recorded(was: Disk, m: Marker, reason: string, at: nat)
      reads this
    {
      && revertedFile == (if calls(at) then Some(Reverted(m.to, m.from, reason, clock)) else was.reverted)
      && markerFile == (if calls(at + 1) then Some(m.(phase := RolledBack)) else was.marker)
    }

    /** do_rollback: restore first, record afterwards. */
    method DoRollback(m: Marker, reason: string, ghost k: Caller, at: nat)
      returns (restored: bool, n: nat, ghost t: Trip)
      modifies this`install, this`prev, this`revertedFile, this`markerFile
      ensures Ran(Pc.Revert(RevertCheck, m, reason, k), old(Shared()), at, n, t) && t.s == Shared()
      ensures t.pc == if !restored then Resume(k)
                      else if k.ByBoot? then Boot(BootExit) else Pc.Revert(RevertRaise, m, reason, k)
      ensures restored <==> old(PrevExists(Disk(), m)) && calls(at + 1)
      ensures !restored ==> Disk() == old(Disk())
      ensures restored ==> Some(install) == old(prev) && prev.None?
      ensures restored ==> Recorded(old(Disk()), m, reason, at + 2)
    {
      ghost var pc0, s0 := Pc.Revert(RevertCheck, m, reason, k), Shared();
      t := Begin(pc0, s0, at);
      t := Did(pc0, s0, at, at, t, Shared());
      n := at + 1;
      if m.prevBinary != PREV_PATH || prev.None? {
        return false, n, t;
      }

      restored := calls(n);
      if restored {
        install, prev := prev.value, None;
      }
      t := Did(pc0, s0, at, n, t, Shared());
      n := n + 1;
      if restored {
        ghost var u;
        n, u := Record(m, reason, k, n);
        t := Joined(pc0, s0, at, at + 2, t, n, u);
      }
    }

    /** check_boot on a marker whose target is not the binary running. */
    method ClearStale(m: Marker, at: nat) returns (n: nat, ghost t: Trip)
      modifies this`markerFile, this`prev
      ensures Ran(Boot(BootClearMarker(m)), old(Shared()), at, n, t)
      ensures t.pc == Boot(BootConstruct) && t.s == Shared()
      ensures markerFile == if calls(at) then None else old(markerFile)
      ensures prev == if m.prevBinary == PREV_PATH && calls(at + 1) then None else old(prev)
    {
      ghost var pc0, s0 := Boot(BootClearMarker(m)), Shared();
      t := Begin(pc0, s0, at);
      if calls(at) {
        markerFile := None;
      }
      t := Did(pc0, s0, at, at, t, Shared());
      n := at + 1;
      if m.prevBinary != "" {
        if calls(n) && m.prevBinary == PREV_PATH {
          prev := None;
        }
        t := Did(pc0, s0, at, n, t, Shared());
        n := n + 1;
      }
    }

    /** The marker with this start counted. */
    function Counted(m: Marker): Marker {
      m.(attempts := m.attempts + 1)
    }

    function Decided(d: BootDecision): Pc {
      match d.action
      case CleanStart => Boot(BootConstruct)
      case ReportRolledBack => Boot(BootConstruct)
      case ClearNoRevert => Boot(BootClearMarker(d.marker))
      case Arm => Boot(BootArm(d.marker))
      case Rollback => Pc.Revert(RevertCheck, d.marker, "crash_loop", ByBoot)
    }

    /** The decision carried out. */
    method CarryOut(d: BootDecision, at: nat) returns (reverted: bool, n: nat, ghost t: Trip)
      modifies this`install, this`prev, this`revertedFile, this`markerFile
      ensures Ran(Decided(d), old(Shared()), at, n, t)
      ensures t.pc == Boot(if reverted then BootExit else BootConstruct) && t.s == Shared()
      ensures reverted <==> d.action.Rollback? && old(PrevExists(Disk(), d.marker)) && calls(at + 1)
      ensures reverted ==> Some(install) == old(prev) && Recorded(old(Disk()), d.marker, "crash_loop", at + 2)
      ensures !reverted ==> install == old(install) && revertedFile == old(revertedFile)
      ensures d.action.Arm? ==> markerFile == if calls(at) then Some(d.marker) else old(markerFile)
      ensures d.action.ClearNoRevert? ==>
                && markerFile == (if calls(at) then None else old(markerFile))
                && prev == if d.marker.prevBinary == PREV_PATH && calls(at + 1) then None else old(prev)
      ensures !reverted && !d.action.Arm? && !d.action.ClearNoRevert? ==> Disk() == old(Disk())
    {
      ghost var s0 := Shared();
      reverted, n := false, at;
      t := Begin(Decided(d), s0, at);
      match d.action {
        case CleanStart =>
        case ReportRolledBack =>
        case ClearNoRevert => n, t := ClearStale(d.marker, at);
        case Arm =>
          if calls(at) {
            markerFile := Some(d.marker);
          }
          t := Did(Decided(d), s0, at, at, t, Shared());
          n := at + 1;
        case Rollback => reverted, n, t := DoRollback(d.marker, "crash_loop", ByBoot, at);
      }
    }

    /** check_boot: resolve what an earlier process left, before anything else. */
    method CheckBoot(at: nat) returns (reverted: bool, n: nat, ghost t: Trip)
      modifies this`install, this`prev, this`revertedFile, this`markerFile
      ensures Ran(Boot(BootDecide), old(Shared()), at, n, t)
      ensures t.pc == Boot(if reverted then BootExit else BootConstruct) && t.s == Shared()
      ensures reverted <==>
                && old(markerFile).Some? && old(markerFile).value.phase.Pending?
                && old(markerFile).value.to == running.version && old(markerFile).value.attempts >= 3
                && old(PrevExists(Disk(), markerFile.value)) && calls(at + 2)
      ensures reverted ==>
                && Some(install) == old(prev)
                && Recorded(old(Disk()), Counted(old(markerFile).value), "crash_loop", at + 3)
      ensures !reverted ==> install == old(install) && revertedFile == old(revertedFile)
      ensures old(markerFile).Some? && old(markerFile).value.phase.Pending?
              && old(markerFile).value.to == running.version && old(markerFile).value.attempts < 3 ==>
                markerFile == if calls(at + 1) then Some(Counted(old(markerFile).value)) else old(markerFile)
      ensures old(markerFile).Some? && old(markerFile).value.phase.Pending?
              && old(markerFile).value.to != running.version ==>
                && markerFile == (if calls(at + 1) then None else old(markerFile))
                && prev == if old(markerFile).value.prevBinary == PREV_PATH && calls(at + 2) then None else old(prev)
      ensures old(markerFile).None? || !old(markerFile).value.phase.Pending? ==> Disk() == old(Disk())
    {
      ghost var pc0, s0 := Boot(BootDecide), Shared();
      t := Begin(pc0, s0, at);
      var decision := DecideBoot(markerFile, running.version);
      t := Did(pc0, s0, at, at, t, Shared());
      ghost var u;
      reverted, n, u := CarryOut(decision, at + 1);
      t := Joined(pc0, s0, at, at + 1, t, n, u);
    }

    /** The watchdog's constructor: what this process owes, from the marker on disk. */
    method Construct(at: nat) returns (ghost t: Trip)
      modifies this`marker, this`armed, this`reportPending
      ensures Ran(Boot(BootConstruct), old(Shared()), at, at + 1, t) && t.pc == Boot(Booted) && t.s == Shared()
      ensures marker == if markerFile.Some? then markerFile.value else old(marker)
      ensures armed <==>
                old(armed) || (markerFile.Some? && marker.phase.Pending? && running.version == marker.to)
      ensures reportPending <==> old(reportPending) || (markerFile.Some? && marker.phase.RolledBack?)
    {
      ghost var pc0, s0 := Boot(BootConstruct), Shared();
      t := Begin(pc0, s0, at);
      if markerFile.Some? {
        marker := markerFile.value;
        if marker.phase.Pending? && running.version == marker.to {
          armed := true;
        } else if marker.phase.RolledBack? {
          reportPending := true;
        }
      }
      t := Did(pc0, s0, at, at, t, Shared());
    }

    /** confirm: stop the deadline, then drop the marker and the backup. */
    method Confirm(at: nat) returns (n: nat, ghost t: Trip)
      modifies this`deadlineStop, this`markerFile, this`prev
      ensures Ran(Watch(ConfirmStop), old(Shared()), at, n, t)
      ensures t.pc == Watch(Observe(StreamsReady)) && t.s == Shared()
      ensures deadlineStop && markerFile == if calls(at + 1) then None else old(markerFile)
      ensures prev == if calls(at + 2) && marker.prevBinary == PREV_PATH then None else old(prev)
    {
      ghost var pc0, s0 := Watch(ConfirmStop), Shared();
      t := Begin(pc0, s0, at);
      deadlineStop := true;
      t := Did(pc0, s0, at, at, t, Shared());
      n := at + 1;

      if calls(n) {
        markerFile := None;
      }
      t := Did(pc0, s0, at, n, t, Shared());
      n := n + 1;

      if calls(n) && marker.prevBinary == PREV_PATH {
        prev := None;
      }
      t := Did(pc0, s0, at, n, t, Shared());
      n := n + 1;
    }

    /** Restore, and ask for a restart if restored. */
    method RestoreAndRaise(reason: string, ghost k: Caller, at: nat) returns (restart: bool, n: nat, ghost t: Trip)
      requires !k.ByBoot?
      modifies this`install, this`prev, this`revertedFile, this`markerFile
      ensures Ran(Pc.Revert(RevertCheck, marker, reason, k), old(Shared()), at, n, t)
      ensures t.pc == Resume(k) && t.s == Shared()
      ensures restart <==> old(PrevExists(Disk(), marker)) && calls(at + 1)
      ensures restart ==> Some(install) == old(prev) && Recorded(old(Disk()), marker, reason, at + 2)
      ensures !restart ==> Disk() == old(Disk())
    {
      ghost var pc0, s0 := Pc.Revert(RevertCheck, marker, reason, k), Shared();
      restart, n, t := DoRollback(marker, reason, k, at);
      if restart {
        t := Did(pc0, s0, at, n, t, Shared());
        n := n + 1;
      }
    }

    /** rollback: stop the deadline, restore, and ask for a restart if restored. */
    method Rollback(reason: string, ghost k: Caller, at: nat) returns (restart: bool, n: nat, ghost t: Trip)
      requires !k.ByBoot?
      modifies this`deadlineStop, this`install, this`prev, this`revertedFile, this`markerFile
      ensures Ran(Pc.Revert(RevertStop, marker, reason, k), old(Shared()), at, n, t)
      ensures t.pc == Resume(k) && t.s == Shared() && deadlineStop
      ensures restart <==> old(PrevExists(Disk(), marker)) && calls(at + 2)
      ensures restart ==> Some(install) == old(prev) && Recorded(old(Disk()), marker, reason, at + 3)
      ensures !restart ==> Disk() == old(Disk())
    {
      ghost var pc0, s0 := Pc.Revert(RevertStop, marker, reason, k), Shared();
      t := Begin(pc0, s0, at);
      deadlineStop := true;
      t := Did(pc0, s0, at, at, t, Shared());
      ghost var u;
      restart, n, u := RestoreAndRaise(reason, k, at + 1);
      t := Joined(pc0, s0, at, at + 1, t, n, u);
    }

    /** deadline_loop, from the end of its wait. */
    method DeadlineLoop(at: nat) returns (restart: bool, n: nat, ghost t: Trip)
      modifies this
      ensures Ran(Watch(DeadlineWait), old(Shared()), at, n, t) && t.pc == Done && t.s == Shared()
      ensures restart <==> !old(deadlineStop) && !old(resolved) && old(PrevExists(Disk(), marker)) && calls(at + 4)
      ensures restart ==> Some(install) == old(prev) && Recorded(old(Disk()), old(marker), "deadline", at + 5)
      ensures !restart ==> Disk() == old(Disk())
      ensures old(resolved) || old(deadlineStop) ==> Shared() == old(Shared())
    {
      ghost var pc0, s0 := Watch(DeadlineWait), Shared();
      t := Begin(pc0, s0, at);
      t := Did(pc0, s0, at, at, t, Shared());
      n := at + 1;
      if deadlineStop {
        return false, n, t;
      }
      var won := !resolved;
      resolved := true;
      t := Did(pc0, s0, at, n, t, Shared());
      n := n + 1;
      if !won {
        return false, n, t;
      }
      ghost var u;
      restart, n, u := Rollback("deadline", ByDeadline, n);
      t := Joined(pc0, s0, at, at + 2, t, n, u);
    }

    /** The report path of on_state; sending the report is not modelled. */
    method Report(at: nat) returns (n: nat, ghost t: Trip)
      modifies this`markerFile, this`reportPending
      ensures Ran(Watch(ReportMarker), old(Shared()), at, n, t)
      ensures t.pc == Watch(Observe(StreamsReady)) && t.s == Shared()
      ensures !reportPending && markerFile == if calls(at) then None else old(markerFile)
    {
      ghost var pc0, s0 := Watch(ReportMarker), Shared();
      t := Begin(pc0, s0, at);
      if calls(at) {
        markerFile := None;
      }
      t := Did(pc0, s0, at, at, t, Shared());
      n := at + 1;
      reportPending := false;
      t := Did(pc0, s0, at, n, t, Shared());
      n := n + 1;
    }

    /** What a STREAMS_READY leaves when it wins: a trial confirmed, its marker and
        backup unlinked, or a rollback reported, its marker unlinked; the first action
        of either is number `at`. */
    predicate Settles(was: Disk, f: Flags, at: nat)
      reads this
    {
      if f.reportPending then
        !reportPending && Disk() == was.(marker := if calls(at) then None else was.marker)
      else if f.armed then
        && deadlineStop
        && Disk() == was.(marker := if calls(at + 1) then None else was.marker,
                          prev := if calls(at + 2) && f.marker.prevBinary == PREV_PATH then None else was.prev)
      else Disk() == was
    }

    /** A STREAMS_READY that won: report a rollback, or confirm a trial. */
    method Settle(at: nat) returns (n: nat, ghost t: Trip)
      modifies this
      ensures Ran(Watch(if old(reportPending) then ReportMarker else if old(armed) then ConfirmStop
                        else Observe(StreamsReady)), old(Shared()), at, n, t)
      ensures t.pc == Watch(Observe(StreamsReady)) && t.s == Shared()
      ensures Settles(old(Disk()), old(Flags()), at) && resolved == old(resolved)
    {
      if reportPending {
        n, t := Report(at);
      } else if armed {
        n, t := Confirm(at);
      } else {
        n := at;
        t := Begin(Watch(Observe(StreamsReady)), Shared(), at);
      }
    }

    /** The winner of `resolved` acts on the event. */
    method Resolve(st: ClientState, ev: RuntimeEvent, at: nat) returns (restart: bool, n: nat, ghost t: Trip)
      requires ev.ReadyEvent? ==> st == StreamsReady
      modifies this
      ensures Ran(Watch(WatchResolve(st, ev)), old(Shared()), at, n, t) && t.pc == Watch(Observe(st)) && t.s == Shared()
      ensures old(resolved) ==> Shared() == old(Shared())
      ensures restart <==> !old(resolved) && !ev.ReadyEvent? && old(PrevExists(Disk(), marker)) && calls(at + 3)
      ensures restart ==> Some(install) == old(prev) && Recorded(old(Disk()), old(marker), "auth_failed", at + 4)
      ensures !restart ==> install == old(install) && revertedFile == old(revertedFile)
      ensures resolved
      ensures !old(resolved) && ev.ReadyEvent? ==> Settles(old(Disk()), old(Flags()), at + 1)
      ensures !old(resolved) && !ev.ReadyEvent? && !restart ==> Disk() == old(Disk())
    {
      ghost var pc0, s0 := Watch(WatchResolve(st, ev)), Shared();
      t := Begin(pc0, s0, at);
      var won := !resolved;
      resolved := true;
      t := Did(pc0, s0, at, at, t, Shared());
      restart, n := false, at + 1;
      if !won {
        return;
      }
      ghost var u;
      if ev.ReadyEvent? {
        n, u := Settle(n);
      } else {
        restart, n, u := Rollback("auth_failed", ByDispatch(st), n);
      }
      t := Joined(pc0, s0, at, at + 1, t, n, u);
    }

    /** on_state, the watchdog's half of a dispatch. */
    method OnState(st: ClientState, reason: string, at: nat) returns (restart: bool, n: nat, ghost t: Trip)
      modifies this
      ensures Ran(Watch(WatchEnter(st, reason)), old(Shared()), at, n, t)
      ensures t.pc == Watch(Observe(st)) && t.s == Shared()
      ensures old(resolved) ==> Shared() == old(Shared())
      ensures restart <==> st == AuthFailed && reason != "io_error" && old(armed) && !old(resolved)
                           && old(PrevExists(Disk(), marker)) && calls(at + 4)
      ensures restart ==> Some(install) == old(prev) && Recorded(old(Disk()), old(marker), "auth_failed", at + 5)
      ensures !restart ==> install == old(install) && revertedFile == old(revertedFile)
      ensures st == StreamsReady && !old(resolved) && (old(armed) || old(reportPending)) ==>
                resolved && Settles(old(Disk()), old(Flags()), at + 2)
      ensures st != StreamsReady && !restart ==> Disk() == old(Disk())
      ensures !old(armed) && !old(reportPending) ==> Shared() == old(Shared())
    {
      ghost var pc0, s0 := Watch(WatchEnter(st, reason)), Shared();
      t := Begin(pc0, s0, at);
      t := Did(pc0, s0, at, at, t, Shared());
      restart, n := false, at + 1;
      if !armed && !reportPending {
        return;
      }
      var ev := Classify(st, reason);
      if !ev.ReadyEvent? && !(armed && DecideRuntime(ev) == RuntimeAction.Revert) {
        return;
      }
      ghost var u;
      restart, n, u := Resolve(st, ev, n);
      t := Joined(pc0, s0, at, at + 1, t, n, u);
    }

    /** update_poller::on_state, the poller's half. */
    method NoteConnection(st: ClientState, at: nat) returns (ghost t: Trip)
      modifies this`connected
      ensures Ran(Watch(Observe(st)), old(Shared()), at, at + 1, t) && t.pc == Done && t.s == Shared()
    {
      ghost var pc0, s0 := Watch(Observe(st)), Shared();
      t := Begin(pc0, s0, at);
      connected := st == StreamsReady;
      t := Did(pc0, s0, at, at, t, Shared());
    }

    // ---- the apply path ------------------------------------------------------------

    method Download(req: Request, at: nat) returns (step: Phase, n: nat, ghost t: Trip)
      modifies this`staged
      ensures Ran(Apply(ApDownload, req), old(Shared()), at, n, t)
      ensures t.pc == Following(step, ApChecksum, req) && t.s == Shared()
      ensures n == at + 2
      ensures step == if calls(at + 1) then Proceed else Bail(DropNew, Failed("download"))
      ensures staged == Some(if step.Proceed? then Whole(req.image) else Torn(req.image))
    {
      ghost var pc0, s0 := Apply(ApDownload, req), Shared();
      t := Begin(pc0, s0, at);
      staged := Some(Torn(req.image));
      t := Did(pc0, s0, at, at, t, Shared());
      n := at + 1;

      var downloaded := calls(n);
      if downloaded {
        staged := Some(Whole(req.image));
      }
      t := Did(pc0, s0, at, n, t, Shared());
      n := n + 1;
      step := if downloaded then Proceed else Bail(DropNew, Failed("download"));
    }

    /** Checksum, preflight and the second look at open sessions. */
    method Vet(req: Request, at: nat) returns (step: Phase, n: nat, ghost t: Trip)
      ensures Ran(Apply(ApChecksum, req), Shared(), at, n, t)
      ensures t.pc == Following(step, ApRemoveTmp, req) && t.s == Shared()
      ensures step.Proceed? <==> calls(at) && calls(at + 1) && (req.origin.AutoPoll? ==> calls(at + 2))
      ensures step.Proceed? ==> n == at + 3
      ensures step.Bail? ==> step.undo.DropNew?
      ensures step.Bail? ==> step.res == if !calls(at) then Failed("checksum")
                                         else if !calls(at + 1) then Failed("preflight") else Deferred
    {
      ghost var pc0, s0 := Apply(ApChecksum, req), Shared();
      t := Begin(pc0, s0, at);
      t := Did(pc0, s0, at, at, t, s0);
      n := at + 1;
      if !calls(at) {
        return Bail(DropNew, Failed("checksum")), n, t;
      }

      t := Did(pc0, s0, at, n, t, s0);
      n := n + 1;
      if !calls(at + 1) {
        return Bail(DropNew, Failed("preflight")), n, t;
      }

      t := Did(pc0, s0, at, n, t, s0);
      n := n + 1;
      if req.origin.AutoPoll? && !calls(at + 2) {
        return Bail(DropNew, Deferred), n, t;
      }
      step := Proceed;
    }

    method CopyBinary(req: Request, at: nat) returns (step: Phase, n: nat, ghost t: Trip)
      modifies this`prevTmp
      ensures Ran(Apply(ApCopy, req), old(Shared()), at, n, t)
      ensures t.pc == Following(step, ApStage, req) && t.s == Shared()
      ensures step.Proceed? <==> calls(at) && calls(at + 1)
      ensures step.Proceed? ==> n == at + 2
      ensures step.Proceed? ==> prevTmp == Some(install)
      ensures step.Bail? ==> step.undo.DropNew? && step.res.Failed?
    {
      ghost var pc0, s0 := Apply(ApCopy, req), Shared();
      t := Begin(pc0, s0, at);
      if calls(at) {
        prevTmp := Some(Torn(install.bin));
      }
      t := Did(pc0, s0, at, at, t, Shared());
      n := at + 1;
      if !calls(at) {
        return Bail(DropNew, Failed("prev_failed")), n, t;
      }

      var copied := calls(n);
      if copied {
        prevTmp := Some(install);
      }
      t := Did(pc0, s0, at, n, t, Shared());
      n := n + 1;
      step := if copied then Proceed else Bail(DropNew, Failed("no_space"));
    }

    /** Copy the installed binary aside, without its new name. */
    method CopyAside(req: Request, at: nat) returns (step: Phase, n: nat, ghost t: Trip)
      modifies this`prevTmp
      ensures Ran(Apply(ApRemoveTmp, req), old(Shared()), at, n, t)
      ensures t.pc == Following(step, ApStage, req) && t.s == Shared()
      ensures step.Proceed? <==> calls(at + 1) && calls(at + 2)
      ensures step.Proceed? ==> n == at + 3
      ensures step.Proceed? ==> prevTmp == Some(install)
      ensures step.Bail? ==> step.undo.DropNew? && step.res.Failed?
    {
      ghost var pc0, s0 := Apply(ApRemoveTmp, req), Shared();
      t := Begin(pc0, s0, at);
      if calls(at) {
        prevTmp := None;
      }
      t := Did(pc0, s0, at, at, t, Shared());
      ghost var u;
      step, n, u := CopyBinary(req, at + 1);
      t := Joined(pc0, s0, at, at + 1, t, n, u);
    }

    /** Move the copy into place. */
    method Shelve(req: Request, at: nat) returns (step: Phase, ghost t: Trip)
      modifies this`prevTmp, this`prev
      ensures Ran(Apply(ApStage, req), old(Shared()), at, at + 1, t)
      ensures t.pc == Following(step, ApMark, req) && t.s == Shared()
      ensures step.Proceed? <==> calls(at)
      ensures step.Proceed? ==> prev == old(prevTmp)
      ensures step.Bail? ==> prev == old(prev) && step.res.Failed? && step.undo.DropTmp?
    {
      ghost var pc0, s0 := Apply(ApStage, req), Shared();
      t := Begin(pc0, s0, at);
      if calls(at) {
        prev, prevTmp := prevTmp, None;
      }
      t := Did(pc0, s0, at, at, t, Shared());
      step := if calls(at) then Proceed else Bail(DropTmp, Failed("prev_failed"));
    }

    /** Write the pending marker, then swap. */
    method MarkAndSwap(req: Request, at: nat) returns (step: Phase, n: nat, ghost t: Trip)
      requires staged.Some? && markerFile.None?
      modifies this`markerFile, this`install, this`staged
      ensures Ran(Apply(ApMark, req), old(Shared()), at, n, t) && t.s == Shared()
      ensures t.pc == if step.Proceed? then Leave(Release, Updated) else Leave(step.undo, step.res)
      ensures step.Proceed? <==> calls(at) && calls(at + 1)
      ensures step.Proceed? ==> Some(install) == old(staged) && staged.None?
                                && markerFile == Some(NewMarker(running, req, clock))
      ensures step.Bail? ==> step.res == Failed(if calls(at) then "swap_failed" else "marker_failed")
      ensures step.Bail? ==> install == old(install) && step.res.Failed?
      ensures step.Bail? ==> step.undo.DropMarker? || (step.undo.DropPrev? && markerFile.None?)
    {
      ghost var pc0, s0 := Apply(ApMark, req), Shared();
      t := Begin(pc0, s0, at);
      if calls(at) {
        markerFile := Some(NewMarker(running, req, clock));
      }
      t := Did(pc0, s0, at, at, t, Shared());
      n := at + 1;
      if !calls(at) {
        return Bail(DropPrev, Failed("marker_failed")), n, t;
      }

      var swapped := calls(n);
      if swapped {
        install, staged := staged.value, None;
      }
      t := Did(pc0, s0, at, n, t, Shared());
      n := n + 1;
      if !swapped {
        return Bail(DropMarker, Failed("swap_failed")), n, t;
      }
      step := Proceed;
    }

    /** The release guard. */
    method ReleaseFlag(res: ApplyResult, at: nat) returns (ghost t: Trip)
      modifies this`inProgress
      ensures Ran(Leave(Release, res), old(Shared()), at, at + 1, t) && t.pc == Finished(res) && t.s == Shared()
      ensures !inProgress
    {
      ghost var pc0, s0 := Leave(Release, res), Shared();
      t := Begin(pc0, s0, at);
      inProgress := false;
      t := Did(pc0, s0, at, at, t, Shared());
    }

    method DropStaged(res: ApplyResult, at: nat) returns (n: nat, ghost t: Trip)
      modifies this`staged, this`inProgress
      ensures Ran(Leave(DropNew, res), old(Shared()), at, n, t) && t.pc == Finished(res) && t.s == Shared()
      ensures !inProgress && staged == if calls(at) then None else old(staged)
    {
      ghost var pc0, s0 := Leave(DropNew, res), Shared();
      t := Begin(pc0, s0, at);
      if calls(at) {
        staged := None;
      }
      t := Did(pc0, s0, at, at, t, Shared());
      n := at + 2;
      ghost var u := ReleaseFlag(res, at + 1);
      t := Joined(pc0, s0, at, at + 1, t, n, u);
    }

    method DropBackup(res: ApplyResult, at: nat) returns (n: nat, ghost t: Trip)
      modifies this`prev, this`staged, this`inProgress
      ensures Ran(Leave(DropPrev, res), old(Shared()), at, n, t) && t.pc == Finished(res) && t.s == Shared()
      ensures !inProgress && prev == if calls(at) then None else old(prev)
    {
      ghost var pc0, s0 := Leave(DropPrev, res), Shared();
      t := Begin(pc0, s0, at);
      if calls(at) {
        prev := None;
      }
      t := Did(pc0, s0, at, at, t, Shared());
      ghost var u;
      n, u := DropStaged(res, at + 1);
      t := Joined(pc0, s0, at, at + 1, t, n, u);
    }

    method DropCopy(res: ApplyResult, at: nat) returns (n: nat, ghost t: Trip)
      modifies this`prevTmp, this`staged, this`inProgress
      ensures Ran(Leave(DropTmp, res), old(Shared()), at, n, t) && t.pc == Finished(res) && t.s == Shared()
      ensures !inProgress && prevTmp == if calls(at) then None else old(prevTmp)
    {
      ghost var pc0, s0 := Leave(DropTmp, res), Shared();
      t := Begin(pc0, s0, at);
      if calls(at) {
        prevTmp := None;
      }
      t := Did(pc0, s0, at, at, t, Shared());
      ghost var u;
      n, u := DropStaged(res, at + 1);
      t := Joined(pc0, s0, at, at + 1, t, n, u);
    }

    method DropMark(res: ApplyResult, at: nat) returns (n: nat, ghost t: Trip)
      modifies this`markerFile, this`prev, this`staged, this`inProgress
      ensures Ran(Leave(DropMarker, res), old(Shared()), at, n, t) && t.pc == Finished(res) && t.s == Shared()
      ensures !inProgress && markerFile == if calls(at) then None else old(markerFile)
    {
      ghost var pc0, s0 := Leave(DropMarker, res), Shared();
      t := Begin(pc0, s0, at);
      if calls(at) {
        markerFile := None;
      }
      t := Did(pc0, s0, at, at, t, Shared());
      ghost var u;
      n, u := DropBackup(res, at + 1);
      t := Joined(pc0, s0, at, at + 1, t, n, u);
    }

    /** Undo a failed apply from the given point on, then drop the in-progress flag. */
    method Abandon(from: LeavePc, res: ApplyResult, at: nat) returns (n: nat, ghost t: Trip)
      modifies this`markerFile, this`prev, this`prevTmp, this`staged, this`inProgress
      ensures Ran(Leave(from, res), old(Shared()), at, n, t) && t.pc == Finished(res) && t.s == Shared()
      ensures !inProgress
      ensures UnlinkWorks(DropMarker, Leave(from, res), old(Shared()), t.oks) ==>
                markerFile == if from.DropMarker? then None else old(markerFile)
      ensures UnlinkWorks(DropNew, Leave(from, res), old(Shared()), t.oks) ==>
                staged == if from.Release? then old(staged) else None
      ensures from.Release? ==> Disk() == old(Disk())
    {
      ghost var s0 := Shared();
      match from {
        case Release =>
          t := ReleaseFlag(res, at);
          n := at + 1;
        case DropNew => n, t := DropStaged(res, at);
        case DropTmp => n, t := DropCopy(res, at);
        case DropPrev => n, t := DropBackup(res, at);
        case DropMarker => n, t := DropMark(res, at);
      }
      ExitLeaves(from, res, s0, t.oks);
    }

    /** Download, checksum and preflight work, from action `at` on. */
    predicate Fetched(at: nat) {
      calls(at + 1) && calls(at + 2) && calls(at + 3)
    }

    /** Backup, marker and swap work, for an apply that began its download at `at`. */
    predicate Placed(at: nat) {
      calls(at + 6) && calls(at + 7) && calls(at + 8) && calls(at + 9) && calls(at + 10)
    }

    /** apply_with_watchdog. It updates exactly when it is admitted and every call that
        can stop it works: download, checksum, preflight, backup, marker and swap, and
        both looks at the open sessions when automatic. Only `Updated` changes the
        installed binary. Any other result leaves it; leaves the marker as it was, unless
        the unlink of a new one failed; and leaves no download, or touched no file at all,
        unless the unlink of the download failed. The in-progress flag is always left as
        found. Which failure it reports is `UpdateApply.ApplyAnswers` of its trip. */
    method ApplyWithWatchdog(req: Request, at: nat) returns (res: ApplyResult, n: nat, ghost t: Trip)
      modifies this
      ensures Ran(Apply(ApEnter, req), old(Shared()), at, n, t) && t.pc == Finished(res) && t.s == Shared()
      ensures Flags() == old(Flags()) && clock == old(clock) && revertedFile == old(revertedFile)
      ensures res.Updated? ==>
                && install == Whole(req.image) && prev == Some(old(install)) && staged.None?
                && markerFile == Some(Marker(Pending, running.version, req.version, PREV_PATH, clock, 0,
                                             if req.deadlineS > 0 then req.deadlineS else 90, 0))
      ensures !res.Updated? ==> install == old(install)
      ensures !res.Updated? ==>
                (markerFile == old(markerFile)
                 <==> UnlinkWorks(DropMarker, Apply(ApEnter, req), old(Shared()), t.oks))
      ensures !res.Updated? ==>
                if UnlinkWorks(DropNew, Apply(ApEnter, req), old(Shared()), t.oks)
                then staged.None? || Disk() == old(Disk()) else IsDownload(staged, req)
      ensures old(markerFile).Some? || old(inProgress) ==> !res.Updated? && Shared() == old(Shared())
      ensures res.Updated? <==>
                && req.version != "" && !old(inProgress) && old(markerFile).None?
                && (req.origin.AutoPoll? ==> calls(at + 2) && calls(at + 7))
                && calls(at + 4) && calls(at + 5) && calls(at + 6)
                && calls(at + 9) && calls(at + 10) && calls(at + 11) && calls(at + 12) && calls(at + 13)
      ensures res.Deferred? <==>
                && req.version != "" && !old(inProgress) && old(markerFile).None? && req.origin.AutoPoll?
                && (!calls(at + 2) || (calls(at + 4) && calls(at + 5) && calls(at + 6) && !calls(at + 7)))
    {
      ghost var pc0, s0 := Apply(ApEnter, req), Shared();
      t := Begin(pc0, s0, at);
      if req.version == "" || inProgress {
        t := Did(pc0, s0, at, at, t, Shared());
        res, n := Failed(if req.version == "" then "error" else "busy"), at + 1;
      } else {
        inProgress := true;
        t := Did(pc0, s0, at, at, t, Shared());
        ghost var u;
        res, n, u := ApplyFlagged(req, at + 1);
        t := Joined(pc0, s0, at, at + 1, t, n, u);
      }
      if !res.Updated? {
        FailedApplyLeavesNothing(s0, req, t.oks);
      }
    }

    /** An apply that holds the in-progress flag. */
    method ApplyFlagged(req: Request, at: nat) returns (res: ApplyResult, n: nat, ghost t: Trip)
      requires inProgress
      modifies this`install, this`staged, this`prevTmp, this`prev, this`markerFile, this`inProgress
      ensures Ran(Apply(ApCheck, req), old(Shared()), at, n, t) && t.pc == Finished(res) && t.s == Shared()
      ensures !inProgress
      ensures res.Updated? ==>
                && old(markerFile).None?
                && install == Whole(req.image) && prev == Some(old(install)) && staged.None?
                && markerFile == Some(NewMarker(running, req, clock))
      ensures !res.Updated? ==> install == old(install)
      ensures old(markerFile).Some? ==> !res.Updated? && Disk() == old(Disk())
      ensures res.Updated? <==>
                && old(markerFile).None? && Fetched(at + 2) && Placed(at + 2)
                && (req.origin.AutoPoll? ==> calls(at + 1) && calls(at + 6))
      ensures res.Deferred? <==>
                && old(markerFile).None? && req.origin.AutoPoll?
                && (!calls(at + 1) || (Fetched(at + 2) && !calls(at + 6)))
    {
      ghost var pc0, s0 := Apply(ApCheck, req), Shared();
      ghost var u;
      t := Begin(pc0, s0, at);
      t := Did(pc0, s0, at, at, t, Shared());
      n := at + 1;
      if markerFile.Some? {
        res := Failed("restart_pending");
        n, u := Abandon(Release, res, n);
        t := Joined(pc0, s0, at, at + 1, t, n, u);
        return;
      }

      var idle := calls(n);
      t := Did(pc0, s0, at, n, t, Shared());
      n := n + 1;
      if req.origin.AutoPoll? && !idle {
        res := Deferred;
        n, u := Abandon(Release, res, n);
      } else {
        res, n, u := Replace(req, n);
      }
      t := Joined(pc0, s0, at, at + 2, t, n, u);
    }

    /** The admitted part of an apply, up to the backup. */
    method Prepare(req: Request, at: nat) returns (step: Phase, n: nat, ghost t: Trip)
      modifies this`staged, this`prevTmp, this`prev
      ensures Ran(Apply(ApDownload, req), old(Shared()), at, n, t)
      ensures t.pc == Following(step, ApMark, req) && t.s == Shared()
      ensures step.Proceed? ==> staged == Some(Whole(req.image)) && prev == Some(install)
      ensures step.Proceed? <==>
                && Fetched(at) && (req.origin.AutoPoll? ==> calls(at + 4))
                && calls(at + 6) && calls(at + 7) && calls(at + 8)
      ensures step.Proceed? ==> n == at + 9
      ensures step.Bail? ==> !step.res.Updated? && (step.undo.DropTmp? || step.undo.DropNew?)
      ensures step.Bail? ==> (step.res.Deferred? <==> Fetched(at) && req.origin.AutoPoll? && !calls(at + 4))
    {
      ghost var pc0, s0 := Apply(ApDownload, req), Shared();
      step, n, t := Download(req, at);
      if step.Bail? {
        return;
      }
      ghost var n0, u := n, t;
      step, n, u := Vet(req, n);
      t := Joined(pc0, s0, at, n0, t, n, u);
      if step.Bail? {
        return;
      }
      n0 := n;
      step, n, u := CopyAside(req, n);
      t := Joined(pc0, s0, at, n0, t, n, u);
      if step.Bail? {
        return;
      }
      step, u := Shelve(req, n);
      t := Joined(pc0, s0, at, n, t, n + 1, u);
      n := n + 1;
    }

    /** From the backup on: mark, swap, and undo what a failure leaves. */
    method Commit(req: Request, at: nat) returns (res: ApplyResult, n: nat, ghost t: Trip)
      requires markerFile.None? && staged == Some(Whole(req.image)) && prev == Some(install)
      modifies this`install, this`staged, this`prevTmp, this`prev, this`markerFile, this`inProgress
      ensures Ran(Apply(ApMark, req), old(Shared()), at, n, t) && t.pc == Finished(res) && t.s == Shared()
      ensures !inProgress
      ensures res.Updated? ==>
                && install == Whole(req.image) && prev == old(prev) && staged.None?
                && markerFile == Some(NewMarker(running, req, clock))
      ensures !res.Updated? ==> install == old(install)
      ensures !res.Deferred?
      ensures res.Updated? <==> calls(at) && calls(at + 1)
    {
      ghost var pc0, s0 := Apply(ApMark, req), Shared();
      var step;
      step, n, t := MarkAndSwap(req, at);
      ghost var n0, u := n, t;
      if step.Proceed? {
        res := Updated;
        u := ReleaseFlag(res, n);
        n := n + 1;
      } else {
        res := step.res;
        n, u := Abandon(step.undo, res, n);
      }
      t := Joined(pc0, s0, at, n0, t, n, u);
    }

    /** The admitted part of an apply. */
    method Replace(req: Request, at: nat) returns (res: ApplyResult, n: nat, ghost t: Trip)
      requires markerFile.None?
      modifies this`install, this`staged, this`prevTmp, this`prev, this`markerFile, this`inProgress
      ensures Ran(Apply(ApDownload, req), old(Shared()), at, n, t) && t.pc == Finished(res) && t.s == Shared()
      ensures !inProgress
      ensures res.Updated? ==>
                && install == Whole(req.image) && prev == Some(old(install)) && staged.None?
                && markerFile == Some(NewMarker(running, req, clock))
      ensures !res.Updated? ==> install == old(install)
      ensures res.Updated? <==> Fetched(at) && Placed(at) && (req.origin.AutoPoll? ==> calls(at + 4))
      ensures res.Deferred? <==> Fetched(at) && req.origin.AutoPoll? && !calls(at + 4)
    {
      ghost var pc0, s0 := Apply(ApDownload, req), Shared();
      var step;
      step, n, t := Prepare(req, at);
      ghost var n0, u := n, t;
      if step.Proceed? {
        res, n, u := Commit(req, n);
      } else {
        res := step.res;
        n, u := Abandon(step.undo, res, n);
      }
      t := Joined(pc0, s0, at, n0, t, n, u);
    }
  }
}
