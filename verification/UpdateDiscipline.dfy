/** The three things the protocol takes for granted are needed: what goes wrong
    without each of them, from any state where it can. */
module UpdateDiscipline {
  import opened Options
  import opened UpdateProtocol
  import opened UpdateInvariant
  import opened UpdateRuns
  import opened UpdateApply
  import UpdateTrials

  // ---- composing runs ------------------------------------------------------------

  lemma {:induction false} RunAppend(s: State, es: seq<Event>, s1: State, fs: seq<Event>)
    requires DisciplinedRun(s, es) && Exec(s, es) == Some(s1) && DisciplinedRun(s1, fs)
    ensures DisciplinedRun(s, es + fs) && Exec(s, es + fs) == Exec(s1, fs)
    decreases |es|
  {
    if es == [] {
      assert es + fs == fs;
    } else {
      assert (es + fs)[0] == es[0] && (es + fs)[1..] == es[1..] + fs;
      RunAppend(Next(s, es[0]).value, es[1..], s1, fs);
    }
  }

  lemma OneEvent(s: State, e: Event)
    requires Disciplined(s, e) && Next(s, e).Some?
    ensures DisciplinedRun(s, [e]) && Exec(s, [e]) == Next(s, e)
  {
  }

  lemma Extend(s: State, es: seq<Event>, s1: State, e: Event)
    requires DisciplinedRun(s, es) && Exec(s, es) == Some(s1)
    requires Disciplined(s1, e) && Next(s1, e).Some?
    ensures DisciplinedRun(s, es + [e]) && Exec(s, es + [e]) == Next(s1, e)
  {
    OneEvent(s1, e);
    RunAppend(s, es, s1, [e]);
  }

  // ---- one thread at a time ----------------------------------------------------------

  function StepsOf(t: nat, oks: seq<bool>): seq<Event> {
    if oks == [] then [] else [Step(t, oks[0])] + StepsOf(t, oks[1..])
  }

  /** The driven thread never fails confirm's unlink of the marker. */
  predicate Trusting(pc: Pc, s: Shared, oks: seq<bool>)
    decreases |oks|
  {
    oks == [] ||
    ((pc == Watch(ConfirmMarker) ==> oks[0])
     && Trusting(ThreadStep(pc, s, oks[0]).0, ThreadStep(pc, s, oks[0]).1, oks[1..]))
  }

  predicate NoOtherInWindow(threads: map<nat, Pc>, t: nat) {
    forall u :: u in threads && u != t ==> threads[u] != Watch(ConfirmPrev)
  }

  /** Driving one thread is a disciplined run of the machine, so what is proved of
      `Drive` happens in the running agent, and may be cut off after any action. */
  lemma {:induction false} DriveIsRun(s: State, t: nat, oks: seq<bool>) returns (s': State)
    requires s.proc.Live? && t in s.proc.threads && NoOtherInWindow(s.proc.threads, t)
    requires Trusting(s.proc.threads[t], s.shared, oks)
    ensures DisciplinedRun(s, StepsOf(t, oks)) && Exec(s, StepsOf(t, oks)) == Some(s')
    ensures var (pc', shared') := Drive(s.proc.threads[t], s.shared, oks);
            s'.proc == Live(s.proc.threads[t := pc']) && s'.shared == shared'
    decreases |oks|
  {
    if oks == [] {
      s' := s;
      assert s.proc.threads == s.proc.threads[t := s.proc.threads[t]];
    } else {
      var s1 := Next(s, Step(t, oks[0])).value;
      OneEvent(s, Step(t, oks[0]));
      s' := DriveIsRun(s1, t, oks[1..]);
      RunAppend(s, [Step(t, oks[0])], s1, StepsOf(t, oks[1..]));
      assert s1.proc.threads[t := Drive(s1.proc.threads[t], s1.shared, oks[1..]).0]
          == s.proc.threads[t := Drive(s.proc.threads[t], s.shared, oks).0];
    }
  }

  // ---- an apply that meets no fault ------------------------------------------------

  /** The state an apply ends in, its thread about to drop the in-progress flag. */
  predicate AppliedBy(s: State, t: nat, req: Request, s': State) {
    && s.proc.Live? && s'.proc == Live(s.proc.threads[t := Leave(Release, Updated)])
    && s'.shared.flags == s.shared.flags
    && s'.shared.disk.install == Whole(req.image)
    && s'.shared.disk.marker.Some?
    && s'.shared.disk.marker.value.phase.Pending? && s'.shared.disk.marker.value.to == req.version
    && s'.shared.disk.marker.value.attempts == 0
  }

  lemma ApplyAdvances(s: State, t: nat, a: ApplyPc, req: Request) returns (b: ApplyPc)
    requires s.proc.Live? && t in s.proc.threads && s.proc.threads[t] == Apply(a, req)
    requires 2 < StepsLeft(a) <= 12 && HasDownload(a, req, s.shared.disk)
    ensures StepsLeft(b) == StepsLeft(a) - 1
    ensures var s1 := Advance(s, t, true);
            && s1.proc == Live(s.proc.threads[t := Apply(b, req)])
            && s1.shared.flags == s.shared.flags && HasDownload(b, req, s1.shared.disk)
  {
    b := ThreadStep(s.proc.threads[t], s.shared, true).0.a;
  }

  lemma {:induction false} ApplyCompletes(s: State, t: nat, a: ApplyPc, req: Request)
    returns (es: seq<Event>, s': State)
    requires s.proc.Live? && t in s.proc.threads && s.proc.threads[t] == Apply(a, req)
    requires StepsLeft(a) <= 12 && a != ApSwap && HasDownload(a, req, s.shared.disk)
    ensures DisciplinedRun(s, es) && Exec(s, es) == Some(s') && AppliedBy(s, t, req, s')
    decreases StepsLeft(a)
  {
    var e := Step(t, true);
    var s1 := Advance(s, t, true);
    OneEvent(s, e);
    var fs;
    if a == ApMark {
      OneEvent(s1, e);
      fs, s' := [e], Advance(s1, t, true);
    } else {
      var b := ApplyAdvances(s, t, a, req);
      fs, s' := ApplyCompletes(s1, t, b, req);
      assert s.proc.threads[t := Apply(b, req)][t := Leave(Release, Updated)]
          == s.proc.threads[t := Leave(Release, Updated)];
    }
    RunAppend(s, [e], s1, fs);
    es := [e] + fs;
  }

  // ---- the confirm window ------------------------------------------------------------

  /** A run that keeps the discipline from here on and strands the device. */
  ghost predicate CanStrand(s: State) {
    exists es: seq<Event> :: DisciplinedRun(s, es) && Exec(s, es).Some? && Stranded(Exec(s, es).value.shared.disk)
  }

  lemma SoundCannotStrand(s: State)
    requires Inv(s)
    ensures !CanStrand(s)
  {
    forall es: seq<Event> | DisciplinedRun(s, es)
      ensures Exec(s, es).Some? && !Stranded(Exec(s, es).value.shared.disk)
    {
      RunKeepsInv(s, es);
    }
  }

  /** An apply admitted while a confirmation has yet to unlink the backup: the
      unlink takes the new backup with it. */
  lemma WindowStrands(s: State, t: nat, c: nat, a: ApplyPc, req: Request)
    requires s.proc.Live? && t in s.proc.threads && s.proc.threads[t] == Apply(a, req)
    requires StepsLeft(a) <= 12 && a != ApSwap && HasDownload(a, req, s.shared.disk)
    requires req.image.version == req.version
    requires c in s.proc.threads && c != t && s.proc.threads[c] == Watch(ConfirmPrev)
    requires s.shared.flags.marker.prevBinary == PREV_PATH
    ensures CanStrand(s)
  {
    var es, s1 := ApplyCompletes(s, t, a, req);
    Extend(s, es, s1, Step(c, true));
    assert Stranded(Exec(s, es + [Step(c, true)]).value.shared.disk);
  }

  /** Admitting an apply is safe exactly when no confirmation is between its two
      unlinks, for any request whose binary reports the version announced. */
  lemma AdmissionSafeIff(s: State, t: nat, req: Request)
    requires Inv(s) && s.proc.Live? && t in s.proc.threads && s.proc.threads[t] == Apply(ApCheck, req)
    requires s.shared.disk.marker.None? && req.image.version == req.version
    ensures CanStrand(Advance(s, t, true)) <==>
            exists c :: c in s.proc.threads && s.proc.threads[c] == Watch(ConfirmPrev)
  {
    var s1 := Advance(s, t, true);
    if c :| c in s.proc.threads && s.proc.threads[c] == Watch(ConfirmPrev) {
      assert s1.proc.threads[c] == Watch(ConfirmPrev);
      WindowStrands(s1, t, c, ApSessions, req);
    } else {
      NextKeepsInv(s, Step(t, true));
      SoundCannotStrand(s1);
    }
  }

  /** Confirm is safe exactly when its unlink of the marker takes effect: a silent
      failure there leaves the new binary on trial and then removes its backup. */
  lemma ConfirmSafeIff(s: State, c: nat, ok: bool)
    requires Inv(s) && s.proc.Live? && c in s.proc.threads && s.proc.threads[c] == Watch(ConfirmMarker)
    ensures CanStrand(Advance(s, c, ok)) <==> !ok
  {
    var s1 := Advance(s, c, ok);
    assert PcInv(s.proc.threads[c], s.shared, s.hist);
    if ok {
      NextKeepsInv(s, Step(c, true));
      SoundCannotStrand(s1);
    } else {
      OneEvent(s1, Step(c, true));
      assert Stranded(Exec(s1, [Step(c, true)]).value.shared.disk);
    }
  }

  // ---- overlapping dispatches ----------------------------------------------------------

  lemma {:induction false} AboveAll(ts: set<nat>) returns (n: nat)
    ensures forall t :: t in ts ==> t < n
    decreases |ts|
  {
    n := 0;
    if ts != {} {
      var t :| t in ts;
      var m := AboveAll(ts - {t});
      n := if m <= t then t + 1 else m;
      assert forall k :: k in ts ==> k == t || k in ts - {t};
    }
  }

  lemma OtherVersion(a: string, b: string) returns (v: string)
    ensures v != "" && v != a && v != b
  {
    v := a + b + "x";
    assert |v| == |a| + |b| + 1;
  }

  /** How many actions a confirmation, or a dispatch about to confirm, is from the
      point between its unlinks. */
  function ToWindow(pc: Pc): nat {
    if !pc.Watch? then 0
    else match pc.w
      case WatchEnter(_, _) => 4
      case WatchResolve(_, _) => 3
      case ConfirmStop => 2
      case ConfirmMarker => 1
      case _ => 0
  }

  /** A thread of an armed process that will confirm, if it is left to run. */
  predicate WillConfirm(pc: Pc, s: Shared) {
    && s.flags.armed && !s.flags.reportPending
    && (|| ((pc == Watch(ConfirmStop) || pc == Watch(ConfirmMarker)) && s.flags.resolved)
        || (pc == Watch(ConfirmPrev) && s.flags.resolved && s.disk.marker.None?)
        || (!s.flags.resolved && pc.Watch? && pc.w.WatchEnter? && pc.w.st == StreamsReady)
        || (!s.flags.resolved && pc.Watch? && pc.w.WatchResolve? && pc.w.ev.ReadyEvent?))
  }

  lemma WillConfirmStep(pc: Pc, s: Shared)
    requires WillConfirm(pc, s) && pc != Watch(ConfirmPrev)
    ensures var (pc', s') := ThreadStep(pc, s, true);
            && WillConfirm(pc', s') && ToWindow(pc') < ToWindow(pc)
            && s'.flags == s.flags.(resolved := s'.flags.resolved, deadlineStop := s'.flags.deadlineStop)
            && s'.disk == s.disk.(marker := s'.disk.marker)
  {
  }

  lemma {:induction false} ConfirmReachesWindow(s: State, c: nat) returns (es: seq<Event>, s': State)
    requires s.proc.Live? && c in s.proc.threads && WillConfirm(s.proc.threads[c], s.shared)
    ensures DisciplinedRun(s, es) && Exec(s, es) == Some(s')
    ensures s'.proc == Live(s.proc.threads[c := Watch(ConfirmPrev)])
    ensures s'.shared.disk == s.shared.disk.(marker := None)
    ensures s'.shared.flags == s.shared.flags.(resolved := true, deadlineStop := s'.shared.flags.deadlineStop)
    decreases ToWindow(s.proc.threads[c])
  {
    if s.proc.threads[c] == Watch(ConfirmPrev) {
      es, s' := [], s;
      assert s.proc.threads == s.proc.threads[c := Watch(ConfirmPrev)];
    } else {
      var e := Step(c, true);
      var s1 := Advance(s, c, true);
      WillConfirmStep(s.proc.threads[c], s.shared);
      OneEvent(s, e);
      var fs;
      fs, s' := ConfirmReachesWindow(s1, c);
      RunAppend(s, [e], s1, fs);
      es := [e] + fs;
      assert s1.proc.threads[c := Watch(ConfirmPrev)] == s.proc.threads[c := Watch(ConfirmPrev)];
    }
  }

  /** A late STREAMS_READY beside a thread that will confirm lets the poller see the
      client connected, and an update in through the window. */
  lemma LateReadyStrands(s: State, c: nat, u: nat, reason: string)
    requires s.proc.Live? && c in s.proc.threads && u in s.proc.threads && c != u
    requires WillConfirm(s.proc.threads[c], s.shared) && s.proc.threads[u] == Watch(WatchEnter(StreamsReady, reason))
    requires s.shared.flags.marker.prevBinary == PREV_PATH && !s.shared.flags.inProgress
    ensures CanStrand(s)
  {
    var es1, s1 := ConfirmReachesWindow(s, c);
    var t := AboveAll(s1.proc.threads.Keys);
    var reverted := s.shared.disk.reverted;
    var v := OtherVersion(s.shared.flags.running.version, if reverted.Some? then reverted.value.version else "");
    var req := Request(v, Binary(v, 0), 90, AutoPoll);
    var es2, s2 := LateReadyConnects(s1, u, t, req, reason);
    var es3, s3 := PollAdmits(s2, t, req);
    WindowStrands(s3, t, c, ApSessions, req);
    StrandsAfter(s2, es3, s3);
    StrandsAfter(s1, es2, s2);
    StrandsAfter(s, es1, s1);
  }

  lemma StrandsAfter(s: State, es: seq<Event>, s': State)
    requires DisciplinedRun(s, es) && Exec(s, es) == Some(s') && CanStrand(s')
    ensures CanStrand(s)
  {
    var fs: seq<Event> :|
      DisciplinedRun(s', fs) && Exec(s', fs).Some? && Stranded(Exec(s', fs).value.shared.disk);
    RunAppend(s, es, s', fs);
  }

  /** A STREAMS_READY dispatched while another confirms a trial, or is about to, can
      strand the device. */
  lemma OverlappingReadyStrands(s: State, u: nat, reason: string)
    requires Inv(s) && ConfirmComing(s) && u !in s.proc.threads && !s.shared.flags.inProgress
    ensures CanStrand(Next(s, Emit(u, StreamsReady, reason)).value)
  {
    var c :| c in s.proc.threads &&
      (Confirms(s.proc.threads[c])
       || (s.shared.flags.armed && !s.shared.flags.resolved && ReadyComing(s.proc.threads[c])));
    assert PcInv(s.proc.threads[c], s.shared, s.hist);
    LateReadyStrands(Next(s, Emit(u, StreamsReady, reason)).value, c, u, reason);
  }

  /** Emitting STREAMS_READY is safe while no earlier dispatch is confirming a trial or
      about to, and, with no update in progress, only then. */
  lemma ReadySafeIff(s: State, u: nat, reason: string)
    requires Inv(s) && s.proc.Live? && u !in s.proc.threads
    ensures !ConfirmComing(s) ==> !CanStrand(Next(s, Emit(u, StreamsReady, reason)).value)
    ensures !s.shared.flags.inProgress ==>
              (CanStrand(Next(s, Emit(u, StreamsReady, reason)).value) <==> ConfirmComing(s))
  {
    if !ConfirmComing(s) {
      NextKeepsInv(s, Emit(u, StreamsReady, reason));
      SoundCannotStrand(Next(s, Emit(u, StreamsReady, reason)).value);
    } else if !s.shared.flags.inProgress {
      OverlappingReadyStrands(s, u, reason);
    }
  }

  /** A ready callback that finds the outcome taken goes straight on to the poller. */
  lemma LateReadyConnects(s: State, u: nat, t: nat, req: Request, reason: string) returns (es: seq<Event>, s': State)
    requires s.proc.Live? && u in s.proc.threads && s.proc.threads[u] == Watch(WatchEnter(StreamsReady, reason))
    requires s.shared.flags.armed && s.shared.flags.resolved
    requires t !in s.proc.threads && req.origin.AutoPoll?
    ensures DisciplinedRun(s, es) && Exec(s, es) == Some(s')
    ensures s'.proc == Live(s.proc.threads[u := Done][t := Call(PollEnter, req)])
    ensures s'.shared == s.shared.(flags := s.shared.flags.(connected := true))
  {
    var e := Step(u, true);
    var s1 := Next(s, e).value;
    var s2 := Next(s1, e).value;
    var s3 := Next(s2, e).value;
    s' := Next(s3, Poll(t, req)).value;
    es := [];
    Extend(s, es, s, e); es := es + [e];
    Extend(s, es, s1, e); es := es + [e];
    Extend(s, es, s2, e); es := es + [e];
    Extend(s, es, s3, Poll(t, req)); es := es + [Poll(t, req)];
  }

  /** A poll cycle of a connected agent with nothing against the version is admitted. */
  lemma PollAdmits(s: State, t: nat, req: Request) returns (es: seq<Event>, s': State)
    requires s.proc.Live? && t in s.proc.threads && s.proc.threads[t] == Call(PollEnter, req)
    requires s.shared.flags.connected && !s.shared.flags.inProgress
    requires req.origin.AutoPoll? && req.version != "" && req.version != s.shared.flags.running.version
    requires s.shared.disk.reverted.Some? ==> s.shared.disk.reverted.value.version != req.version
    requires s.shared.disk.marker.None?
    ensures DisciplinedRun(s, es) && Exec(s, es) == Some(s')
    ensures s'.proc == Live(s.proc.threads[t := Apply(ApSessions, req)])
    ensures s'.shared == s.shared.(flags := s.shared.flags.(inProgress := true))
  {
    var e := Step(t, true);
    var s1 := Next(s, e).value;
    var s2 := Next(s1, e).value;
    var s3 := Next(s2, e).value;
    var s4 := Next(s3, e).value;
    s' := Next(s4, e).value;
    es := [];
    Extend(s, es, s, e); es := es + [e];
    Extend(s, es, s1, e); es := es + [e];
    Extend(s, es, s2, e); es := es + [e];
    Extend(s, es, s3, e); es := es + [e];
    Extend(s, es, s4, e); es := es + [e];
  }

  // ---- the version a binary reports ----------------------------------------------------

  /** A swap puts the new binary on trial exactly when it reports the version that
      was announced; the preflight only logs a difference. */
  lemma TrialIffVersionReported(s: State, t: nat, req: Request)
    requires Inv(s) && s.proc.Live? && t in s.proc.threads && s.proc.threads[t] == Apply(ApSwap, req)
    ensures OnTrial(Advance(s, t, true).shared.disk) <==> req.image.version == req.version
  {
  }

  /** A swapped-in binary that reports another version is not watched: its first
      start unlinks the marker and the backup, each as far as the unlink works, and goes
      on unarmed. */
  lemma UnreportedVersionLosesBackup(s: State, unmarks: bool, drops: bool)
    requires Inv(s) && s.proc.Down? && s.shared.disk.marker.Some? && s.shared.disk.marker.value.phase.Pending?
    requires s.shared.disk.install.bin.version != s.shared.disk.marker.value.to
    ensures var d := s.shared.disk;
            var end := Exec(s, [Start, BootNext(true), BootNext(unmarks), BootNext(drops), BootNext(true)]);
            && end.Some? && end.value.proc == Live(map[]) && !end.value.shared.flags.armed
            && end.value.shared.disk == d.(marker := if unmarks then None else d.marker,
                                           prev := if drops then None else d.prev)
  {
    var s1 := Next(s, Start).value;
    var s2 := Next(s1, BootNext(true)).value;
    var s3 := Next(s2, BootNext(unmarks)).value;
    var s4 := Next(s3, BootNext(drops)).value;
    var s5 := Next(s4, BootNext(true)).value;
    UpdateTrials.FiveSteps(s, s1, s2, s3, s4, s5,
      [Start, BootNext(true), BootNext(unmarks), BootNext(drops), BootNext(true)], []);
    assert [Start, BootNext(true), BootNext(unmarks), BootNext(drops), BootNext(true)] + []
        == [Start, BootNext(true), BootNext(unmarks), BootNext(drops), BootNext(true)];
  }
}
