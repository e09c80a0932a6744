/** What an apply leaves behind, for every outcome of every call it makes: cut off
    after any of its actions, and brought to its end. */
module UpdateApply {
  import opened Options
  import opened UpdateProtocol

  function StepsLeft(a: ApplyPc): nat {
    match a
    case ApEnter => 14
    case ApCheck => 13
    case ApSessions => 12
    case ApDownload => 11
    case ApDownloading => 10
    case ApChecksum => 9
    case ApPreflight => 8
    case ApSessionsAgain => 7
    case ApRemoveTmp => 6
    case ApCopy => 5
    case ApCopying => 4
    case ApStage => 3
    case ApMark => 2
    case ApSwap => 1
  }

  predicate HasDownload(a: ApplyPc, req: Request, d: Disk) {
    StepsLeft(a) <= 9 ==> d.staged == Some(Whole(req.image))
  }

  /** How far an apply by itself has got, from the shared state `s0` it entered in. */
  predicate Midway(pc: Pc, req: Request, s0: Shared, s: Shared) {
    var d := s.disk;
    && s.flags.running == s0.flags.running && s.clock == s0.clock
    && match pc
       case Apply(a, r) =>
         && r == req && d.install == s0.disk.install && HasDownload(a, req, d)
         && (a.ApStage? ==> d.prevTmp == Some(d.install))
         && (a.ApMark? || a.ApSwap? ==> d.prev == Some(d.install))
         && (a.ApSwap? ==> d.marker == Some(NewMarker(s0.flags.running, req, s0.clock)))
         && (!a.ApSwap? ==> d.marker == s0.disk.marker)
       case Leave(l, res) => EndOf(res, req, s0, s)
       case Finished(res) => EndOf(res, req, s0, s)
       case _ => false
  }

  predicate EndOf(res: ApplyResult, req: Request, s0: Shared, s: Shared) {
    if res.Updated? then
      && s.disk.install == Whole(req.image) && s.disk.prev == Some(s0.disk.install)
      && s.disk.marker == Some(NewMarker(s0.flags.running, req, s0.clock))
    else
      s.disk.install == s0.disk.install
  }

  predicate CleanExit(pc: Pc) {
    pc.Leave? ==> pc.l.Release? || !pc.res.Updated?
  }

  lemma PreparingMidway(pc: Pc, req: Request, s0: Shared, s: Shared, ok: bool)
    requires Midway(pc, req, s0, s) && pc.Apply? && StepsLeft(pc.a) > 6
    ensures Midway(ThreadStep(pc, s, ok).0, req, s0, ThreadStep(pc, s, ok).1)
    ensures CleanExit(ThreadStep(pc, s, ok).0)
  {
  }

  lemma ReplacingMidway(pc: Pc, req: Request, s0: Shared, s: Shared, ok: bool)
    requires Midway(pc, req, s0, s) && pc.Apply? && StepsLeft(pc.a) <= 6
    ensures Midway(ThreadStep(pc, s, ok).0, req, s0, ThreadStep(pc, s, ok).1)
    ensures CleanExit(ThreadStep(pc, s, ok).0)
  {
  }

  lemma MidwayStep(pc: Pc, req: Request, s0: Shared, s: Shared, ok: bool)
    requires Midway(pc, req, s0, s) && CleanExit(pc)
    ensures Midway(ThreadStep(pc, s, ok).0, req, s0, ThreadStep(pc, s, ok).1)
    ensures CleanExit(ThreadStep(pc, s, ok).0)
  {
    if pc.Apply? {
      if StepsLeft(pc.a) > 6 {
        PreparingMidway(pc, req, s0, s, ok);
      } else {
        ReplacingMidway(pc, req, s0, s, ok);
      }
    }
  }

  lemma {:induction false} MidwayDrive(pc: Pc, req: Request, s0: Shared, s: Shared, oks: seq<bool>)
    requires Midway(pc, req, s0, s) && CleanExit(pc)
    ensures Midway(Drive(pc, s, oks).0, req, s0, Drive(pc, s, oks).1)
    decreases |oks|
  {
    if oks != [] {
      MidwayStep(pc, req, s0, s, oks[0]);
      MidwayDrive(ThreadStep(pc, s, oks[0]).0, req, s0, ThreadStep(pc, s, oks[0]).1, oks[1..]);
    }
  }

  /** Cut off after any of its actions, whatever failed on the way, an apply has
      left the installed file either untouched or already the whole new binary,
      and in that case the old one is in the backup and the marker is pending. */
  lemma ApplyCutAnywhere(s: Shared, req: Request, oks: seq<bool>)
    ensures var d := Drive(Apply(ApEnter, req), s, oks).1.disk;
            || d.install == s.disk.install
            || (&& d.install == Whole(req.image) && d.prev == Some(s.disk.install)
                && d.marker == Some(NewMarker(s.flags.running, req, s.clock)))
  {
    MidwayDrive(Apply(ApEnter, req), req, s, s, oks);
  }

  // ---- an apply that ends ------------------------------------------------------------

  predicate AtExit(exit: LeavePc, pc: Pc) {
    pc.Leave? && pc.l == exit
  }

  /** Every unlink the thread makes at one of its exits takes effect. */
  predicate UnlinkWorks(exit: LeavePc, pc: Pc, s: Shared, oks: seq<bool>)
    decreases |oks|
  {
    oks == [] ||
    ((AtExit(exit, pc) ==> oks[0])
     && UnlinkWorks(exit, ThreadStep(pc, s, oks[0]).0, ThreadStep(pc, s, oks[0]).1, oks[1..]))
  }

  /** By position: whenever the thread is at the exit, the outcome of its call is good. */
  lemma {:induction false} UnlinkWorksIff(exit: LeavePc, pc: Pc, s: Shared, oks: seq<bool>)
    ensures UnlinkWorks(exit, pc, s, oks) <==>
            forall i :: 0 <= i < |oks| && AtExit(exit, Drive(pc, s, oks[..i]).0) ==> oks[i]
    decreases |oks|
  {
    if oks != [] {
      var (pc', s') := ThreadStep(pc, s, oks[0]);
      UnlinkWorksIff(exit, pc', s', oks[1..]);
      forall i | 0 < i < |oks|
        ensures Drive(pc, s, oks[..i]) == Drive(pc', s', oks[1..][..i - 1])
      {
        assert oks[..i][1..] == oks[1..][..i - 1];
      }
      assert Drive(pc, s, oks[..0]) == (pc, s);
      forall i | 0 <= i < |oks| - 1
        ensures Drive(pc', s', oks[1..][..i]) == Drive(pc, s, oks[..i + 1])
      {
        assert oks[..i + 1][1..] == oks[1..][..i];
      }
    }
  }

  predicate IsDownload(f: Option<Image>, req: Request) {
    f == Some(Torn(req.image)) || f == Some(Whole(req.image))
  }

  /** The marker is as it was, unless the unlink of the new one failed. */
  predicate MarkerLeft(s0: Shared, d: Disk, unmarked: bool) {
    if unmarked then d.marker == s0.disk.marker else s0.disk.marker.None? && d.marker.Some?
  }

  /** No file was touched; or the download is gone, unless its unlink failed. */
  predicate DownloadLeft(req: Request, s0: Shared, d: Disk, dropped: bool) {
    if dropped then d.staged.None? || d == s0.disk else IsDownload(d.staged, req)
  }

  /** How far an apply has got in making and undoing its marker and its download;
      `unmarked` and `dropped` tell whether the unlinks made so far took effect. */
  predicate Undone(pc: Pc, req: Request, s0: Shared, s: Shared, unmarked: bool, dropped: bool) {
    var d := s.disk;
    match pc
    case Apply(a, r) =>
      && r == req && unmarked && dropped
      && (StepsLeft(a) >= 12 ==> d == s0.disk)
      && (StepsLeft(a) <= 12 ==> s0.disk.marker.None?)
      && (StepsLeft(a) <= 10 ==> IsDownload(d.staged, req))
      && (if a.ApSwap? then d.marker.Some? else d.marker == s0.disk.marker)
    case Leave(l, res) =>
      if res.Updated? then l.Release?
      else
        && (if l.DropMarker? then s0.disk.marker.None? && d.marker.Some? && unmarked
            else MarkerLeft(s0, d, unmarked))
        && (if l.Release? then DownloadLeft(req, s0, d, dropped) else IsDownload(d.staged, req) && dropped)
    case Finished(res) =>
      !res.Updated? ==> MarkerLeft(s0, d, unmarked) && DownloadLeft(req, s0, d, dropped)
    case _ => false
  }

  lemma UndoneStep(pc: Pc, req: Request, s0: Shared, s: Shared, unmarked: bool, dropped: bool, ok: bool)
    requires Undone(pc, req, s0, s, unmarked, dropped)
    ensures Undone(ThreadStep(pc, s, ok).0, req, s0, ThreadStep(pc, s, ok).1,
                   unmarked && (pc.Leave? && pc.l.DropMarker? ==> ok),
                   dropped && (pc.Leave? && pc.l.DropNew? ==> ok))
  {
  }

  lemma {:induction false} UndoneDrive(
      pc: Pc, req: Request, s0: Shared, s: Shared, unmarked: bool, dropped: bool, oks: seq<bool>)
    requires Undone(pc, req, s0, s, unmarked, dropped)
    ensures Undone(Drive(pc, s, oks).0, req, s0, Drive(pc, s, oks).1,
                   unmarked && UnlinkWorks(DropMarker, pc, s, oks), dropped && UnlinkWorks(DropNew, pc, s, oks))
    decreases |oks|
  {
    if oks != [] {
      UndoneStep(pc, req, s0, s, unmarked, dropped, oks[0]);
      UndoneDrive(ThreadStep(pc, s, oks[0]).0, req, s0, ThreadStep(pc, s, oks[0]).1,
                  unmarked && (pc.Leave? && pc.l.DropMarker? ==> oks[0]),
                  dropped && (pc.Leave? && pc.l.DropNew? ==> oks[0]), oks[1..]);
    }
  }

  /** An apply that ends without an update, whatever failed on the way: the installed
      file is untouched; the marker is as before exactly when no unlink of a marker it
      made failed; and when the unlink of its download worked either there is no
      download or no file was touched at all. */
  lemma FailedApplyLeavesNothing(s: Shared, req: Request, oks: seq<bool>)
    requires var pc := Drive(Apply(ApEnter, req), s, oks).0; pc.Finished? && !pc.res.Updated?
    ensures var d := Drive(Apply(ApEnter, req), s, oks).1.disk;
            && d.install == s.disk.install
            && (d.marker == s.disk.marker <==> UnlinkWorks(DropMarker, Apply(ApEnter, req), s, oks))
            && (UnlinkWorks(DropNew, Apply(ApEnter, req), s, oks) ==> d.staged.None? || d == s.disk)
            && (!UnlinkWorks(DropNew, Apply(ApEnter, req), s, oks) ==> IsDownload(d.staged, req))
  {
    UndoneDrive(Apply(ApEnter, req), req, s, s, true, true, oks);
    MidwayDrive(Apply(ApEnter, req), req, s, s, oks);
  }

  /** The early exits from a given point on. */
  lemma {:induction false} ExitLeaves(l: LeavePc, res: ApplyResult, s: Shared, oks: seq<bool>)
    requires Drive(Leave(l, res), s, oks).0.Finished?
    ensures var d := Drive(Leave(l, res), s, oks).1.disk;
            && d.install == s.disk.install
            && (UnlinkWorks(DropMarker, Leave(l, res), s, oks) ==>
                  d.marker == if l.DropMarker? then None else s.disk.marker)
            && (UnlinkWorks(DropNew, Leave(l, res), s, oks) ==>
                  d.staged == if l.Release? then s.disk.staged else None)
            && (l.Release? ==> d == s.disk)
    decreases |oks|
  {
    var (pc', s') := ThreadStep(Leave(l, res), s, oks[0]);
    if pc'.Leave? {
      ExitLeaves(pc'.l, res, s', oks[1..]);
    } else {
      FinishedStays(pc', s', oks[1..]);
    }
  }

  lemma {:induction false} FinishedStays(pc: Pc, s: Shared, oks: seq<bool>)
    requires pc.Finished?
    ensures Drive(pc, s, oks) == (pc, s)
    decreases |oks|
  {
    if oks != [] {
      FinishedStays(pc, s, oks[1..]);
    }
  }

  // ---- what an apply answers ------------------------------------------------------

  // By number, counted from the entry, an apply's calls are: 2 the first look at open
  // sessions, 4 the download, 5 the checksum, 6 the preflight, 7 the second look, 9 and
  // 10 the copy of the binary, 11 its move into place, 12 the marker, 13 the swap.

  /** Call number i was made and worked. */
  predicate Good(oks: seq<bool>, i: nat) {
    i < |oks| && oks[i]
  }

  /** Call number i was made and did not work. */
  predicate Bad(oks: seq<bool>, i: nat) {
    i < |oks| && !oks[i]
  }

  /** The in-progress flag is taken and no marker is in the way. */
  predicate Admits(req: Request, s: Shared) {
    req.version != "" && !s.flags.inProgress && s.disk.marker.None?
  }

  /** An apply starts its download. */
  predicate Starts(req: Request, s: Shared, oks: seq<bool>) {
    Admits(req, s) && (req.origin.AutoPoll? ==> Good(oks, 2))
  }

  /** The download is accepted. */
  predicate Vetted(req: Request, s: Shared, oks: seq<bool>) {
    && Starts(req, s, oks) && Good(oks, 4) && Good(oks, 5) && Good(oks, 6)
    && (req.origin.AutoPoll? ==> Good(oks, 7))
  }

  /** The result follows from the calls made. */
  predicate Answers(res: ApplyResult, req: Request, s: Shared, oks: seq<bool>) {
    && (res.Updated? <==>
          && Vetted(req, s, oks)
          && Good(oks, 9) && Good(oks, 10) && Good(oks, 11) && Good(oks, 12) && Good(oks, 13))
    && (res.Deferred? <==>
          && Admits(req, s) && req.origin.AutoPoll?
          && (Bad(oks, 2) || (Good(oks, 4) && Good(oks, 5) && Good(oks, 6) && Bad(oks, 7))))
    && (res == Failed("error") <==> req.version == "")
    && (res == Failed("busy") <==> req.version != "" && s.flags.inProgress)
    && (res == Failed("restart_pending") <==>
          req.version != "" && !s.flags.inProgress && s.disk.marker.Some?)
    && (res == Failed("download") <==> Starts(req, s, oks) && Bad(oks, 4))
    && (res == Failed("checksum") <==> Starts(req, s, oks) && Good(oks, 4) && Bad(oks, 5))
    && (res == Failed("preflight") <==> Starts(req, s, oks) && Good(oks, 4) && Good(oks, 5) && Bad(oks, 6))
    && (res == Failed("no_space") || res == Failed("prev_failed") <==>
          && Vetted(req, s, oks)
          && (|| Bad(oks, 9) || (Good(oks, 9) && Bad(oks, 10))
              || (Good(oks, 9) && Good(oks, 10) && Bad(oks, 11))))
    && (res == Failed("marker_failed") <==>
          Vetted(req, s, oks) && Good(oks, 9) && Good(oks, 10) && Good(oks, 11) && Bad(oks, 12))
    && (res == Failed("swap_failed") <==>
          && Vetted(req, s, oks)
          && Good(oks, 9) && Good(oks, 10) && Good(oks, 11) && Good(oks, 12) && Bad(oks, 13))
    && (res.Failed? ==>
          res.reason in {"error", "busy", "restart_pending", "download", "checksum", "preflight",
                         "no_space", "prev_failed", "marker_failed", "swap_failed"})
  }

  /** The calls behind an apply that has come this far. */
  predicate Behind(a: ApplyPc, req: Request, s0: Shared, past: seq<bool>) {
    var k := 14 - StepsLeft(a);
    && |past| == k
    && (k > 0 ==> req.version != "" && !s0.flags.inProgress)
    && (k > 1 ==> s0.disk.marker.None?)
    && (k > 2 && req.origin.AutoPoll? ==> past[2])
    && (k > 4 ==> past[4]) && (k > 5 ==> past[5]) && (k > 6 ==> past[6])
    && (k > 7 && req.origin.AutoPoll? ==> past[7])
    && (k > 9 ==> past[9]) && (k > 10 ==> past[10]) && (k > 11 ==> past[11]) && (k > 12 ==> past[12])
  }

  predicate Answering(pc: Pc, req: Request, s0: Shared, s: Shared, past: seq<bool>) {
    match pc
    case Apply(a, r) =>
      && r == req && Behind(a, req, s0, past) && HasDownload(a, req, s.disk)
      && (a.ApEnter? ==> s.flags.inProgress == s0.flags.inProgress)
      && (a.ApEnter? || a.ApCheck? ==> s.disk.marker == s0.disk.marker)
    case Leave(l, res) => Answers(res, req, s0, past)
    case Finished(res) => Answers(res, req, s0, past)
    case _ => false
  }

  lemma AnswersOn(res: ApplyResult, req: Request, s0: Shared, past: seq<bool>, ok: bool)
    requires Answers(res, req, s0, past)
    ensures Answers(res, req, s0, past + [ok])
  {
  }

  lemma PreparingAnswers(pc: Pc, req: Request, s0: Shared, s: Shared, past: seq<bool>, ok: bool)
    requires Answering(pc, req, s0, s, past) && pc.Apply? && StepsLeft(pc.a) > 6
    ensures Answering(ThreadStep(pc, s, ok).0, req, s0, ThreadStep(pc, s, ok).1, past + [ok])
  {
  }

  lemma ReplacingAnswers(pc: Pc, req: Request, s0: Shared, s: Shared, past: seq<bool>, ok: bool)
    requires Answering(pc, req, s0, s, past) && pc.Apply? && StepsLeft(pc.a) <= 6
    ensures Answering(ThreadStep(pc, s, ok).0, req, s0, ThreadStep(pc, s, ok).1, past + [ok])
  {
  }

  lemma AnsweringStep(pc: Pc, req: Request, s0: Shared, s: Shared, past: seq<bool>, ok: bool)
    requires Answering(pc, req, s0, s, past)
    ensures Answering(ThreadStep(pc, s, ok).0, req, s0, ThreadStep(pc, s, ok).1, past + [ok])
  {
    if pc.Apply? {
      if StepsLeft(pc.a) > 6 {
        PreparingAnswers(pc, req, s0, s, past, ok);
      } else {
        ReplacingAnswers(pc, req, s0, s, past, ok);
      }
    } else {
      AnswersOn(pc.res, req, s0, past, ok);
    }
  }

  lemma {:induction false} AnsweringDrive(
      pc: Pc, req: Request, s0: Shared, s: Shared, past: seq<bool>, oks: seq<bool>)
    requires Answering(pc, req, s0, s, past)
    ensures Answering(Drive(pc, s, oks).0, req, s0, Drive(pc, s, oks).1, past + oks)
    decreases |oks|
  {
    if oks == [] {
      assert past + oks == past;
    } else {
      AnsweringStep(pc, req, s0, s, past, oks[0]);
      AnsweringDrive(ThreadStep(pc, s, oks[0]).0, req, s0, ThreadStep(pc, s, oks[0]).1, past + [oks[0]], oks[1..]);
      assert past + [oks[0]] + oks[1..] == past + oks;
    }
  }

  /** What an apply answers, for every outcome of every call: each result exactly under
      its own gates. In particular an update takes a verified checksum, a working
      preflight and, for the automatic poll, no open session at both looks. */
  lemma ApplyAnswers(s: Shared, req: Request, oks: seq<bool>)
    requires Drive(Apply(ApEnter, req), s, oks).0.Finished?
    ensures Answers(Drive(Apply(ApEnter, req), s, oks).0.res, req, s, oks)
  {
    AnsweringDrive(Apply(ApEnter, req), req, s, s, [], oks);
    assert [] + oks == oks;
  }

  /** Cut off after any of its actions, an apply that has changed the installed file had
      its download checked and run first, found the device idle twice if automatic, and
      had the copy of the old binary in place and the marker written. */
  lemma InstalledWasVetted(s: Shared, req: Request, oks: seq<bool>)
    requires Drive(Apply(ApEnter, req), s, oks).1.disk.install != s.disk.install
    ensures Vetted(req, s, oks)
    ensures Good(oks, 9) && Good(oks, 10) && Good(oks, 11) && Good(oks, 12) && Good(oks, 13)
  {
    MidwayDrive(Apply(ApEnter, req), req, s, s, oks);
    AnsweringDrive(Apply(ApEnter, req), req, s, s, [], oks);
    assert [] + oks == oks;
  }
}
