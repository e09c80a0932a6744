/** The poll loop that decides when to try an update again
    (src/thinr/runtime/update_poller.cpp). */
module UpdatePoller {
  import opened Options
  import opened JsonValue
  import opened WatchdogCore
  import opened UpdateProtocol
  import opened UpdateAgent
  import ConfigFile
  import CommandHandler
  import UpdatePolicy
  import OptOut
  import RemoteOverride
  import Rollout

  datatype CycleResult = Normal | Postponed | Restarting

  /** Everything that has to hold for a cycle to reach the apply path. */
  ghost predicate Attempts(
      local: UpdatePolicy.Settings, override: int, m: Rollout.Manifest, fraction: real, s: Shared)
  {
    && UpdatePolicy.EffectivePolicy(local, RemoteOverride.Decode(override)).Automatic?
    && s.flags.connected
    && m.valid && m.version != s.flags.running.version
    && !(&& s.disk.reverted.Some? && s.disk.reverted.value.version == m.version
         && (s.disk.reverted.value.reason == "deadline" ==> s.clock < s.disk.reverted.value.at + 86400))
    && Rollout.MayInstall(m, fraction, s.clock)
  }

  /** The machine's poll thread lets a cycle through to the apply path exactly under
      `Attempts`, and changes nothing on the way. */
  lemma AttemptsIsTheGate(
      local: UpdatePolicy.Settings, override: int, doc: Option<Json>, fraction: real, s: Shared, served: Binary)
    ensures var m := Rollout.ParsedManifest(doc);
            var req := Request(m.version, served, local.rollbackDeadlineS, AutoPoll);
            var policy := UpdatePolicy.EffectivePolicy(local, RemoteOverride.Decode(override));
            var (pc1, s1) := ThreadStep(Call(PollEnter, req), s, policy.Automatic?);
            var (pc2, s2) := ThreadStep(pc1, s1, true);
            var (pc3, s3) := ThreadStep(pc2, s2, Rollout.MayInstall(m, fraction, s.clock));
            s3 == s && pc3 == if Attempts(local, override, m, fraction, s) then Apply(ApEnter, req) else Done
  {
  }

  /** A device that has opted out attempts nothing, after any events that keep the
      opt-out, whatever the server offers and whatever state the agent is in, unless
      the cycle could not open the configuration. */
  lemma OptedOutAttemptsNothing(
      d: OptOut.Device, es: seq<OptOut.Event>, n: nat, opens: bool, m: Rollout.Manifest, fraction: real, s: Shared)
    requires OptOut.OptedOut(d.file) && OptOut.AllKeep(es) && n <= |es|
    ensures var now := OptOut.Run(d, es[..n]);
            Attempts(UpdatePolicy.Read(CommandHandler.SectionSeen(now.file, opens)), now.override, m, fraction, s)
            ==> !opens
  {
    OptOut.OptOutPersists(d, es, n);
  }

  /** A cycle honours the opt-out under every override exactly when it can open the
      configuration: a section that cannot be read counts as the default, `auto`. */
  lemma OptOutHonouredIff(file: ConfigFile.Content, opens: bool)
    requires OptOut.OptedOut(file)
    ensures (forall v :: UpdatePolicy.EffectivePolicy(
               UpdatePolicy.Read(CommandHandler.SectionSeen(file, opens)), RemoteOverride.Decode(v)).Managed?)
            <==> opens
  {
    if opens {
      UpdatePolicy.OptOutIffOutOfReach(UpdatePolicy.Read(ConfigFile.Section(file)));
    } else {
      var none := RemoteOverride.Decode(RemoteOverride.NO_OVERRIDE);
      assert !UpdatePolicy.EffectivePolicy(UpdatePolicy.Read(ConfigFile.EMPTY_SECTION), none).Managed?;
    }
  }

  // ---- how long the loop sleeps (src/thinr/update/poll_schedule.hpp) --------------

  const DEFERRED_RETRY_DELAY_S := 600.0

  function ClampUnit(u: real): real {
    if u < 0.0 then 0.0 else if u > 1.0 then 1.0 else u
  }

  function FirstPollDelay(u: real): real {
    ClampUnit(u) * 30.0 * 60.0
  }

  function NormalPollDelay(intervalH: int, u: real): real {
    intervalH as real * 3600.0 * (0.9 + 0.2 * ClampUnit(u))
  }

  lemma Scaled(x: real, a: real, b: real)
    requires x >= 0.0 && a <= b
    ensures x * a <= x * b
  {
  }

  /** The pause is the configured interval give or take a tenth, so with the interval
      clamped between 54 minutes and 7.7 days. */
  lemma NormalDelayInBounds(intervalH: int, u: real)
    requires UpdatePolicy.CHECK_INTERVAL_MIN_H <= intervalH <= UpdatePolicy.CHECK_INTERVAL_MAX_H
    ensures 0.9 * 3600.0 * intervalH as real <= NormalPollDelay(intervalH, u) <= 1.1 * 3600.0 * intervalH as real
    ensures 3240.0 <= NormalPollDelay(intervalH, u) <= 665280.0
  {
    var h, j := intervalH as real * 3600.0, 0.9 + 0.2 * ClampUnit(u);
    Scaled(h, 0.9, j);
    Scaled(h, j, 1.1);
  }

  /** The random number spreads the pause evenly, from the one end at 0 to the other at
      1, and the first pause from none to half an hour. */
  lemma DelaySpread(intervalH: int, u: real)
    requires 0.0 <= u <= 1.0
    ensures NormalPollDelay(intervalH, 0.0) == 0.9 * 3600.0 * intervalH as real
    ensures NormalPollDelay(intervalH, 1.0) == 1.1 * 3600.0 * intervalH as real
    ensures NormalPollDelay(intervalH, u) - NormalPollDelay(intervalH, 0.0) == u * (720.0 * intervalH as real)
    ensures FirstPollDelay(u) == u * 1800.0
  {
  }

  /** The pause after a cycle: ten minutes when the apply was put off, and otherwise,
      unless it restarts, the interval read at that wake give or take a tenth. */
  predicate PauseOk(intervalH: int, outcome: Option<ApplyResult>, pause: real) {
    && (outcome == Some(Deferred) ==> pause == 600.0)
    && (outcome.None? || outcome.value.Failed? ==>
          && 0.9 * 3600.0 * intervalH as real <= pause <= 1.1 * 3600.0 * intervalH as real
          && 3240.0 <= pause <= 665280.0)
  }

  /** One turn of the loop as it finds the world: asked to stop or not, the clock and
      the connection by then, what the server answers, and the random number. */
  datatype Wake = Wake(
    stopping: bool,
    now: int,
    connected: bool,
    doc: Option<Json>,
    served: Binary,
    opens: bool,
    u: real)

  /** A cycle as it went: the agent before, what the apply path answered if it was
      reached, the agent after, and the pause that follows. */
  datatype Cycle = Cycle(start: Shared, outcome: Option<ApplyResult>, end: Shared, pause: real)

  function ResultOf(outcome: Option<ApplyResult>): CycleResult {
    if outcome == Some(Updated) then Restarting
    else if outcome == Some(Deferred) then Postponed
    else Normal
  }

  /** The agent as a wake finds it. */
  function Woken(s: Shared, w: Wake): Shared {
    s.(clock := w.now, flags := s.flags.(connected := w.connected))
  }

  /** The apply path entered with a request can come to this answer and this state. */
  ghost predicate AppliesTo(req: Request, s: Shared, res: ApplyResult, s': Shared) {
    exists oks :: Drive(Apply(ApEnter, req), s, oks) == (Finished(res), s')
  }

  ghost predicate CycleOk(file: ConfigFile.Content, override: int, fraction: real, w: Wake, c: Cycle) {
    var local := UpdatePolicy.Read(CommandHandler.SectionSeen(file, w.opens));
    var m := Rollout.ParsedManifest(w.doc);
    && (c.outcome.Some? <==> Attempts(local, override, m, fraction, c.start))
    && (if c.outcome.None? then c.end == c.start
        else
          AppliesTo(Request(m.version, w.served, local.rollbackDeadlineS, AutoPoll), c.start, c.outcome.value, c.end))
    && (c.end.disk.install != c.start.disk.install ==> c.outcome == Some(Updated))
    && PauseOk(local.checkIntervalH, c.outcome, c.pause)
  }

  function EndOf(s: Shared, log: seq<Cycle>): Shared {
    if log == [] then s else log[|log| - 1].end
  }

  predicate Restarted(log: seq<Cycle>) {
    log != [] && log[|log| - 1].outcome == Some(Updated)
  }

  /** One cycle for every wake so far, none of them a stop, each starting where the
      one before ended, and none after one that swapped the binary. */
  ghost predicate CyclesOk(
      file: ConfigFile.Content, override: int, fraction: real, s: Shared, wakes: seq<Wake>, log: seq<Cycle>)
    decreases |log|
  {
    log == [] ||
    var k := |log| - 1;
    && k < |wakes| && !wakes[k].stopping && !Restarted(log[..k])
    && CyclesOk(file, override, fraction, s, wakes, log[..k])
    && CycleOk(file, override, fraction, wakes[k], log[k])
    && log[k].start == Woken(EndOf(s, log[..k]), wakes[k])
  }

  function PausesOf(log: seq<Cycle>): seq<real> {
    if log == [] then [] else PausesOf(log[..|log| - 1]) + [log[|log| - 1].pause]
  }

  class Poller {
    const agent: Agent
    const config: ConfigFile.ConfigManager
    const fraction: real
    var remotePolicy: int
    var lastIntervalH: int

    constructor (agent: Agent, config: ConfigFile.ConfigManager, fraction: real)
      ensures this.agent == agent && this.config == config && this.fraction == fraction
      ensures RemoteOverride.Decode(remotePolicy).None?
    {
      this.agent, this.config, this.fraction := agent, config, fraction;
      remotePolicy, lastIntervalH := RemoteOverride.NO_OVERRIDE, 6;
    }

    method SetRemotePolicy(p: Option<UpdatePolicy.Policy>)
      modifies this`remotePolicy
      ensures RemoteOverride.Decode(remotePolicy) == p
    {
      var v := -1;
      if p.Some? {
        v := if p.value.Managed? then 1 else 0;
      }
      remotePolicy := v;
    }

    /** The agent's handler of the remote `config` property. */
    method ReceiveConfig(payload: Json)
      modifies this`remotePolicy
      ensures RemoteOverride.Decode(remotePolicy) ==
              RemoteOverride.Decode(RemoteOverride.AfterMessage(old(remotePolicy), payload))
    {
      if payload.Null? || !payload.Obj? {
        SetRemotePolicy(None);
      } else if "update" !in payload.fields {
        SetRemotePolicy(None);
      } else if payload.fields["update"].Text("policy").Some? {
        var p := UpdatePolicy.PolicyFromString(payload.fields["update"].Text("policy").value);
        if p.Some? {
          SetRemotePolicy(p);
        }
      }
    }

    /** run_cycle. `doc` is what fetching the manifest gave, `served` the bytes the
        server will return for the binary. The cycle goes down the apply path exactly
        under `Attempts`, and otherwise leaves the agent as it was. */
    method RunCycle(doc: Option<Json>, served: Binary, opens: bool, at: nat)
      returns (r: CycleResult, ghost req: Request, ghost outcome: Option<ApplyResult>, n: nat, ghost t: Trip)
      modifies this`lastIntervalH, agent
      ensures var m := Rollout.ParsedManifest(doc);
              var local := UpdatePolicy.Read(CommandHandler.SectionSeen(config.file, opens));
              && req == Request(m.version, served, local.rollbackDeadlineS, AutoPoll)
              && lastIntervalH == local.checkIntervalH
              && (outcome.Some? <==> Attempts(local, remotePolicy, m, fraction, old(agent.Shared())))
      ensures if outcome.Some? then
                agent.Ran(Apply(ApEnter, req), old(agent.Shared()), at, n, t)
                && t.pc == Finished(outcome.value) && t.s == agent.Shared()
              else agent.Shared() == old(agent.Shared())
      ensures r == ResultOf(outcome)
      ensures if r.Restarting? then
                && agent.install == Whole(served) && agent.prev == Some(old(agent.install))
                && agent.markerFile == Some(NewMarker(old(agent.running), req, old(agent.clock)))
              else agent.install == old(agent.install)
    {
      var section := config.ReadUpdateSection(opens);
      var local := UpdatePolicy.FromJson(section);
      lastIntervalH := local.checkIntervalH;
      var man := Rollout.Parse(doc);
      var request := Request(man.version, served, local.rollbackDeadlineS, AutoPoll);
      req, outcome, r, n := request, None, Normal, at;
      t := agent.Begin(Apply(ApEnter, req), agent.Shared(), at);

      var policy := UpdatePolicy.EffectivePolicy(local, RemoteOverride.Decode(remotePolicy));
      if policy.Managed? {
        return;
      }
      if !agent.connected {
        return;
      }
      if !man.valid {
        return;
      }
      if man.version == agent.running.version {
        return;
      }
      var rev := agent.revertedFile;
      if rev.Some? && SkipRevertedVersion(rev.value, man.version, agent.clock, REVERTED_RETRY_COOLDOWN_S) {
        return;
      }
      if !Rollout.IsEligible(Rollout.EvaluateEligibility(man, fraction, agent.clock)) {
        return;
      }

      var res;
      res, n, t := agent.ApplyWithWatchdog(request, at);
      outcome := Some(res);
      r := match res case Updated => Restarting case Deferred => Postponed case Failed(_) => Normal;
    }

    /** One turn: a cycle, and the pause after it. */
    method Turn(w: Wake, at: nat) returns (r: CycleResult, pause: real, n: nat, ghost c: Cycle)
      modifies this`lastIntervalH, agent
      ensures c.start == Woken(old(agent.Shared()), w) && c.end == agent.Shared() && c.pause == pause
      ensures CycleOk(config.file, remotePolicy, fraction, w, c)
      ensures r == ResultOf(c.outcome)
    {
      agent.clock, agent.connected := w.now, w.connected;
      ghost var start := agent.Shared();
      ghost var req, outcome, t;
      r, req, outcome, n, t := RunCycle(w.doc, w.served, w.opens, at);
      UpdatePolicy.ReadIsInBounds(CommandHandler.SectionSeen(config.file, w.opens));
      NormalDelayInBounds(lastIntervalH, w.u);
      pause := if r.Postponed? then DEFERRED_RETRY_DELAY_S else NormalPollDelay(lastIntervalH, w.u);
      c := Cycle(start, outcome, agent.Shared(), pause);
    }

    /** A turn added to those there were. */
    method NextTurn(w: Wake, at: nat, ghost s0: Shared, ghost wakes: seq<Wake>, ghost log: seq<Cycle>)
      returns (r: CycleResult, pause: real, n: nat, ghost c: Cycle)
      requires |log| < |wakes| && w == wakes[|log|] && agent.Shared() == EndOf(s0, log)
      requires CyclesOk(config.file, remotePolicy, fraction, s0, wakes, log) && !w.stopping && !Restarted(log)
      modifies this`lastIntervalH, agent
      ensures CyclesOk(config.file, remotePolicy, fraction, s0, wakes, log + [c])
      ensures agent.Shared() == EndOf(s0, log + [c]) && PausesOf(log + [c]) == PausesOf(log) + [pause]
      ensures r.Restarting? <==> Restarted(log + [c])
    {
      r, pause, n, c := Turn(w, at);
      assert (log + [c])[..|log|] == log;
    }

    /** poll_loop: a cycle at every wake, until told to stop or until one swapped the
        binary, so at most one swap. The first pause is at most half an hour; the others
        are as `PauseOk` says, by what the configuration says at the wake. */
    method PollLoop(u: real, wakes: seq<Wake>, at: nat)
      returns (first: real, pauses: seq<real>, n: nat, ghost log: seq<Cycle>)
      modifies this`lastIntervalH, agent
      ensures CyclesOk(config.file, remotePolicy, fraction, old(agent.Shared()), wakes, log)
      ensures |log| <= |wakes| && agent.Shared() == EndOf(old(agent.Shared()), log)
      ensures |log| < |wakes| ==> wakes[|log|].stopping || Restarted(log)
      ensures 0.0 <= first <= 1800.0 && pauses == PausesOf(log)
    {
      ghost var s0 := agent.Shared();
      first, pauses, log, n := FirstPollDelay(u), [], [], at;
      var k := 0;
      while k < |wakes|
        invariant 0 <= k <= |wakes| && |log| == k && pauses == PausesOf(log)
        invariant CyclesOk(config.file, remotePolicy, fraction, s0, wakes, log)
        invariant agent.Shared() == EndOf(s0, log) && !Restarted(log)
      {
        if wakes[k].stopping {
          return;
        }
        var r, pause;
        ghost var c;
        r, pause, n, c := NextTurn(wakes[k], n, s0, wakes, log);
        pauses, log := pauses + [pause], log + [c];
        k := k + 1;
        if r.Restarting? {
          return;
        }
      }
    }
  }
}
