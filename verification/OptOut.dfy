/** The user's opt-out from automatic updates over the life of a device: remote
    config messages, restarts, reinstalls, the policy command and reconfigures. */
module OptOut {
  import opened Options
  import opened JsonValue
  import opened ConfigFile
  import opened UpdatePolicy
  import opened RemoteOverride
  import opened CommandHandler

  /** The configuration file, and the running agent's override. */
  datatype Device = Device(file: Content, override: int)

  datatype Event =
    | Message(payload: Json)
    | Restart
    | Install(c: Credentials, flag: string, io: InstallIo)
    | PolicyCommand(policy: string, channel: string, access: PolicyIo)
    | Reconfigure(setup: Setup, opens: bool, opensAfter: bool, lands: bool)

  ghost function Next(d: Device, e: Event): Device {
    match e
    case Message(payload) => d.(override := AfterMessage(d.override, payload))
    case Restart => d.(override := NO_OVERRIDE)
    case Install(c, flag, io) => d.(file := Installed(d.file, c, flag, io))
    case PolicyCommand(policy, channel, io) => d.(file := PolicySet(d.file, policy, channel, io).0)
    case Reconfigure(setup, opens, opensAfter, lands) =>
      d.(file := Reconfigured(d.file, setup, opens, opensAfter, lands))
  }

  ghost function Run(d: Device, es: seq<Event>): Device
    decreases |es|
  {
    if es == [] then d else Run(Next(d, es[0]), es[1..])
  }

  /** What a poll cycle goes by. */
  ghost function InForce(d: Device): Policy {
    EffectivePolicy(Read(Section(d.file)), Decode(d.override))
  }

  ghost predicate OptedOut(file: Content) {
    OptedOutSettings(Read(Section(file)))
  }

  lemma OptedOutIsWritten(file: Content)
    requires OptedOut(file)
    ensures file.Document? && !IsEmpty(Section(file))
  {
  }

  lemma WrittenPolicyReadsBack(s: Settings, p: Policy)
    ensures OptedOutSettings(Read(ToJson(s.(policy := p, source := LocalExplicit)))) <==> p.Managed?
  {
  }

  /** A sufficient and necessary condition, event by event, for an opt-out to
      outlive it; each part can be checked when the command returns. */
  ghost predicate Keeps(e: Event) {
    match e
    case Message(_) => true
    case Restart => true
    case Install(c, flag, io) =>
      if !c.IsValid() || !io.saveLands then true
      else if PolicyFromString(flag).Some? && io.opensWrite && io.sectionLands then flag == "managed"
      else io.opensBefore && !(flag == "" && !io.opensRead && io.opensWrite && io.sectionLands)
    case PolicyCommand(policy, channel, io) =>
      !(policy == "auto" && (channel == "" || SafeChannel(channel)) && io.opensWrite && io.lands)
    case Reconfigure(setup, opens, opensAfter, lands) =>
      && opens && setup.ok && setup.saves.Some? && setup.saves.value.IsValid() && setup.lands
      && opensAfter && lands
  }

  /** What the section says after the credentials were saved over it. */
  lemma SectionAfterSave(file: Content, c: Credentials, opens: bool)
    requires c.IsValid()
    ensures var saved := After(file, SaveOp(c, opens, true));
            saved.Document? && Section(saved) == if opens then Section(file) else EMPTY_SECTION
  {
  }

  lemma SectionAfterWrite(file: Content, update: Json, opens: bool, lands: bool)
    requires file.Document?
    ensures Section(After(file, SectionOp(update, opens, lands))) ==
              if opens && lands then update else Section(file)
  {
  }

  lemma InstallKeepsIff(file: Content, c: Credentials, flag: string, io: InstallIo)
    requires OptedOut(file)
    ensures OptedOut(Installed(file, c, flag, io)) <==> Keeps(Install(c, flag, io))
  {
    OptedOutIsWritten(file);
    if c.IsValid() && io.saveLands {
      SectionAfterSave(file, c, io.opensBefore);
      var saved := After(file, SaveOp(c, io.opensBefore, true));
      var seen := SectionSeen(saved, io.opensRead);
      var p := PolicyFromString(flag);
      if p.Some? {
        var written := Read(seen).(policy := p.value, source := LocalExplicit);
        WrittenPolicyReadsBack(Read(seen), p.value);
        SectionAfterWrite(saved, ToJson(written), io.opensWrite, io.sectionLands);
      } else if flag == "" && IsEmpty(seen) {
        DefaultsAreNoOptOut(seen);
        SectionAfterWrite(saved, ToJson(Read(seen)), io.opensWrite, io.sectionLands);
      }
    }
  }

  /** What an installation writes when it sees no section is not an opt-out. */
  lemma DefaultsAreNoOptOut(seen: Json)
    requires IsEmpty(seen)
    ensures !OptedOutSettings(Read(ToJson(Read(seen))))
  {
    ReadIsInBounds(seen);
    SettingsRoundTrip(Read(seen));
  }

  lemma PolicyCommandKeepsIff(file: Content, policy: string, channel: string, io: PolicyIo)
    requires OptedOut(file)
    ensures OptedOut(PolicySet(file, policy, channel, io).0) <==> Keeps(PolicyCommand(policy, channel, io))
  {
    OptedOutIsWritten(file);
    if PolicySet(file, policy, channel, io).1 {
      PolicyCommandIsReadBack(file, policy, channel, io);
    }
  }

  lemma ReconfigureKeepsIff(file: Content, setup: Setup, opens: bool, opensAfter: bool, lands: bool)
    requires OptedOut(file)
    ensures OptedOut(Reconfigured(file, setup, opens, opensAfter, lands))
            <==> Keeps(Reconfigure(setup, opens, opensAfter, lands))
  {
  }

  lemma KeepsIff(d: Device, e: Event)
    requires OptedOut(d.file)
    ensures OptedOut(Next(d, e).file) <==> Keeps(e)
  {
    match e
    case Message(_) =>
    case Restart =>
    case Install(c, flag, io) => InstallKeepsIff(d.file, c, flag, io);
    case PolicyCommand(policy, channel, io) => PolicyCommandKeepsIff(d.file, policy, channel, io);
    case Reconfigure(setup, opens, opensAfter, lands) =>
      ReconfigureKeepsIff(d.file, setup, opens, opensAfter, lands);
  }

  ghost predicate AllKeep(es: seq<Event>) {
    forall i :: 0 <= i < |es| ==> Keeps(es[i])
  }

  /** The opt-out persists: through any events that keep it, in any order and
      number, the device stays managed at every moment, whatever the server says. */
  lemma {:induction false} OptOutPersists(d: Device, es: seq<Event>, n: nat)
    requires OptedOut(d.file) && AllKeep(es) && n <= |es|
    ensures OptedOut(Run(d, es[..n]).file) && InForce(Run(d, es[..n])).Managed?
    decreases n
  {
    if n == 0 {
      OptOutIffOutOfReach(Read(Section(d.file)));
    } else {
      KeepsIff(d, es[0]);
      assert es[..n][1..] == es[1..][..n - 1];
      OptOutPersists(Next(d, es[0]), es[1..], n - 1);
    }
  }

  /** Every file access worked, and a reconfigure went through to the end. */
  predicate WentThrough(e: Event) {
    match e
    case Message(_) => true
    case Restart => true
    case Install(c, _, io) => c.IsValid() && io == InstallIo(true, true, true, true, true)
    case PolicyCommand(_, _, io) => io == PolicyIo(true, true, true)
    case Reconfigure(setup, opens, opensAfter, lands) =>
      && opens && opensAfter && lands
      && setup.ok && setup.lands && setup.saves.Some? && setup.saves.value.IsValid()
  }

  /** The user asking for automatic updates. */
  ghost predicate LocalAuto(e: Event) {
    || (e.Install? && e.flag == "auto")
    || (e.PolicyCommand? && e.policy == "auto" && (e.channel == "" || SafeChannel(e.channel)))
  }

  /** When nothing goes wrong on the way, exactly the user's own `auto` ends it. */
  lemma OnlyLocalAutoEndsIt(d: Device, e: Event)
    requires OptedOut(d.file) && WentThrough(e)
    ensures OptedOut(Next(d, e).file) <==> !LocalAuto(e)
  {
    KeepsIff(d, e);
  }

  /** A reconfigure that leaves a working configuration keeps the opt-out exactly when
      the setup also returned true and the section could be read and put back. */
  lemma ReconfigureThatEndsWithAFile(file: Content, setup: Setup, opens: bool, opensAfter: bool, lands: bool)
    requires OptedOut(file) && setup.saves.Some? && setup.saves.value.IsValid() && setup.lands
    ensures Loaded(Reconfigured(file, setup, opens, opensAfter, lands)) == Some(setup.saves.value.Normalised())
    ensures OptedOut(Reconfigured(file, setup, opens, opensAfter, lands))
            <==> (setup.ok && opens && opensAfter && lands)
  {
    var save := SaveOp(setup.saves.value, true, true);
    StepRefines(Missing, save);
    StepRefines(After(Missing, save), SectionOp(SectionSeen(file, opens), opensAfter, lands));
    ReconfigureKeepsIff(file, setup, opens, opensAfter, lands);
  }

  /** Another input: a reinstall without the flag whose read of the section fails and
      whose write of it works puts the defaults over an opt-out that was still there. */
  lemma FailedReadLosesOptOut(file: Content, c: Credentials)
    requires OptedOut(file) && c.IsValid()
    ensures var saved := After(file, SaveOp(c, true, true));
            var d := Next(Device(file, NO_OVERRIDE), Install(c, "", InstallIo(true, true, false, true, true)));
            OptedOut(saved) && !OptedOut(d.file) && InForce(d).Automatic?
  {
    SectionAfterSave(file, c, true);
    var saved := After(file, SaveOp(c, true, true));
    ReadIsInBounds(EMPTY_SECTION);
    SettingsRoundTrip(Read(EMPTY_SECTION));
    SectionAfterWrite(saved, ToJson(Read(EMPTY_SECTION)), true, true);
  }

  /** The input that shows the opt-out can be lost: the service could not be
      installed, so the setup returned false with the credentials already saved.
      Every file access worked, the agent can run, and it will update itself. */
  lemma FailedServiceInstallLosesOptOut(file: Content, c: Credentials)
    requires OptedOut(file) && c.IsValid()
    ensures var d := Next(Device(file, NO_OVERRIDE), Reconfigure(Setup(Some(c), true, false), true, true, true));
            Loaded(d.file).Some? && InForce(d).Automatic?
  {
    ReconfigureThatEndsWithAFile(file, Setup(Some(c), true, false), true, true, true);
    SectionAfterSave(Missing, c, true);
  }
}
