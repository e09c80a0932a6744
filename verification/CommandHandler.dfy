/** The commands that write the local update policy
    (src/thinr/cli/command_handler.cpp). */
module CommandHandler {
  import opened Options
  import opened JsonValue
  import opened ConfigFile
  import opened UpdatePolicy

  /** empty() on a document: nothing, or a container of nothing. */
  predicate IsEmpty(j: Json) {
    j.Null? || j == Obj(map[]) || j == Arr([])
  }

  function SectionSeen(file: Content, opens: bool): Json {
    if opens then Section(file) else EMPTY_SECTION
  }

  // ---- what each command leaves at the path -----------------------------------

  /** How an installation's file accesses go: opening the old file and saving the
      credentials; then opening the new file once to read the section and once more
      to write it, and that write. */
  datatype InstallIo =
    InstallIo(opensBefore: bool, saveLands: bool, opensRead: bool, opensWrite: bool, sectionLands: bool)

  /** The policy recorded over freshly saved credentials. */
  ghost function Recorded(saved: Content, flag: string, io: InstallIo): Content {
    var raw := SectionSeen(saved, io.opensRead);
    var p := PolicyFromString(flag);
    if flag != "" && p.None? then saved
    else if flag == "" && !IsEmpty(raw) then saved
    else
      var s := Read(raw);
      After(saved, SectionOp(ToJson(if p.Some? then s.(policy := p.value, source := LocalExplicit) else s),
                             io.opensWrite, io.sectionLands))
  }

  ghost function Installed(file: Content, c: Credentials, flag: string, io: InstallIo): Content {
    var save := SaveOp(c, io.opensBefore, io.saveLands);
    if Succeeds(file, save) then Recorded(After(file, save), flag, io) else file
  }

  /** How the policy command's accesses go: opening the file to read the section, once
      more to write it, and that write. */
  datatype PolicyIo = PolicyIo(opensRead: bool, opensWrite: bool, lands: bool)

  /** The settings the policy command stores. */
  ghost function Chosen(seen: Settings, p: Policy, channel: string): Settings {
    seen.(policy := p, source := LocalExplicit, channel := if channel != "" then channel else seen.channel)
  }

  /** `update --policy`: the new file, and whether the command reports success. */
  ghost function PolicySet(file: Content, policy: string, channel: string, io: PolicyIo): (Content, bool) {
    var p := PolicyFromString(policy);
    if p.None? || (channel != "" && !SafeChannel(channel)) || file.Missing? then (file, false)
    else
      var s := Chosen(Read(SectionSeen(file, io.opensRead)), p.value, channel);
      var op := SectionOp(ToJson(s), io.opensWrite, io.lands);
      (After(file, op), Succeeds(file, op))
  }

  /** A policy command that reports success leaves the choice to be read back, and
      every other setting as the command saw it. */
  lemma PolicyCommandIsReadBack(file: Content, policy: string, channel: string, io: PolicyIo)
    requires PolicySet(file, policy, channel, io).1
    ensures Read(Section(PolicySet(file, policy, channel, io).0)) ==
            Chosen(Read(SectionSeen(file, io.opensRead)), PolicyFromString(policy).value, channel)
  {
    var seen := SectionSeen(file, io.opensRead);
    var s := Chosen(Read(seen), PolicyFromString(policy).value, channel);
    ReadIsInBounds(seen);
    SettingsRoundTrip(s);
    StepRefines(file, SectionOp(ToJson(s), io.opensWrite, io.lands));
  }

  /** What recording the policy leaves to be read over a document: by an explicit flag
      that could be written, the section seen with the user's choice in it; without a
      flag, the section as it was, or the defaults where none was seen. */
  lemma RecordedIsReadBack(saved: Content, flag: string, io: InstallIo)
    requires saved.Document?
    ensures var after := Recorded(saved, flag, io);
            var seen := SectionSeen(saved, io.opensRead);
            var writes := io.opensWrite && io.sectionLands;
            && Loaded(after) == Loaded(saved)
            && (flag == "managed" && writes ==>
                  Read(Section(after)) == Read(seen).(policy := Managed, source := LocalExplicit))
            && (flag == "auto" && writes ==>
                  Read(Section(after)) == Read(seen).(policy := Automatic, source := LocalExplicit))
            && (flag == "" && IsEmpty(seen) && writes ==> Read(Section(after)) == DEFAULTS)
            && (!writes || (flag == "" && !IsEmpty(seen)) || flag !in ["", "auto", "managed"] ==>
                  Section(after) == Section(saved))
  {
    var seen := SectionSeen(saved, io.opensRead);
    ReadIsInBounds(seen);
    var p := PolicyFromString(flag);
    var s := if p.Some? then Read(seen).(policy := p.value, source := LocalExplicit) else Read(seen);
    SettingsRoundTrip(s);
    StepRefines(saved, SectionOp(ToJson(s), io.opensWrite, io.sectionLands));
  }

  /** The same of a whole installation: the credentials can be loaded, and the section
      was the old one unless the old file could not be opened. */
  lemma InstallIsReadBack(file: Content, c: Credentials, flag: string, io: InstallIo)
    requires c.IsValid() && io.saveLands
    ensures var after := Installed(file, c, flag, io);
            var kept := if io.opensBefore then Section(file) else EMPTY_SECTION;
            var seen := if io.opensRead then kept else EMPTY_SECTION;
            var writes := io.opensWrite && io.sectionLands;
            && Loaded(after) == Some(c.Normalised())
            && (flag == "managed" && writes ==>
                  Read(Section(after)) == Read(seen).(policy := Managed, source := LocalExplicit))
            && (flag == "auto" && writes ==>
                  Read(Section(after)) == Read(seen).(policy := Automatic, source := LocalExplicit))
            && (flag == "" && IsEmpty(seen) && writes ==> Read(Section(after)) == DEFAULTS)
            && (!writes || (flag == "" && !IsEmpty(seen)) || flag !in ["", "auto", "managed"] ==>
                  Section(after) == kept)
  {
    var saved := After(file, SaveOp(c, io.opensBefore, io.saveLands));
    StepRefines(file, SaveOp(c, io.opensBefore, io.saveLands));
    RecordedIsReadBack(saved, flag, io);
  }

  /** How the interactive setup ended: what it tried to save, whether that reached
      the disk, and what it returned. Installing the service comes after the save,
      so it can return false with the credentials stored. */
  datatype Setup = Setup(saves: Option<Credentials>, lands: bool, ok: bool)

  function SetUp(file: Content, setup: Setup): Content {
    if setup.saves.Some? then After(file, SaveOp(setup.saves.value, true, setup.lands)) else file
  }

  function Reconfigured(file: Content, setup: Setup, opens: bool, opensAfter: bool, lands: bool): Content {
    var kept := if file.Missing? then Null else SectionSeen(file, opens);
    var blank := SetUp(Missing, setup);
    if setup.ok && !IsEmpty(kept) && !blank.Missing? then After(blank, SectionOp(kept, opensAfter, lands))
    else blank
  }

  /** A reconfigure starts over from the new credentials and puts back the section it
      set aside, if there was one to read, the setup went well and it can be written. */
  lemma ReconfigureIsReadBack(file: Content, setup: Setup, opens: bool, opensAfter: bool, lands: bool)
    ensures var after := Reconfigured(file, setup, opens, opensAfter, lands);
            if setup.saves.Some? && setup.saves.value.IsValid() && setup.lands then
              && Loaded(after) == Some(setup.saves.value.Normalised())
              && Section(after) ==
                   (if setup.ok && opens && opensAfter && lands && !IsEmpty(Section(file)) then Section(file)
                    else EMPTY_SECTION)
            else after.Missing?
  {
    if setup.saves.Some? && setup.saves.value.IsValid() && setup.lands {
      var save := SaveOp(setup.saves.value, true, true);
      StepRefines(Missing, save);
      StepRefines(After(Missing, save), SectionOp(SectionSeen(file, opens), opensAfter, lands));
    }
  }

  // ---- the handler ----------------------------------------------------------------

  class Handler {
    const config: ConfigManager
    var updatePolicy: string
    var verifySsl: bool

    constructor (config: ConfigManager)
      ensures this.config == config && updatePolicy == "" && verifySsl
    {
      this.config := config;
      updatePolicy := "";
      verifySsl := true;
    }

    /** save_and_install_service, up to the service itself. */
    method SaveAndInstallService(c: Credentials, io: InstallIo)
      modifies config
      ensures config.file == Installed(old(config.file), c.(verifySsl := verifySsl), updatePolicy, io)
    {
      var final := c.(verifySsl := verifySsl);
      var saved := config.Save(final, io.opensBefore, io.saveLands);
      if !saved {
        return;
      }
      RecordPolicy(io);
    }

    /** An explicit flag wins, a section that is there stays, and otherwise the
        defaults are written. */
    method RecordPolicy(io: InstallIo)
      modifies config
      ensures config.file == Recorded(old(config.file), updatePolicy, io)
    {
      var existing := config.ReadUpdateSection(io.opensRead);
      var settings := FromJson(existing);
      if updatePolicy != "" {
        var p := PolicyFromString(updatePolicy);
        if p.Some? {
          settings := settings.(policy := p.value);
          settings := settings.(source := LocalExplicit);
          var _ := config.WriteUpdateSection(ToJson(settings), io.opensWrite, io.sectionLands);
        }
      } else if IsEmpty(existing) {
        var _ := config.WriteUpdateSection(ToJson(settings), io.opensWrite, io.sectionLands);
      }
    }

    /** handle_update with a policy. */
    method SetPolicy(policy: string, channel: string, io: PolicyIo) returns (done: bool)
      modifies config
      ensures (config.file, done) == PolicySet(old(config.file), policy, channel, io)
    {
      var p := PolicyFromString(policy);
      if p.None? {
        return false;
      }
      if channel != "" {
        var safe := ValidChannel(channel);
        if !safe {
          return false;
        }
      }
      if config.file.Missing? {
        return false;
      }
      var section := config.ReadUpdateSection(io.opensRead);
      var settings := FromJson(section);
      settings := settings.(policy := p.value);
      settings := settings.(source := LocalExplicit);
      if channel != "" {
        settings := settings.(channel := channel);
      }
      done := config.WriteUpdateSection(ToJson(settings), io.opensWrite, io.lands);
    }

    /** handle_reconfigure: set the section aside, start over, put it back. */
    method Reconfigure(setup: Setup, opens: bool, opensAfter: bool, lands: bool)
      modifies config
      ensures config.file == Reconfigured(old(config.file), setup, opens, opensAfter, lands)
    {
      var kept := Null;
      if !config.file.Missing? {
        kept := config.ReadUpdateSection(opens);
        config.Remove();
      }
      if setup.saves.Some? {
        var _ := config.Save(setup.saves.value, true, setup.lands);
      }
      if setup.ok && !IsEmpty(kept) && !config.file.Missing? {
        var _ := config.WriteUpdateSection(kept, opensAfter, lands);
      }
    }
  }
}
