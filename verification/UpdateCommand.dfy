/** The orchestrated update: check, or apply at once
    (src/thinr/extensions/updater.cpp:82-188). */
module UpdateCommand {
  import opened Options
  import opened JsonValue
  import opened UpdateProtocol
  import opened UpdateAgent
  import Rollout

  datatype Action = Check | Apply
  datatype Status = Error | UpToDate | Available | Applied | Postponed

  /** fetch_latest_version on what the server returned: the version and the
      checksum for this architecture; None is any of its exceptions. */
  function Announced(doc: Option<Json>, arch: string): Option<(string, string)> {
    if doc.None? || doc.value.Text("version").None? then None
    else
      var j := doc.value;
      var version := j.Text("version").value;
      if !(j.Has("checksums") && j.fields["checksums"].Has(arch)) then Some((version, ""))
      else if j.fields["checksums"].Text(arch).None? then None
      else Some((version, j.fields["checksums"].Text(arch).value))
  }

  predicate Offers(agent: Agent, doc: Option<Json>, arch: string)
    reads agent
  {
    && Announced(doc, arch).Some? && Announced(doc, arch).value.0 != ""
    && Announced(doc, arch).value.0 != agent.running.version
  }

  /** updater::run for the agent's own resource. A check never touches the device; an
      apply is the apply path for the version announced, whatever the staging block
      says, and is never put off for open sessions. */
  method Run(agent: Agent, act: Action, doc: Option<Json>, arch: string, served: Binary, at: nat)
    returns (status: Status, ghost outcome: Option<ApplyResult>, n: nat, ghost t: Trip)
    modifies agent
    ensures outcome.Some? <==> act.Apply? && old(Offers(agent, doc, arch))
    ensures outcome.None? ==>
              && agent.Shared() == old(agent.Shared())
              && status == if Announced(doc, arch).None? || Announced(doc, arch).value.0 == "" then Error
                           else if Announced(doc, arch).value.0 == agent.running.version then UpToDate
                           else Available
    ensures outcome.Some? ==>
              && agent.Ran(Pc.Apply(ApEnter, Request(Announced(doc, arch).value.0, served, 90, Orchestrated)),
                           old(agent.Shared()), at, n, t)
              && t.pc == Finished(outcome.value) && t.s == agent.Shared()
              && status == if outcome.value.Updated? then Applied else Error
  {
    outcome, n := None, at;
    t := agent.Begin(Done, agent.Shared(), at);
    var latest := Announced(doc, arch);
    if latest.None? || latest.value.0 == "" {
      return Error, outcome, n, t;
    }
    if agent.running.version == latest.value.0 {
      return UpToDate, outcome, n, t;
    }
    if !act.Apply? {
      return Available, outcome, n, t;
    }
    var res;
    res, n, t := agent.ApplyWithWatchdog(Request(latest.value.0, served, 90, Orchestrated), at);
    outcome := Some(res);
    status := match res case Updated => Applied case Deferred => Postponed case Failed(_) => Error;
  }

  /** The two readers of the same document, this one and the poll loop's, see the same
      version and checksum exactly when the document names a version and lists text
      for the architecture or nothing: a checksum that is not text is an error here,
      and no checksum, so no check, there. */
  lemma ReadersAgreeIff(doc: Option<Json>, arch: string)
    ensures var m := Rollout.ParsedManifest(doc);
            var polled := (m.version, if arch in m.checksums then m.checksums[arch] else "");
            Announced(doc, arch) == Some(polled)
            <==> && doc.Some? && doc.value.Text("version").Some?
                 && (doc.value.Has("checksums") && doc.value.fields["checksums"].Has(arch) ==>
                       doc.value.fields["checksums"].Text(arch).Some?)
  {
  }
}
