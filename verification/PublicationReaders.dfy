/** What a panic means to the agents that read the store while it runs. */
module PublicationReaders {
  import opened Options
  import opened Rollout
  import opened Publication

  lemma ParsedPanicManifest(hash: Bytes -> string, version: string, stage: map<string, Bytes>)
    requires version != ""
    ensures var m := ParsedManifest(Some(PanicManifest(hash, version, stage)));
            && m == Manifest(version, m.checksums, true, true, false, 1, 0.0, 0.0, false, 0)
            && m.checksums.Keys == stage.Keys
            && forall a :: a in stage ==> m.checksums[a] == "sha256:" + hash(stage[a])
  {
  }

  lemma GoesLoads(was: Cdn, version: string)
    requires Goes(was, version)
    ensures version != "" && Load(was, version).Keys == Architectures(was).value
    ensures forall a :: a in Load(was, version) ==> Load(was, version)[a] == was.archive[version][a]
  {
  }

  /** Only the served binaries of the listed architectures and, at the end, the
      manifest are written; no archived release is touched. */
  lemma OnlyLatestChanges(hash: Bytes -> string, was: Cdn, version: string, seen: seq<Cdn>, i: nat, arch: string)
    requires Goes(was, version) && Stages(hash, was, version, seen) && i < |seen|
    ensures seen[i].archive == was.archive
    ensures arch !in Architectures(was).value ==>
              (arch in seen[i].latest <==> arch in was.latest)
              && (arch in was.latest ==> seen[i].latest[arch] == was.latest[arch])
    ensures arch in Architectures(was).value && arch in seen[i].latest ==>
              seen[i].latest[arch] == was.archive[version][arch]
              || (arch in was.latest && seen[i].latest[arch] == was.latest[arch])
  {
  }

  /** The manifest served is the old one until the last state, and never the new
      one with a binary missing. */
  lemma ManifestOf(hash: Bytes -> string, was: Cdn, version: string, seen: seq<Cdn>, i: nat)
    requires Goes(was, version) && Stages(hash, was, version, seen) && i < |seen|
    ensures seen[i].manifest == was.manifest || (i == |seen| - 1 && seen[i] == Done(hash, was, version))
    ensures Done(hash, was, version).manifest != was.manifest
  {
    var m := PanicManifest(hash, version, Load(was, version));
    assert m.Text("version") == Some(version);
  }

  /** At every state, if the served manifest is the new one then it lists the
      architectures the old one did and each has the binary it lists. */
  lemma CoherentWhenRepointed(hash: Bytes -> string, was: Cdn, version: string, seen: seq<Cdn>, i: nat)
    requires Goes(was, version) && Stages(hash, was, version, seen) && i < |seen|
    requires seen[i].manifest != was.manifest
    ensures Coherent(hash, seen[i])
    ensures ParsedManifest(seen[i].manifest).checksums.Keys == Architectures(was).value
    ensures forall a :: a in Architectures(was).value ==>
              a in seen[i].latest && seen[i].latest[a] == was.archive[version][a]
  {
    ManifestOf(hash, was, version, seen, i);
    GoesLoads(was, version);
    ParsedPanicManifest(hash, version, Load(was, version));
  }

  /** While the old manifest is served, the store is coherent exactly when the
      binaries uploaded so far hash as that manifest says. */
  lemma MidwayCoherentIff(hash: Bytes -> string, was: Cdn, stage: map<string, Bytes>, done: set<string>)
    requires Coherent(hash, was) && done <= stage.Keys
    ensures Coherent(hash, Uploaded(was, stage, done)) <==>
            forall a :: a in done && a in ParsedManifest(was.manifest).checksums ==>
              ParsedManifest(was.manifest).checksums[a] == "sha256:" + hash(stage[a])
  {
  }

  lemma SamePrefix(a: string, b: string)
    requires "sha256:" + a == "sha256:" + b
    ensures a == b
  {
    assert ("sha256:" + a)[7..] == a && ("sha256:" + b)[7..] == b;
  }

  function StateAt(was: Cdn, seen: seq<Cdn>, i: nat): Cdn
    requires i <= |seen|
  {
    if i == 0 then was else seen[i - 1]
  }

  /** An agent that reads the new manifest, its architecture being listed, installs
      whenever it downloads, and exactly the archived binary. */
  lemma ReadNewManifest(
      hash: Bytes -> string, was: Cdn, version: string, seen: seq<Cdn>, i: nat, j: nat, arch: string)
    requires Goes(was, version) && Stages(hash, was, version, seen) && i <= j <= |seen|
    requires StateAt(was, seen, i).manifest != was.manifest && arch in Architectures(was).value
    ensures Installs(hash, StateAt(was, seen, i), StateAt(was, seen, j), arch)
    ensures StateAt(was, seen, j).latest[arch] == was.archive[version][arch]
  {
  }

  /** One that read the old manifest and downloads at any later moment of the panic
      installs exactly when the download hashes as the binary it saw announced, so a
      binary uploaded in between is turned away. */
  lemma ReadOldManifest(
      hash: Bytes -> string, was: Cdn, version: string, seen: seq<Cdn>, i: nat, j: nat, arch: string)
    requires Goes(was, version) && Stages(hash, was, version, seen) && i <= j <= |seen| && Coherent(hash, was)
    requires StateAt(was, seen, i).manifest == was.manifest
    requires arch in ParsedManifest(was.manifest).checksums
    ensures arch in was.latest && arch in StateAt(was, seen, j).latest
    ensures Installs(hash, StateAt(was, seen, i), StateAt(was, seen, j), arch)
            <==> hash(StateAt(was, seen, j).latest[arch]) == hash(was.latest[arch])
  {
    StillServed(hash, was, version, seen, j, arch);
    var bytes := StateAt(was, seen, j).latest[arch];
    if "sha256:" + hash(bytes) == "sha256:" + hash(was.latest[arch]) {
      SamePrefix(hash(bytes), hash(was.latest[arch]));
    }
    assert ListedChecksum(ParsedManifest(was.manifest), arch)[0] == 's';
  }

  lemma StillServed(hash: Bytes -> string, was: Cdn, version: string, seen: seq<Cdn>, j: nat, arch: string)
    requires Goes(was, version) && Stages(hash, was, version, seen) && j <= |seen| && arch in was.latest
    ensures arch in StateAt(was, seen, j).latest
  {
  }

  /** The hash tells two binaries apart. */
  predicate Distinguishes(hash: Bytes -> string, a: Bytes, b: Bytes) {
    hash(a) == hash(b) ==> a == b
  }

  /** Under any interleaving of the two reads with the panic, and with a hash that
      tells the binaries in question apart, the bytes installed are those the manifest
      that was read promised. */
  lemma ReaderGetsThePromisedBytes(
      hash: Bytes -> string, was: Cdn, version: string, seen: seq<Cdn>, i: nat, j: nat, arch: string)
    requires Goes(was, version) && Stages(hash, was, version, seen) && i <= j <= |seen| && Coherent(hash, was)
    requires arch in ParsedManifest(StateAt(was, seen, i).manifest).checksums
    requires Installs(hash, StateAt(was, seen, i), StateAt(was, seen, j), arch)
    requires arch in was.latest ==> Distinguishes(hash, StateAt(was, seen, j).latest[arch], was.latest[arch])
    ensures arch in was.latest || StateAt(was, seen, i).manifest != was.manifest
    ensures if StateAt(was, seen, i).manifest != was.manifest
            then arch in Architectures(was).value && StateAt(was, seen, j).latest[arch] == was.archive[version][arch]
            else StateAt(was, seen, j).latest[arch] == was.latest[arch]
  {
    if StateAt(was, seen, i).manifest != was.manifest {
      CoherentWhenRepointed(hash, was, version, seen, i - 1);
      ReadNewManifest(hash, was, version, seen, i, j, arch);
    } else {
      ReadOldManifest(hash, was, version, seen, i, j, arch);
    }
  }

  /** A download is checked exactly when the manifest lists a checksum for the
      architecture: otherwise whatever is served goes in. */
  lemma CheckedIff(hash: Bytes -> string, m: Manifest, arch: string, a: Bytes, b: Bytes)
    requires hash(a) != hash(b)
    ensures (forall bytes :: Accepts(hash, m, arch, bytes)) <==> ListedChecksum(m, arch) == ""
  {
    if ListedChecksum(m, arch) != "" && "sha256:" + hash(a) == "sha256:" + hash(b) {
      SamePrefix(hash(a), hash(b));
    }
    assert ListedChecksum(m, arch) != "" ==> !Accepts(hash, m, arch, a) || !Accepts(hash, m, arch, b);
  }

  /** So an architecture that latest served without listing keeps its old binary, and
      an agent of it installs that under the new version's name. */
  lemma UnlistedInstallsTheOldBinary(hash: Bytes -> string, was: Cdn, version: string, arch: string)
    requires Goes(was, version) && arch !in Architectures(was).value && arch in was.latest
    ensures var after := Done(hash, was, version);
            && ParsedManifest(after.manifest).version == version
            && Installs(hash, after, after, arch) && after.latest[arch] == was.latest[arch]
  {
    GoesLoads(was, version);
    ParsedPanicManifest(hash, version, Load(was, version));
  }

  /** The manifest of a panic is for everyone at once: eligible for a device exactly
      when its clock shows at least 1, whatever its place in the rollout. */
  lemma PanicReachesEveryClock(hash: Bytes -> string, was: Cdn, version: string, fraction: real, now: int)
    requires Goes(was, version)
    ensures MayInstall(ParsedManifest(Done(hash, was, version).manifest), fraction, now) <==> now >= 1
  {
    GoesLoads(was, version);
    ParsedPanicManifest(hash, version, Load(was, version));
  }

  lemma SkippedAt(
      hash: Bytes -> string, was: Cdn, stage: map<string, Bytes>, skipped: set<string>, arch: string)
    requires arch in stage
    ensures var latest := Uploaded(was, stage, stage.Keys - skipped).latest;
            (arch in latest && "sha256:" + hash(stage[arch]) == "sha256:" + hash(latest[arch]))
            <==> (arch in skipped ==> arch in was.latest && hash(was.latest[arch]) == hash(stage[arch]))
  {
    var latest := Uploaded(was, stage, stage.Keys - skipped).latest;
    if arch in latest && "sha256:" + hash(stage[arch]) == "sha256:" + hash(latest[arch]) {
      SamePrefix(hash(stage[arch]), hash(latest[arch]));
    }
  }

  /** What hangs on the sync uploading every staged file: were some of them skipped,
      the repointed store would be coherent exactly when each skipped one was already
      served, or hashes alike. */
  lemma SkippedUploadIff(hash: Bytes -> string, was: Cdn, version: string, skipped: set<string>)
    requires Goes(was, version) && skipped <= Architectures(was).value
    ensures var stage := Load(was, version);
            var c := Uploaded(was, stage, stage.Keys - skipped).(manifest := Done(hash, was, version).manifest);
            Coherent(hash, c) <==>
            forall a :: a in skipped ==> a in was.latest && hash(was.latest[a]) == hash(was.archive[version][a])
  {
    GoesLoads(was, version);
    var stage := Load(was, version);
    ParsedPanicManifest(hash, version, stage);
    forall a | a in stage
      ensures var latest := Uploaded(was, stage, stage.Keys - skipped).latest;
              (a in latest && "sha256:" + hash(stage[a]) == "sha256:" + hash(latest[a]))
              <==> (a in skipped ==> a in was.latest && hash(was.latest[a]) == hash(stage[a]))
    {
      SkippedAt(hash, was, stage, skipped, a);
    }
  }

  lemma UploadOver(was: Cdn, stage: map<string, Bytes>, done: set<string>)
    ensures Uploaded(Uploaded(was, stage, done), stage, stage.Keys) == Uploaded(was, stage, stage.Keys)
  {
  }

  /** A panic cut short is finished by running it again, and a finished one is left
      alone. */
  lemma RunItAgain(hash: Bytes -> string, was: Cdn, version: string, c: Cdn)
    requires Goes(was, version) && PartlyUploaded(was, Load(was, version), c)
    ensures Goes(c, version) && Done(hash, c, version) == Done(hash, was, version)
    ensures ServesAlready(Done(hash, was, version), version)
  {
    var stage := Load(was, version);
    var done :| done <= stage.Keys && c == Uploaded(was, stage, done);
    assert Load(c, version) == stage;
    UploadOver(was, stage, done);
    assert PanicManifest(hash, version, stage).Text("version") == Some(version);
  }
}
