/** The manifest a release publishes and what the devices make of its schedule
    (scripts/release/gen-manifest.sh). The script checks that the hours are whole
    numbers; how large they may be is known to the devices alone. */
module ReleaseManifest {
  import opened Options
  import opened JsonValue
  import opened Rollout
  import opened Publication

  /** gen-manifest.sh; None when it refuses. */
  function Generated(
      hash: Bytes -> string, version: string, binaries: map<string, Bytes>, publishedAt: nat, soakH: nat, rampH: nat)
    : Option<Json>
  {
    if version == "" || binaries == map[] then None
    else
      Some(Obj(map["version" := Str(version), "checksums" := Obj(ChecksumsOf(hash, binaries)),
                   "published_at" := Int(publishedAt), "soak_h" := Int(soakH), "ramp_h" := Int(rampH)]))
  }

  /** What the release meant. */
  function Meant(
      hash: Bytes -> string, version: string, binaries: map<string, Bytes>, publishedAt: nat, soakH: nat, rampH: nat)
    : Manifest
  {
    Manifest(version, map a | a in binaries :: "sha256:" + hash(binaries[a]), true, true, false,
             publishedAt, soakH as real, rampH as real, false, 0)
  }

  predicate Sensible(publishedAt: nat, soakH: nat, rampH: nat) {
    publishedAt > 0 && soakH <= 8760 && rampH <= 8760
  }

  /** Devices read back exactly what was meant when the time is not 0 and neither number
      of hours is above a year; otherwise they take the whole block for broken. */
  lemma ReadsBackIff(
      hash: Bytes -> string, version: string, binaries: map<string, Bytes>, publishedAt: nat, soakH: nat, rampH: nat)
    ensures var doc := Generated(hash, version, binaries, publishedAt, soakH, rampH);
            doc.Some? ==>
              && (ParsedManifest(doc) == Meant(hash, version, binaries, publishedAt, soakH, rampH)
                  <==> Sensible(publishedAt, soakH, rampH))
              && (!Sensible(publishedAt, soakH, rampH) ==> ParsedManifest(doc).stagingInvalid)
  {
    var doc := Generated(hash, version, binaries, publishedAt, soakH, rampH);
    if doc.Some? {
      assert ParsedManifest(doc).checksums == Meant(hash, version, binaries, publishedAt, soakH, rampH).checksums;
    }
  }

  /** The schedule of a release, in the numbers the script was given: a device takes it
      once the soak is over and its fraction of the ramp has gone by since, and never if
      the numbers are out of range, which the script accepts. */
  lemma ReleaseSchedule(
      hash: Bytes -> string, version: string, binaries: map<string, Bytes>, publishedAt: nat, soakH: nat, rampH: nat,
      fraction: real, now: int)
    ensures var doc := Generated(hash, version, binaries, publishedAt, soakH, rampH);
            doc.Some? ==>
              (MayInstall(ParsedManifest(doc), fraction, now) <==>
                 && Sensible(publishedAt, soakH, rampH)
                 && now >= publishedAt + soakH * 3600
                 && (rampH > 0 ==> (now - publishedAt - soakH * 3600) as real > fraction * (rampH * 3600) as real))
  {
    var doc := Generated(hash, version, binaries, publishedAt, soakH, rampH);
    if doc.Some? {
      ReadsBackIff(hash, version, binaries, publishedAt, soakH, rampH);
      if Sensible(publishedAt, soakH, rampH) {
        InstallsIff(ParsedManifest(doc), fraction, now);
        assert (soakH as real) * 3600.0 == (soakH * 3600) as real;
        assert fraction * (rampH as real) * 3600.0 == fraction * ((rampH as real) * 3600.0);
        assert (rampH as real) * 3600.0 == (rampH * 3600) as real;
      }
    }
  }

  /** The defaults, 72 and 96 hours: nobody for three days, everybody after seven. */
  lemma DefaultSchedule(
      hash: Bytes -> string, version: string, binaries: map<string, Bytes>, publishedAt: nat, fraction: real, now: int)
    requires version != "" && binaries != map[] && publishedAt > 0 && 0.0 <= fraction < 1.0
    ensures var m := ParsedManifest(Generated(hash, version, binaries, publishedAt, 72, 96));
            && (now < publishedAt + 3 * 86400 ==> !MayInstall(m, fraction, now))
            && (now >= publishedAt + 7 * 86400 ==> MayInstall(m, fraction, now))
  {
    ReleaseSchedule(hash, version, binaries, publishedAt, 72, 96, fraction, now);
  }
}
