/** The release store and the panic button that points the stable channel back at
    an archived release, while agents read it
    (scripts/release/panic.sh, scripts/release/lib.sh:57-73, 134-146). */
module Publication {
  import opened Options
  import opened JsonValue
  import opened Rollout
  import TextLines

  type Bytes = seq<bv8>

  /** latest.json, binaries/latest by architecture, and binaries/<version>. */
  datatype Cdn = Cdn(manifest: Option<Json>, latest: map<string, Bytes>, archive: map<string, map<string, Bytes>>)

  // ---- stable release tags ---------------------------------------------------------

  predicate Digits(s: string) {
    s != "" && forall i :: 0 <= i < |s| ==> '0' <= s[i] <= '9'
  }

  predicate StableAt(s: string, i: int, j: int) {
    && 0 < i < j < |s| && s[i] == '.' && s[j] == '.' && s[0] == 'v'
    && Digits(s[1..i]) && Digits(s[i + 1..j]) && Digits(s[j + 1..])
  }

  /** A line of the form vN.N.N. */
  predicate StableLine(s: string) {
    exists i, j | 0 < i < j < |s| :: StableAt(s, i, j)
  }

  /** grep looks at the tag line by line. */
  predicate StableTag(tag: string) {
    var ls := TextLines.Lines(tag);
    exists i | 0 <= i < |ls| :: StableLine(ls[i])
  }

  function Tag(a: string, b: string, c: string): string {
    "v" + a + "." + b + "." + c
  }

  lemma TagIsStable(a: string, b: string, c: string)
    requires Digits(a) && Digits(b) && Digits(c)
    ensures StableLine(Tag(a, b, c))
  {
    var s := Tag(a, b, c);
    var i, j := 1 + |a|, 2 + |a| + |b|;
    assert s[1..i] == a && s[i + 1..j] == b && s[j + 1..] == c;
    assert StableAt(s, i, j);
  }

  lemma RestAreDigits(s: string, i: int, j: int, k: int)
    requires StableAt(s, i, j) && 0 < k < |s| && k != i && k != j
    ensures '0' <= s[k] <= '9'
  {
    if k < i {
      assert s[k] == s[1..i][k - 1];
    } else if k < j {
      assert s[k] == s[i + 1..j][k - i - 1];
    } else {
      assert s[k] == s[j + 1..][k - j - 1];
    }
  }

  lemma AtIsTag(s: string, i: int, j: int)
    requires StableAt(s, i, j)
    ensures s == Tag(s[1..i], s[i + 1..j], s[j + 1..])
  {
    assert s[..1] == "v" && s[i..i + 1] == "." && s[j..j + 1] == ".";
    assert s[..i] == "v" + s[1..i];
    assert s[..i + 1] == s[..i] + ".";
    assert s[..j] == s[..i + 1] + s[i + 1..j];
    assert s[..j + 1] == s[..j] + ".";
    assert s == s[..j + 1] + s[j + 1..];
  }

  /** A tag of one line is stable exactly when it is a v, three numbers and two dots. */
  lemma StableTagIff(tag: string)
    requires '\n' !in tag
    ensures StableTag(tag) <==> exists a, b, c :: Digits(a) && Digits(b) && Digits(c) && tag == Tag(a, b, c)
  {
    if tag != "" {
      TextLines.OnlyLine(tag);
    }
    if StableTag(tag) {
      var i, j :| 0 < i < j < |tag| && StableAt(tag, i, j);
      AtIsTag(tag, i, j);
    }
    if a, b, c :| Digits(a) && Digits(b) && Digits(c) && tag == Tag(a, b, c) {
      TagIsStable(a, b, c);
      assert StableLine(TextLines.Lines(tag)[0]);
    }
  }

  /** Anything else after the three numbers, as in a release candidate, and the line is
      not a stable tag. */
  lemma SuffixIsNotStable(a: string, b: string, c: string, suffix: string)
    requires Digits(a) && Digits(b) && Digits(c) && suffix != "" && !('0' <= suffix[0] <= '9')
    ensures !StableLine(Tag(a, b, c) + suffix)
  {
    var s := Tag(a, b, c) + suffix;
    var p, q, n := 1 + |a|, 2 + |a| + |b|, |Tag(a, b, c)|;
    assert s[p] == '.' && s[q] == '.' && s[n] == suffix[0];
    if i, j :| 0 < i < j < |s| && StableAt(s, i, j) {
      if p != i && p != j {
        RestAreDigits(s, i, j, p);
      }
      if q != i && q != j {
        RestAreDigits(s, i, j, q);
      }
      RestAreDigits(s, i, j, n);
    }
  }

  // ---- what an agent accepts ---------------------------------------------------------

  function ListedChecksum(m: Manifest, arch: string): string {
    if arch in m.checksums then m.checksums[arch] else ""
  }

  /** The checksum step of an update: skipped when the manifest gives none. */
  predicate Accepts(hash: Bytes -> string, m: Manifest, arch: string, bytes: Bytes) {
    ListedChecksum(m, arch) == "" || "sha256:" + hash(bytes) == ListedChecksum(m, arch)
  }

  /** A read of the manifest at one state of the store and of the binary at another. */
  predicate Installs(hash: Bytes -> string, seen: Cdn, later: Cdn, arch: string) {
    && seen.manifest.Some?
    && arch in later.latest
    && Accepts(hash, ParsedManifest(seen.manifest), arch, later.latest[arch])
  }

  /** Every architecture the served manifest lists has the binary it lists. */
  predicate Coherent(hash: Bytes -> string, c: Cdn) {
    var m := ParsedManifest(c.manifest);
    forall arch :: arch in m.checksums ==>
      arch in c.latest && m.checksums[arch] == "sha256:" + hash(c.latest[arch])
  }

  // ---- the plan ------------------------------------------------------------------------

  /** The architectures latest must keep serving; None when they cannot be listed. */
  function Architectures(c: Cdn): Option<set<string>> {
    if c.manifest.None? || !c.manifest.value.Has("checksums") || !c.manifest.value.fields["checksums"].Obj? then None
    else Some(c.manifest.value.fields["checksums"].fields.Keys - {""})
  }

  predicate Archived(c: Cdn, version: string, arch: string) {
    version in c.archive && arch in c.archive[version] && c.archive[version][arch] != []
  }

  /** The archived binaries of some architectures. */
  function Staged(c: Cdn, version: string, arches: set<string>): map<string, Bytes> {
    map a | a in arches && Archived(c, version, a) :: c.archive[version][a]
  }

  function ChecksumsOf(hash: Bytes -> string, stage: map<string, Bytes>): map<string, Json> {
    map a | a in stage :: Str("sha256:" + hash(stage[a]))
  }

  function PanicManifest(hash: Bytes -> string, version: string, stage: map<string, Bytes>): Json {
    Obj(map["version" := Str(version), "checksums" := Obj(ChecksumsOf(hash, stage)),
            "published_at" := Int(1), "soak_h" := Int(0), "ramp_h" := Int(0)])
  }

  datatype Answer = Refused | NoOp | Planned | Interrupted | Repointed

  /** What has to hold before anything is written. */
  predicate Ready(c: Cdn, version: string) {
    && StableTag(version)
    && Architectures(c).Some? && Architectures(c).value != {}
    && forall a :: a in Architectures(c).value ==> Archived(c, version, a)
  }

  predicate ServesAlready(c: Cdn, version: string) {
    c.manifest.Some? && c.manifest.value.Text("version") == Some(version)
  }

  predicate Goes(c: Cdn, version: string) {
    Ready(c, version) && !ServesAlready(c, version)
  }

  /** The store with some of the staged binaries uploaded. */
  function Uploaded(c: Cdn, stage: map<string, Bytes>, done: set<string>): Cdn {
    c.(latest := c.latest + map a | a in done && a in stage :: stage[a])
  }

  ghost predicate PartlyUploaded(was: Cdn, stage: map<string, Bytes>, c: Cdn) {
    exists done :: done <= stage.Keys && c == Uploaded(was, stage, done)
  }

  /** The binaries a panic uploads. */
  function Load(c: Cdn, version: string): map<string, Bytes>
    requires Architectures(c).Some?
  {
    Staged(c, version, Architectures(c).value)
  }

  function Done(hash: Bytes -> string, c: Cdn, version: string): Cdn
    requires Architectures(c).Some?
  {
    var stage := Load(c, version);
    Uploaded(c, stage, stage.Keys).(manifest := Some(PanicManifest(hash, version, stage)))
  }

  ghost predicate AllPartlyUploaded(was: Cdn, stage: map<string, Bytes>, seen: seq<Cdn>) {
    forall c :: c in seen ==> PartlyUploaded(was, stage, c)
  }

  /** The states of a panic, in order: with some of the binaries uploaded, and done
      only at the end. */
  ghost predicate Stages(hash: Bytes -> string, was: Cdn, version: string, seen: seq<Cdn>)
    requires Architectures(was).Some?
  {
    forall i :: 0 <= i < |seen| ==>
      PartlyUploaded(was, Load(was, version), seen[i]) || (i == |seen| - 1 && seen[i] == Done(hash, was, version))
  }

  lemma UploadNone(was: Cdn, stage: map<string, Bytes>)
    ensures Uploaded(was, stage, {}) == was && PartlyUploaded(was, stage, was)
  {
  }

  lemma UploadOne(was: Cdn, stage: map<string, Bytes>, done: set<string>, a: string)
    requires a in stage
    ensures Uploaded(was, stage, done + {a}) ==
            Uploaded(was, stage, done).(latest := Uploaded(was, stage, done).latest[a := stage[a]])
  {
  }

  class Store {
    var cdn: Cdn
    const hash: Bytes -> string
    ghost var trace: seq<Cdn>   // every state a reader could have seen

    method Put(c: Cdn)
      modifies this
      ensures cdn == c && trace == old(trace) + [c]
    {
      cdn := c;
      trace := trace + [c];
    }

    /** thinr_checksums_json, over the staged files. */
    method ChecksumsJson(stage: map<string, Bytes>) returns (r: Option<map<string, Json>>)
      ensures r == if stage == map[] then None else Some(ChecksumsOf(hash, stage))
    {
      var acc: map<string, Json> := map[];
      var left := stage.Keys;
      while left != {}
        invariant left <= stage.Keys
        invariant acc == map a | a in stage && a !in left :: Str("sha256:" + hash(stage[a]))
        decreases |left|
      {
        var a :| a in left;
        left := left - {a};
        acc := acc[a := Str("sha256:" + hash(stage[a]))];
      }
      assert acc == ChecksumsOf(hash, stage);
      r := if stage.Keys == {} then None else Some(acc);
    }

    /** Fetch the archived binary of every architecture; None when one is missing or empty. */
    method StageBinaries(version: string, arches: set<string>) returns (stage: Option<map<string, Bytes>>)
      ensures stage.Some? <==> forall a :: a in arches ==> Archived(cdn, version, a)
      ensures stage.Some? ==> stage.value == Staged(cdn, version, arches)
    {
      var files: map<string, Bytes> := map[];
      var missing: set<string> := {};
      var left := arches;
      while left != {}
        invariant left <= arches && missing <= arches
        invariant forall a :: a in arches && a !in left ==> (a in missing <==> !Archived(cdn, version, a))
        invariant left !! missing
        invariant files == Staged(cdn, version, arches - left)
        decreases |left|
      {
        var a :| a in left;
        left := left - {a};
        assert Staged(cdn, version, arches - left) ==
               if Archived(cdn, version, a) then files[a := cdn.archive[version][a]] else files;
        if version in cdn.archive && a in cdn.archive[version] && cdn.archive[version][a] != [] {
          files := files[a := cdn.archive[version][a]];
        } else {
          missing := missing + {a};
        }
      }
      if missing != {} {
        return None;
      }
      assert arches - left == arches;
      stage := Some(files);
    }

    method UploadBinary(ghost was: Cdn, stage: map<string, Bytes>, ghost done: set<string>, a: string)
      requires a in stage && done <= stage.Keys && cdn == Uploaded(was, stage, done)
      modifies this
      ensures cdn == Uploaded(was, stage, done + {a}) && PartlyUploaded(was, stage, cdn)
      ensures trace == old(trace) + [cdn]
    {
      UploadOne(was, stage, done, a);
      Put(cdn.(latest := cdn.latest[a := stage[a]]));
    }

    /** Binaries one at a time; `reach` is how many writes the script lives to make. */
    method SyncBinaries(stage: map<string, Bytes>, reach: nat)
      returns (left: nat, ghost done: set<string>, ghost seen: seq<Cdn>)
      modifies this
      ensures left == if reach > |stage.Keys| then reach - |stage.Keys| else 0
      ensures done <= stage.Keys && (reach >= |stage.Keys| ==> done == stage.Keys)
      ensures cdn == Uploaded(old(cdn), stage, done)
      ensures trace == old(trace) + seen && AllPartlyUploaded(old(cdn), stage, seen)
    {
      ghost var was := cdn;
      var todo := stage.Keys;
      left, done, seen := reach, {}, [];
      UploadNone(was, stage);
      while todo != {} && left > 0
        invariant todo <= stage.Keys && done == stage.Keys - todo
        invariant left + |stage.Keys| == reach + |todo|
        invariant cdn == Uploaded(was, stage, done)
        invariant trace == old(trace) + seen && AllPartlyUploaded(was, stage, seen)
        decreases |todo|
      {
        var a :| a in todo;
        UploadBinary(was, stage, done, a);
        todo := todo - {a};
        done := done + {a};
        left := left - 1;
        seen := seen + [cdn];
      }
    }

    /** panic.sh. Unless everything checks out nothing is written; otherwise the
        binaries go first and the manifest last, and a script cut short after any
        write has passed through the states `Stages` describes. */
    method Panic(version: string, dryRun: bool, reach: nat) returns (answer: Answer, ghost seen: seq<Cdn>)
      modifies this
      ensures answer.Refused? <==>
                !Ready(old(cdn), version) && !(StableTag(version) && ServesAlready(old(cdn), version))
      ensures answer.NoOp? <==> StableTag(version) && ServesAlready(old(cdn), version)
      ensures answer.Planned? <==> Goes(old(cdn), version) && dryRun
      ensures answer.Repointed? <==>
                Goes(old(cdn), version) && !dryRun && reach > |Architectures(old(cdn)).value|
      ensures answer.Refused? || answer.NoOp? || answer.Planned? ==> cdn == old(cdn)
      ensures answer.Repointed? ==> cdn == Done(hash, old(cdn), version)
      ensures answer.Interrupted? ==> PartlyUploaded(old(cdn), Load(old(cdn), version), cdn)
      ensures trace == old(trace) + seen
      ensures if Goes(old(cdn), version) then Stages(hash, old(cdn), version, seen) else seen == []
    {
      ghost var was := cdn;
      seen := [];
      if !StableTag(version) {
        return Refused, seen;
      }
      if cdn.manifest.None? {
        return Refused, seen;
      }
      if cdn.manifest.value.Text("version") == Some(version) {
        return NoOp, seen;
      }
      var arches := Architectures(cdn);
      if arches.None? || arches.value == {} {
        return Refused, seen;
      }
      var stage := StageBinaries(version, arches.value);
      if stage.None? {
        return Refused, seen;
      }
      assert stage.value == Load(was, version) && stage.value.Keys == arches.value;
      var checksums := ChecksumsJson(stage.value);
      if checksums.None? {
        return Refused, seen;
      }
      var manifest := Obj(map["version" := Str(version), "checksums" := Obj(checksums.value),
                              "published_at" := Int(1), "soak_h" := Int(0), "ramp_h" := Int(0)]);
      if dryRun {
        return Planned, seen;
      }
      var left;
      ghost var done;
      left, done, seen := SyncBinaries(stage.value, reach);
      if left == 0 {
        return Interrupted, seen;
      }
      Put(cdn.(manifest := Some(manifest)));
      seen := seen + [cdn];
      answer := Repointed;
    }
  }
}
