/** Freezing and unfreezing the rollout of the served manifest, and what the devices
    make of it (scripts/release/freeze.sh). */
module FreezeScript {
  import opened Options
  import opened JsonValue
  import opened Rollout
  import opened Publication

  /** The manifest after `--freeze` at a time; an existing key is left alone. */
  function FreezeDoc(j: Json, at: int): Json {
    if j.Obj? && "frozen_at" !in j.fields then Obj(j.fields["frozen_at" := Int(at)]) else j
  }

  function UnfreezeDoc(j: Json): Json {
    if j.Obj? then Obj(j.fields - {"frozen_at"}) else j
  }

  datatype Action = FreezeAction | UnfreezeAction
  datatype Reply = Refused | NoChange | Planned | Written

  /** freeze.sh: only latest.json changes, and only in `frozen_at`. A missing manifest
      or one that is not an object is refused. */
  method Run(store: Store, action: Action, now: int, dryRun: bool) returns (r: Reply)
    modifies store
    ensures r.Refused? <==> old(store.cdn.manifest).None? || !old(store.cdn.manifest).value.Obj?
    ensures r.NoChange? <==> !r.Refused? && (action.FreezeAction? <==> old(store.cdn.manifest).value.Has("frozen_at"))
    ensures r.Planned? <==> !r.Refused? && !r.NoChange? && dryRun
    ensures store.cdn == if !r.Written? then old(store.cdn)
                         else old(store.cdn).(manifest := Some(
                           if action.FreezeAction? then FreezeDoc(old(store.cdn.manifest).value, now)
                           else UnfreezeDoc(old(store.cdn.manifest).value)))
    ensures store.trace == if r.Written? then old(store.trace) + [store.cdn] else old(store.trace)
  {
    if store.cdn.manifest.None? || !store.cdn.manifest.value.Obj? {
      return Reply.Refused;
    }
    var fields := store.cdn.manifest.value.fields;
    var hasFrozen := "frozen_at" in fields;
    var changed: map<string, Json>;
    if action.FreezeAction? {
      if hasFrozen {
        return NoChange;
      }
      changed := fields["frozen_at" := Int(now)];
    } else {
      if !hasFrozen {
        return NoChange;
      }
      changed := map k | k in fields && k != "frozen_at" :: fields[k];
      assert changed == fields - {"frozen_at"};
    }
    if dryRun {
      return Reply.Planned;
    }
    store.Put(store.cdn.(manifest := Some(Obj(changed))));
    return Written;
  }

  /** Each direction twice is once; one undoes the other exactly when the manifest
      had no frozen_at; and no other key is touched. */
  lemma FreezeLaws(j: Json, a: int, b: int)
    ensures FreezeDoc(FreezeDoc(j, a), b) == FreezeDoc(j, a)
    ensures UnfreezeDoc(UnfreezeDoc(j)) == UnfreezeDoc(j)
    ensures UnfreezeDoc(FreezeDoc(j, a)) == UnfreezeDoc(j)
    ensures UnfreezeDoc(FreezeDoc(j, a)) == j <==> !j.Has("frozen_at")
    ensures j.Obj? ==> FreezeDoc(j, a).fields - {"frozen_at"} == j.fields - {"frozen_at"}
  {
  }

  lemma ParsedFrozen(j: Json, at: int)
    requires j.Obj? && !j.Has("frozen_at") && at > 0
    ensures ParsedManifest(Some(FreezeDoc(j, at))) == Frozen(ParsedManifest(Some(j)), at)
    ensures Thawed(ParsedManifest(Some(j))) == ParsedManifest(Some(j))
  {
  }

  /** Freezing a manifest that was not frozen stops the ramp where it stood: from then
      on, with a ramp, a device is eligible exactly when it was when the button was
      pressed, or is now if its clock is behind. */
  lemma FreezeStopsTheRamp(j: Json, at: int, fraction: real, now: int)
    requires j.Obj? && !j.Has("frozen_at") && at > 0 && fraction >= 0.0
    requires ParsedManifest(Some(j)).rampH > 0.0
    ensures MayInstall(ParsedManifest(Some(FreezeDoc(j, at))), fraction, now)
            <==> MayInstall(ParsedManifest(Some(j)), fraction, MinInt(now, at))
  {
    ParsedInRange(Some(j));
    ParsedFrozen(j, at);
    FreezeTheorem(ParsedManifest(Some(j)), at, fraction, now);
  }

  /** After a freeze the devices see a frozen manifest exactly when there was no
      frozen_at or a valid one: a key holding anything else is taken by the script
      for a freeze already made, and by the devices for none. */
  lemma FreezeTakesEffectIff(j: Json, at: int)
    requires j.Obj? && at > 0
    ensures ParsedManifest(Some(FreezeDoc(j, at))).hasFrozen
            <==> !j.Has("frozen_at") || PositiveNumber(j, "frozen_at")
  {
  }
}
