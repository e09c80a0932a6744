/** The channel manifest and who may install it when
    (src/thinr/update/manifest.cpp). Time is in epoch seconds, hours and
    fractions are reals. */
module Rollout {
  import opened Options
  import opened JsonValue
  import DigestFold

  datatype Manifest = Manifest(
    version: string,
    checksums: map<string, string>,
    valid: bool,
    hasStaging: bool,
    stagingInvalid: bool,
    publishedAt: int,
    soakH: real,
    rampH: real,
    hasFrozen: bool,
    frozenAt: int)

  const BLANK_MANIFEST := Manifest("", map[], false, false, false, 0, 0.0, 0.0, false, 0)

  // ---- parsing -------------------------------------------------------------------

  function PresentCount(j: Json): nat {
    (if j.Has("published_at") then 1 else 0) + (if j.Has("soak_h") then 1 else 0)
    + if j.Has("ramp_h") then 1 else 0
  }

  predicate HoursOk(j: Json, key: string) {
    j.Has(key) && j.fields[key].IsNumber() && 0.0 <= j.fields[key].AsReal() <= 8760.0
  }

  predicate PositiveNumber(j: Json, key: string) {
    j.Has(key) && j.fields[key].IsNumber() && j.fields[key].AsReal() > 0.0
  }

  predicate StagingOk(j: Json) {
    PositiveNumber(j, "published_at") && HoursOk(j, "soak_h") && HoursOk(j, "ramp_h")
  }

  function TextItems(j: Json): map<string, string> {
    if j.Obj? then map k | k in j.fields && j.fields[k].Str? :: j.fields[k].s else map[]
  }

  /** What a document means as a manifest; None is text that is not JSON. */
  function ParsedManifest(doc: Option<Json>): Manifest {
    if doc.None? || !doc.value.Obj? then BLANK_MANIFEST
    else
      var j := doc.value;
      var version := if j.Text("version").Some? then j.Text("version").value else "";
      var ok := StagingOk(j);
      var frozen := PositiveNumber(j, "frozen_at");
      Manifest(
        version,
        if j.Has("checksums") then TextItems(j.fields["checksums"]) else map[],
        version != "",
        ok,
        PresentCount(j) != 0 && !ok,
        if ok then j.fields["published_at"].AsInt() else 0,
        if ok then j.fields["soak_h"].AsReal() else 0.0,
        if ok then j.fields["ramp_h"].AsReal() else 0.0,
        frozen,
        if frozen then j.fields["frozen_at"].AsInt() else 0)
  }

  /** manifest::parse, which fills the record field by field. */
  method Parse(doc: Option<Json>) returns (m: Manifest)
    ensures m == ParsedManifest(doc)
  {
    m := BLANK_MANIFEST;
    if doc.None? || !doc.value.Obj? {
      return;
    }
    var j := doc.value;
    if j.Text("version").Some? {
      m := m.(version := j.Text("version").value);
    }
    m := m.(valid := m.version != "");

    if j.Has("checksums") && j.fields["checksums"].Obj? {
      var items := j.fields["checksums"].fields;
      var left := items.Keys;
      var sums: map<string, string> := map[];
      while left != {}
        invariant left <= items.Keys
        invariant sums == map k | k in items && k !in left && items[k].Str? :: items[k].s
        decreases |left|
      {
        var k :| k in left;
        left := left - {k};
        if items[k].Str? {
          sums := sums[k := items[k].s];
        }
      }
      m := m.(checksums := sums);
      assert sums == TextItems(j.fields["checksums"]);
    }

    var present := PresentCount(j);
    if present == 3 {
      var pubOk := j.fields["published_at"].IsNumber() && j.fields["published_at"].AsReal() > 0.0;
      var soakOk := HoursOk(j, "soak_h");
      var rampOk := HoursOk(j, "ramp_h");
      if pubOk && soakOk && rampOk {
        m := m.(hasStaging := true, publishedAt := j.fields["published_at"].AsInt());
        m := m.(soakH := j.fields["soak_h"].AsReal());
        m := m.(rampH := j.fields["ramp_h"].AsReal());
      } else {
        m := m.(stagingInvalid := true);
      }
    } else if present != 0 {
      m := m.(stagingInvalid := true);
    }

    if j.Has("frozen_at") && j.fields["frozen_at"].IsNumber() && j.fields["frozen_at"].AsReal() > 0.0 {
      m := m.(hasFrozen := true, frozenAt := j.fields["frozen_at"].AsInt());
    }
  }

  /** What parsing guarantees of the staging numbers. */
  predicate InRange(m: Manifest) {
    && (m.hasStaging ==> !m.stagingInvalid && m.publishedAt >= 0)
    && 0.0 <= m.soakH <= 8760.0 && 0.0 <= m.rampH <= 8760.0
  }

  lemma ParsedInRange(doc: Option<Json>)
    ensures InRange(ParsedManifest(doc))
  {
  }

  /** The three keys of the staging block go together: it counts when all of them are
      there and in range, and one of them alone, or out of range, breaks it. */
  lemma StagingBlockIff(j: Json)
    requires j.Obj?
    ensures var m := ParsedManifest(Some(j));
            var f := j.fields;
            && (m.hasStaging <==>
                  && "published_at" in f && f["published_at"].IsNumber() && f["published_at"].AsReal() > 0.0
                  && "soak_h" in f && f["soak_h"].IsNumber() && 0.0 <= f["soak_h"].AsReal() <= 8760.0
                  && "ramp_h" in f && f["ramp_h"].IsNumber() && 0.0 <= f["ramp_h"].AsReal() <= 8760.0)
            && (m.hasStaging ==>
                  && m.publishedAt == f["published_at"].AsInt()
                  && m.soakH == f["soak_h"].AsReal() && m.rampH == f["ramp_h"].AsReal())
            && (m.stagingInvalid <==> !m.hasStaging && ("published_at" in f || "soak_h" in f || "ramp_h" in f))
  {
  }

  // ---- eligibility ------------------------------------------------------------------

  datatype Eligibility = Eligible | LegacyEligible | Soak | Ramp | Invalid | Clock

  predicate IsEligible(e: Eligibility) {
    e.Eligible? || e.LegacyEligible?
  }

  function SoakEnd(m: Manifest): real {
    m.publishedAt as real + m.soakH * 3600.0
  }

  function Min(a: real, b: real): real {
    if b < a then b else a
  }

  function EvaluateEligibility(m: Manifest, fraction: real, now: int): Eligibility {
    if !m.valid then Invalid
    else if m.stagingInvalid then Invalid
    else if !m.hasStaging then LegacyEligible
    else if now < m.publishedAt then Clock
    else if now as real < SoakEnd(m) then Soak
    else if m.rampH <= 0.0 then Eligible
    else
      var rampRef := if m.hasFrozen then Min(now as real, m.frozenAt as real) else now as real;
      var elapsedH := (rampRef - SoakEnd(m)) / 3600.0;
      if elapsedH / m.rampH > fraction then Eligible else Ramp
  }

  predicate MayInstall(m: Manifest, fraction: real, now: int) {
    IsEligible(EvaluateEligibility(m, fraction, now))
  }

  function Thawed(m: Manifest): Manifest {
    m.(hasFrozen := false, frozenAt := 0)
  }

  function Frozen(m: Manifest, at: int): Manifest {
    m.(hasFrozen := true, frozenAt := at)
  }

  function MinInt(a: int, b: int): int {
    if a < b then a else b
  }

  lemma DivideMonotone(x: real, y: real, d: real)
    requires x <= y && d > 0.0
    ensures x / d <= y / d
  {
  }

  lemma DividePositive(x: real, d: real)
    requires d > 0.0
    ensures x / d > 0.0 <==> x > 0.0
  {
  }

  lemma DivideAboveOne(x: real, d: real)
    requires x > d > 0.0
    ensures x / d > 1.0
  {
    var q := x / d;
    assert q * d == x;
    assert q <= 1.0 ==> q * d <= 1.0 * d;
  }

  /** The share of the ramp that has been exposed at a moment. */
  function Exposure(m: Manifest, ref: real): real
    requires m.rampH > 0.0
  {
    (ref - SoakEnd(m)) / 3600.0 / m.rampH
  }

  lemma ExposureMonotone(m: Manifest, a: real, b: real)
    requires m.rampH > 0.0 && a <= b
    ensures Exposure(m, a) <= Exposure(m, b)
  {
    DivideMonotone((a - SoakEnd(m)) / 3600.0, (b - SoakEnd(m)) / 3600.0, m.rampH);
  }

  lemma ExposureStarted(m: Manifest, a: real)
    requires m.rampH > 0.0 && Exposure(m, a) > 0.0
    ensures a > SoakEnd(m)
  {
    DividePositive((a - SoakEnd(m)) / 3600.0, m.rampH);
  }

  lemma ExposureAbove(x: real, ramp: real, fraction: real)
    requires ramp > 0.0
    ensures x / 3600.0 / ramp > fraction <==> x > fraction * ramp * 3600.0
  {
    var q := x / 3600.0 / ramp;
    assert q * ramp == x / 3600.0;
    if q > fraction {
      assert q * ramp > fraction * ramp;
    } else {
      assert q * ramp <= fraction * ramp;
    }
  }

  /** The ramp's clock: now, or the freeze if that came first. */
  function RampClock(m: Manifest, now: int): int {
    if m.hasFrozen && m.frozenAt < now then m.frozenAt else now
  }

  /** The whole rule in the manifest's own numbers: a version without a staging block is
      for everyone, and a staged one for a device exactly when soak_h hours have passed
      since publication and, with a ramp, the time since then, up to a freeze, is more
      than the device's fraction of ramp_h hours. */
  lemma InstallsIff(m: Manifest, fraction: real, now: int)
    requires InRange(m)
    ensures MayInstall(m, fraction, now) <==>
              && m.valid && !m.stagingInvalid
              && (m.hasStaging ==>
                    && now as real >= m.publishedAt as real + m.soakH * 3600.0
                    && (m.rampH > 0.0 ==>
                          RampClock(m, now) as real - m.publishedAt as real - m.soakH * 3600.0
                          > fraction * m.rampH * 3600.0))
  {
    if m.rampH > 0.0 {
      ExposureAbove(RampClock(m, now) as real - SoakEnd(m), m.rampH, fraction);
    }
  }

  /** The answer given when it is not yet, or never, by what stands in the way. */
  lemma ReasonIff(m: Manifest, fraction: real, now: int)
    requires InRange(m)
    ensures var e := EvaluateEligibility(m, fraction, now);
            var staged := m.valid && m.hasStaging;
            var soakEnd := m.publishedAt as real + m.soakH * 3600.0;
            && (e.Invalid? <==> !m.valid || m.stagingInvalid)
            && (e.LegacyEligible? <==> m.valid && !m.stagingInvalid && !m.hasStaging)
            && (e.Clock? <==> staged && now < m.publishedAt)
            && (e.Soak? <==> staged && m.publishedAt as real <= now as real < soakEnd)
            && (e.Ramp? <==> staged && now as real >= soakEnd && !MayInstall(m, fraction, now))
  {
  }

  /** Freezing: with a ramp, a device is eligible under the frozen manifest exactly
      when it was under the unfrozen one at the frozen moment, or is now if that is
      earlier. */
  lemma FreezeTheorem(m: Manifest, at: int, fraction: real, now: int)
    requires InRange(m) && m.rampH > 0.0 && fraction >= 0.0
    ensures MayInstall(Frozen(m, at), fraction, now) <==> MayInstall(Thawed(m), fraction, MinInt(now, at))
  {
    if m.valid && m.hasStaging {
      var ref := MinInt(now, at) as real;
      assert ref == Min(now as real, at as real);
      if Exposure(m, ref) > fraction {
        ExposureStarted(m, ref);
      }
    }
  }

  /** Without a ramp the freeze is ignored, so for any manifest the equivalence holds
      exactly outside a freeze that came before the end of a soak that is over. */
  lemma FreezeExact(m: Manifest, at: int, fraction: real, now: int)
    requires InRange(m) && 0.0 <= fraction
    ensures (MayInstall(Frozen(m, at), fraction, now) <==> MayInstall(Thawed(m), fraction, MinInt(now, at)))
            <==> !(&& m.valid && m.hasStaging && m.rampH == 0.0
                   && at as real < m.publishedAt as real + m.soakH * 3600.0 <= now as real)
  {
    if m.rampH > 0.0 {
      FreezeTheorem(m, at, fraction, now);
    }
  }

  /** Nested bands: time only adds devices, and a smaller fraction goes first. */
  lemma NestedBands(m: Manifest, f: real, g: real, now: int, later: int)
    requires InRange(m) && f <= g && now <= later && MayInstall(m, g, now)
    ensures MayInstall(m, f, later)
  {
    if m.hasStaging && m.rampH > 0.0 {
      var a := if m.hasFrozen then Min(now as real, m.frozenAt as real) else now as real;
      var b := if m.hasFrozen then Min(later as real, m.frozenAt as real) else later as real;
      ExposureMonotone(m, a, b);
    }
  }

  /** Unfrozen, the ramp reaches every device, rounding of the fraction to 1 included. */
  lemma RampCompletes(m: Manifest, fraction: real, now: int)
    requires InRange(m) && m.valid && m.hasStaging && !m.hasFrozen && fraction <= 1.0
    requires now as real > m.publishedAt as real + (m.soakH + m.rampH) * 3600.0
    ensures MayInstall(m, fraction, now)
  {
    if m.rampH > 0.0 {
      var h := (now as real - SoakEnd(m)) / 3600.0;
      assert h > m.rampH;
      DivideAboveOne(h, m.rampH);
    }
  }

  /** A manifest reaches some device at some time exactly when its version is there,
      its staging block is whole and valid or absent, and it was not frozen before
      the ramp began. */
  lemma ReachesSomebodyIff(m: Manifest)
    requires InRange(m)
    ensures (exists f: real, now: int :: 0.0 <= f < 1.0 && MayInstall(m, f, now)) <==>
            (m.valid && !m.stagingInvalid
             && (m.hasStaging && m.rampH > 0.0 && m.hasFrozen ==>
                   m.frozenAt as real > m.publishedAt as real + m.soakH * 3600.0))
  {
    if && m.valid && !m.stagingInvalid
       && (m.hasStaging && m.rampH > 0.0 && m.hasFrozen ==> m.frozenAt as real > SoakEnd(m)) {
      var now := SoakEnd(m).Floor + 1;
      if m.hasStaging && m.rampH > 0.0 {
        var ref := if m.hasFrozen then Min(now as real, m.frozenAt as real) else now as real;
        assert ref > SoakEnd(m);
        DividePositive((ref - SoakEnd(m)) / 3600.0, m.rampH);
      }
      assert MayInstall(m, 0.0, now);
    }
    if f: real, now: int :| 0.0 <= f < 1.0 && MayInstall(m, f, now) {
      if m.hasStaging && m.rampH > 0.0 && m.hasFrozen {
        ExposureStarted(m, Min(now as real, m.frozenAt as real));
      }
    }
  }

  /** Who goes first is decided by the digests alone. */
  lemma DigestOrderIsRolloutOrder(m: Manifest, a: seq<DigestFold.Byte>, b: seq<DigestFold.Byte>, now: int)
    requires InRange(m) && |a| >= 8 && |b| >= 8 && !DigestFold.LexLess(b[..8], a[..8])
    requires MayInstall(m, DigestFold.Fraction(b), now)
    ensures MayInstall(m, DigestFold.Fraction(a), now)
  {
    DigestFold.FractionOrder(b, a);
    NestedBands(m, DigestFold.Fraction(a), DigestFold.Fraction(b), now, now);
  }
}
