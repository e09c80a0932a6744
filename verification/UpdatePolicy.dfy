/** The local update settings and the policy in force
    (src/thinr/update/update_settings.cpp). */
module UpdatePolicy {
  import opened Options
  import opened JsonValue

  datatype Policy = Automatic | Managed
  datatype Source = Defaulted | LocalExplicit | Remote

  datatype Settings = Settings(
    policy: Policy,
    source: Source,
    channel: string,
    checkIntervalH: int,
    rollbackDeadlineS: int)

  const CHECK_INTERVAL_MIN_H := 1
  const CHECK_INTERVAL_MAX_H := 168
  const ROLLBACK_DEADLINE_MIN_S := 30
  const ROLLBACK_DEADLINE_MAX_S := 600
  const DEFAULTS := Settings(Automatic, Defaulted, "latest", 6, 90)

  function PolicyToString(p: Policy): string {
    if p.Managed? then "managed" else "auto"
  }

  function PolicyFromString(text: string): Option<Policy> {
    if text == "auto" then Some(Automatic)
    else if text == "managed" then Some(Managed)
    else None
  }

  function SourceToString(s: Source): string {
    match s
    case LocalExplicit => "local_explicit"
    case Remote => "remote"
    case Defaulted => "default"
  }

  function SourceFromString(text: string): Source {
    if text == "local_explicit" then LocalExplicit
    else if text == "remote" then Remote
    else Defaulted
  }

  // ---- channel names --------------------------------------------------------

  predicate ChannelChar(c: char) {
    'A' <= c <= 'Z' || 'a' <= c <= 'z' || '0' <= c <= '9' || c == '.' || c == '_' || c == '-'
  }

  predicate DotsAt(s: string, i: int) {
    0 <= i && i + 2 <= |s| && s[i..i + 2] == ".."
  }

  /** A name that stays one path segment below the server's root. */
  ghost predicate SafeChannel(s: string) {
    && s != ""
    && (forall i :: 0 <= i < |s| ==> ChannelChar(s[i]))
    && !(exists i :: DotsAt(s, i))
  }

  method ValidChannel(s: string) returns (ok: bool)
    ensures ok == SafeChannel(s)
  {
    if s == "" {
      return false;
    }
    var i := 0;
    while i + 2 <= |s|
      invariant 0 <= i <= |s|
      invariant forall k :: 0 <= k < i ==> !DotsAt(s, k)
    {
      if s[i..i + 2] == ".." {
        assert DotsAt(s, i);
        return false;
      }
      i := i + 1;
    }
    i := 0;
    while i < |s|
      invariant 0 <= i <= |s|
      invariant forall k :: 0 <= k < i ==> ChannelChar(s[k])
    {
      if !ChannelChar(s[i]) {
        return false;
      }
      i := i + 1;
    }
    return true;
  }

  // ---- reading and writing the section --------------------------------------

  /** get<int>() keeps the low 32 bits. */
  function AsInt32(i: int): int {
    (i + 0x8000_0000) % 0x1_0000_0000 - 0x8000_0000
  }

  function Clamp(v: int, lo: int, hi: int): int {
    if v < lo then lo else if hi < v then hi else v
  }

  function ClampInt(j: Json, key: string, default: int, lo: int, hi: int): int {
    if !j.Has(key) || !j.fields[key].Int? then default
    else Clamp(AsInt32(j.fields[key].i), lo, hi)
  }

  function ToJson(s: Settings): Json {
    Obj(map["policy" := Str(PolicyToString(s.policy)),
            "policy_source" := Str(SourceToString(s.source)),
            "channel" := Str(s.channel),
            "check_interval_h" := Int(s.checkIntervalH),
            "rollback_deadline_s" := Int(s.rollbackDeadlineS)])
  }

  /** What any section means: each field on its own, a broken one at its default. */
  ghost function Read(j: Json): Settings {
    if !j.Obj? then DEFAULTS
    else
      var policy := j.Text("policy");
      var source := j.Text("policy_source");
      var channel := j.Text("channel");
      Settings(
        if policy.Some? && PolicyFromString(policy.value).Some? then PolicyFromString(policy.value).value
        else Automatic,
        if source.Some? then SourceFromString(source.value) else Defaulted,
        if channel.Some? && SafeChannel(channel.value) then channel.value else "latest",
        ClampInt(j, "check_interval_h", 6, CHECK_INTERVAL_MIN_H, CHECK_INTERVAL_MAX_H),
        ClampInt(j, "rollback_deadline_s", 90, ROLLBACK_DEADLINE_MIN_S, ROLLBACK_DEADLINE_MAX_S))
  }

  /** from_json, which overwrites the defaults field by field. */
  method FromJson(j: Json) returns (s: Settings)
    ensures s == Read(j)
  {
    s := DEFAULTS;
    if !j.Obj? {
      return;
    }
    if j.Text("policy").Some? {
      var p := PolicyFromString(j.Text("policy").value);
      if p.Some? {
        s := s.(policy := p.value);
      }
    }
    if j.Text("policy_source").Some? {
      s := s.(source := SourceFromString(j.Text("policy_source").value));
    }
    if j.Text("channel").Some? {
      var ok := ValidChannel(j.Text("channel").value);
      if ok {
        s := s.(channel := j.Text("channel").value);
      }
    }
    s := s.(checkIntervalH := ClampInt(j, "check_interval_h", 6, CHECK_INTERVAL_MIN_H, CHECK_INTERVAL_MAX_H));
    s := s.(rollbackDeadlineS := ClampInt(j, "rollback_deadline_s", 90, ROLLBACK_DEADLINE_MIN_S,
                                          ROLLBACK_DEADLINE_MAX_S));
  }

  ghost predicate InBounds(s: Settings) {
    && SafeChannel(s.channel)
    && CHECK_INTERVAL_MIN_H <= s.checkIntervalH <= CHECK_INTERVAL_MAX_H
    && ROLLBACK_DEADLINE_MIN_S <= s.rollbackDeadlineS <= ROLLBACK_DEADLINE_MAX_S
  }

  /** No section, however broken, disables the updater or the watchdog. */
  lemma ReadIsInBounds(j: Json)
    ensures InBounds(Read(j))
    ensures 1 <= Read(j).checkIntervalH <= 168 && 30 <= Read(j).rollbackDeadlineS <= 600
  {
    assert SafeChannel("latest") by {
      forall i | 0 <= i && i + 2 <= |"latest"|
        ensures !DotsAt("latest", i)
      {
        assert "latest"[i..i + 2][0] != '.';
      }
    }
  }

  /** A whole number a 32-bit integer holds. */
  predicate Fits(j: Json) {
    j.Int? && -0x8000_0000 <= j.i < 0x8000_0000
  }

  /** Each field on its own: what is absent or broken reads as the default, and a
      number out of bounds as the bound. */
  lemma FieldsAreRead(f: map<string, Json>)
    ensures var s := Read(Obj(f));
            && (s.policy.Managed? <==> "policy" in f && f["policy"] == Str("managed"))
            && (s.source.LocalExplicit? <==> "policy_source" in f && f["policy_source"] == Str("local_explicit"))
            && (s.source.Remote? <==> "policy_source" in f && f["policy_source"] == Str("remote"))
            && (s.channel == "latest" || ("channel" in f && f["channel"] == Str(s.channel)))
            && ("channel" in f && f["channel"].Str? && SafeChannel(f["channel"].s) ==> s.channel == f["channel"].s)
            && ("check_interval_h" !in f || !f["check_interval_h"].Int? ==> s.checkIntervalH == 6)
            && ("check_interval_h" in f && Fits(f["check_interval_h"]) ==>
                  s.checkIntervalH == Clamp(f["check_interval_h"].i, 1, 168))
            && ("rollback_deadline_s" !in f || !f["rollback_deadline_s"].Int? ==> s.rollbackDeadlineS == 90)
            && ("rollback_deadline_s" in f && Fits(f["rollback_deadline_s"]) ==>
                  s.rollbackDeadlineS == Clamp(f["rollback_deadline_s"].i, 30, 600))
  {
  }

  lemma NothingReadsAsDefaults(j: Json)
    requires !j.Obj? || j.fields == map[]
    ensures Read(j) == Settings(Automatic, Defaulted, "latest", 6, 90)
  {
  }

  /** Settings survive being stored exactly when they are in bounds. */
  lemma SettingsRoundTrip(s: Settings)
    ensures Read(ToJson(s)) == s <==> InBounds(s)
  {
    ReadIsInBounds(ToJson(s));
    assert PolicyFromString(PolicyToString(s.policy)) == Some(s.policy);
    assert SourceFromString(SourceToString(s.source)) == s.source;
  }

  // ---- the policy in force ----------------------------------------------------

  function EffectivePolicy(local: Settings, remote: Option<Policy>): Policy {
    if remote.None? then local.policy
    else if remote.value.Managed? then Managed
    else if local.policy.Managed? && local.source.LocalExplicit? then Managed
    else Automatic
  }

  /** The local opt-out: managed, by the user's own hand. */
  predicate OptedOutSettings(s: Settings) {
    s.policy.Managed? && s.source.LocalExplicit?
  }

  /** Only the user's own opt-out is beyond the server's reach: it is exactly what
      stays managed under every override. And the server can always hold a device. */
  lemma OptOutIffOutOfReach(s: Settings)
    ensures OptedOutSettings(s) <==> forall r: Option<Policy> :: EffectivePolicy(s, r).Managed?
    ensures EffectivePolicy(s, Some(Managed)).Managed?
  {
    if !OptedOutSettings(s) {
      assert !EffectivePolicy(s, Some(Automatic)).Managed? || !EffectivePolicy(s, None).Managed?;
    }
  }
}
