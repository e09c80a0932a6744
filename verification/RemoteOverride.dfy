/** The server's policy override: an atomic integer in the poller, set by the
    `config` property stream (src/thinr/runtime/update_poller.cpp:49-61,
    src/thinr/agent/agent.cpp:203-263). */
module RemoteOverride {
  import opened Options
  import opened JsonValue
  import opened UpdatePolicy

  const NO_OVERRIDE := -1

  function Encode(p: Option<Policy>): int {
    if p.None? then NO_OVERRIDE else if p.value.Managed? then 1 else 0
  }

  function Decode(v: int): Option<Policy> {
    if v == 0 then Some(Automatic) else if v == 1 then Some(Managed) else None
  }

  /** What one message says: clear the override, set it, or (malformed) nothing. */
  datatype Word = Clear | Set(p: Policy) | Silent

  function Said(payload: Json): Word {
    if !payload.Has("update") then Clear
    else
      var policy := payload.fields["update"].Text("policy");
      if policy.None? then Silent
      else
        var p := PolicyFromString(policy.value);
        if p.Some? then Set(p.value) else Silent
  }

  function AfterMessage(v: int, payload: Json): int {
    match Said(payload)
    case Clear => NO_OVERRIDE
    case Set(p) => Encode(Some(p))
    case Silent => v
  }

  /** What a message does to the policy in force, by its shape: without an `update` key
      the local policy is back; `auto` and `managed` are in force from then on, `auto`
      not against the user's own opt-out; anything else changes nothing. */
  lemma MessageShapes(v: int, payload: Json, local: Settings)
    ensures var before := EffectivePolicy(local, Decode(v));
            var after := EffectivePolicy(local, Decode(AfterMessage(v, payload)));
            && (!payload.Obj? || "update" !in payload.fields ==> after == local.policy)
            && (payload.Obj? && "update" in payload.fields ==>
                  var update := payload.fields["update"];
                  if update.Obj? && "policy" in update.fields && update.fields["policy"] == Str("managed")
                  then after.Managed?
                  else if update.Obj? && "policy" in update.fields && update.fields["policy"] == Str("auto")
                  then after.Managed? <==> local.policy.Managed? && local.source.LocalExplicit?
                  else after == before && AfterMessage(v, payload) == v)
  {
  }

  function AfterMessages(v: int, payloads: seq<Json>): int
    decreases |payloads|
  {
    if payloads == [] then v else AfterMessages(AfterMessage(v, payloads[0]), payloads[1..])
  }

  /** The last message that was not malformed decides, alone: the messages before it
      and the malformed ones after it leave no trace. */
  lemma {:induction false} LastWordStands(v: int, before: seq<Json>, word: Json, noise: seq<Json>)
    requires !Said(word).Silent? && forall j :: j in noise ==> Said(j).Silent?
    ensures Decode(AfterMessages(v, before + [word] + noise)) ==
              if Said(word).Clear? then None else Some(Said(word).p)
    decreases |before|, |noise|
  {
    var all := before + [word] + noise;
    if before != [] {
      assert all[1..] == before[1..] + [word] + noise;
      LastWordStands(AfterMessage(v, before[0]), before[1..], word, noise);
    } else {
      assert all[0] == word && all[1..] == noise;
      NoiseIsIgnored(AfterMessage(v, word), noise);
    }
  }

  lemma {:induction false} NoiseIsIgnored(v: int, noise: seq<Json>)
    requires forall j :: j in noise ==> Said(j).Silent?
    ensures AfterMessages(v, noise) == v
    decreases |noise|
  {
    if noise != [] {
      assert noise[0] in noise;
      NoiseIsIgnored(v, noise[1..]);
    }
  }
}
