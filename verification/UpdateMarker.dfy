/** The two small files the rollback watchdog keeps beside the configuration
    (src/thinr/update/update_marker.cpp). */
module UpdateMarker {
  import opened Options
  import opened JsonValue

  datatype Phase = NoPhase | Pending | RolledBack

  datatype Marker = Marker(
    phase: Phase,
    from: string,
    to: string,
    prevBinary: string,
    startedAt: int,
    attempts: int,
    deadlineS: int,
    reportAttempts: int)

  datatype Reverted = Reverted(version: string, restored: string, reason: string, at: int)

  const BLANK_MARKER := Marker(NoPhase, "", "", "", 0, 0, 90, 0)

  /** What reading a document back can give: a value, nothing usable, or a type
      error thrown by a field of the wrong type. */
  datatype Parsed<+T> = Got(value: T) | Unusable | TypeError

  function PhaseToString(p: Phase): string {
    match p
    case Pending => "pending"
    case RolledBack => "rolled_back"
    case NoPhase => "none"
  }

  function PhaseFromString(text: string): Option<Phase> {
    if text == "pending" then Some(Pending)
    else if text == "rolled_back" then Some(RolledBack)
    else if text == "none" then Some(NoPhase)
    else None
  }

  function MarkerToJson(m: Marker): Json {
    Obj(map[
      "phase" := Str(PhaseToString(m.phase)),
      "from" := Str(m.from),
      "to" := Str(m.to),
      "prev_binary" := Str(m.prevBinary),
      "started_at" := Int(m.startedAt),
      "attempts" := Int(m.attempts),
      "deadline_s" := Int(m.deadlineS),
      "report_attempts" := Int(m.reportAttempts)])
  }

  function MarkerFromJson(j: Json): Parsed<Marker> {
    if j.Text("phase").None? then Unusable
    else
      var phase := PhaseFromString(j.Text("phase").value);
      var f := j.fields;
      if phase.None? then Unusable
      else if !(TextOk(f, "from") && TextOk(f, "to") && TextOk(f, "prev_binary")
                && NumberOk(f, "started_at") && NumberOk(f, "attempts")
                && NumberOk(f, "deadline_s") && NumberOk(f, "report_attempts")) then TypeError
      else
        Got(Marker(phase.value, TextOr(f, "from", ""), TextOr(f, "to", ""), TextOr(f, "prev_binary", ""),
                   NumberOr(f, "started_at", 0), NumberOr(f, "attempts", 0),
                   NumberOr(f, "deadline_s", 90), NumberOr(f, "report_attempts", 0)))
  }

  function RevertedToJson(r: Reverted): Json {
    Obj(map["version" := Str(r.version), "restored" := Str(r.restored),
            "reason" := Str(r.reason), "at" := Int(r.at)])
  }

  function RevertedFromJson(j: Json): Parsed<Reverted> {
    if j.Text("version").None? || j.Text("version").value == "" then Unusable
    else
      var f := j.fields;
      if !(TextOk(f, "restored") && TextOk(f, "reason") && NumberOk(f, "at")) then TypeError
      else Got(Reverted(f["version"].s, TextOr(f, "restored", ""), TextOr(f, "reason", ""), NumberOr(f, "at", 0)))
  }

  /** A marker read back is the marker written, so the protocol may treat the
      state file as holding the record itself. */
  lemma MarkerRoundTrip(m: Marker)
    ensures MarkerFromJson(MarkerToJson(m)) == Got(m)
  {
  }

  /** A marker with no more than a phase has the defaults for the rest. */
  lemma SparseMarker(f: map<string, Json>)
    requires f.Keys == {"phase"}
    ensures f["phase"] == Str("pending") ==>
              MarkerFromJson(Obj(f)) == Got(Marker(Pending, "", "", "", 0, 0, 90, 0))
    ensures f["phase"] == Str("rolled_back") ==>
              MarkerFromJson(Obj(f)) == Got(Marker(RolledBack, "", "", "", 0, 0, 90, 0))
    ensures MarkerFromJson(Obj(f)).Unusable? <==>
              f["phase"] !in [Str("pending"), Str("rolled_back"), Str("none")]
  {
  }

  /** A revert record is read back exactly when it names a version. */
  lemma RevertedRoundTrip(r: Reverted)
    ensures RevertedFromJson(RevertedToJson(r)) == Got(r) <==> r.version != ""
    ensures r.version == "" ==> RevertedFromJson(RevertedToJson(r)) == Unusable
  {
  }
}
