/** The agent's configuration file: credentials and the `update` section kept in
    one JSON document, each rewritten without disturbing the other
    (src/thinr/config/config_manager.cpp). */
module ConfigFile {
  import opened Options
  import opened JsonValue
  import opened TokenCodec

  datatype Credentials = Credentials(
    host: string,
    deviceId: string,
    deviceName: string,
    deviceUser: string,
    token: seq<bv8>,
    version: string,
    verifySsl: bool)
  {
    predicate IsValid() {
      host != "" && deviceId != "" && deviceUser != "" && token != []
    }

    /** What storing fills in. */
    function Normalised(): Credentials {
      if version == "" then this.(version := "1.0.0") else this
    }
  }

  /** What is at the path: nothing, text that is not a JSON object, or an object. */
  datatype Content = Missing | Corrupt | Document(fields: map<string, Json>)

  const EMPTY_SECTION := Obj(map[])

  // ---- what each operation means ---------------------------------------------

  function DeviceJson(c: Credentials): Json {
    Obj(map["id" := Str(c.deviceId), "name" := Str(c.deviceName),
            "user" := Str(c.deviceUser), "token" := Str(Encrypted(c.token))])
  }

  function WithCredentials(f: map<string, Json>, c: Credentials): map<string, Json> {
    f["host" := Str(c.host)]["device" := DeviceJson(c)]
     ["version" := Str(c.Normalised().version)]["verify_ssl" := Bool(c.verifySsl)]
  }

  /** read_raw: an object, empty when nothing is there; None is the exception. */
  function RawFields(file: Content, opens: bool): Option<map<string, Json>> {
    if file.Missing? then Some(map[])
    else if !opens || file.Corrupt? then None
    else Some(file.fields)
  }

  function KeptFields(file: Content, opens: bool): map<string, Json> {
    if RawFields(file, opens).Some? then RawFields(file, opens).value else map[]
  }

  predicate CredentialTypesOk(f: map<string, Json>) {
    && TextOk(f, "host") && TextOk(f, "version")
    && ("verify_ssl" in f ==> f["verify_ssl"].Bool?)
    && ("device" in f ==>
          && f["device"].Obj?
          && TextOk(f["device"].fields, "id") && TextOk(f["device"].fields, "name")
          && TextOk(f["device"].fields, "user") && TextOk(f["device"].fields, "token"))
  }

  function StoredToken(d: map<string, Json>): Option<seq<bv8>>
    requires TextOk(d, "token")
  {
    if "token" in d then Decrypted(d["token"].s) else Some([])
  }

  /** load; None is any of its exceptions. */
  function Loaded(file: Content): Option<Credentials> {
    if !file.Document? || !CredentialTypesOk(file.fields) || "device" !in file.fields then None
    else
      var f := file.fields;
      var d := f["device"].fields;
      var token := StoredToken(d);
      if token.None? then None
      else
        var c := Credentials(TextOr(f, "host", ""), TextOr(d, "id", ""), TextOr(d, "name", ""),
                             TextOr(d, "user", ""), token.value, TextOr(f, "version", "1.0.0"),
                             if "verify_ssl" in f then f["verify_ssl"].b else true);
        if c.IsValid() then Some(c) else None
  }

  function Section(file: Content): Json {
    if file.Document? && "update" in file.fields then file.fields["update"] else EMPTY_SECTION
  }

  // ---- the operations -----------------------------------------------------------

  /** One call, with how its file accesses went. */
  datatype Op =
    | SaveOp(c: Credentials, opens: bool, written: bool)
    | SectionOp(update: Json, opens: bool, written: bool)
    | RemoveOp

  predicate Succeeds(file: Content, op: Op) {
    match op
    case SaveOp(c, _, written) => c.IsValid() && written
    case SectionOp(_, opens, written) => file.Document? && opens && written
    case RemoveOp => true
  }

  function After(file: Content, op: Op): Content {
    if !Succeeds(file, op) then file
    else
      match op
      case SaveOp(c, opens, _) => Document(WithCredentials(KeptFields(file, opens), c))
      case SectionOp(update, _, _) => Document(file.fields["update" := update])
      case RemoveOp => Missing
  }

  /** `opens` says whether the file, if there, could be opened for reading; `lands`
      whether the write reached the disk. */
  class ConfigManager {
    var file: Content

    /** The write of the whole document: it replaces the file or leaves it
        (AtomicFile proves that of write_atomic). */
    method WriteRaw(config: map<string, Json>, lands: bool)
      modifies this
      ensures file == if lands then Document(config) else old(file)
    {
      if lands {
        file := Document(config);
      }
    }

    method ReadRaw(opens: bool) returns (fields: Option<map<string, Json>>)
      ensures fields == RawFields(file, opens)
    {
      if file.Missing? {
        fields := Some(map[]);
      } else if !opens || file.Corrupt? {
        fields := None;
      } else {
        fields := Some(file.fields);
      }
    }

    method Save(c: Credentials, opens: bool, lands: bool) returns (done: bool)
      modifies this
      ensures done <==> lands && c.host != "" && c.deviceId != "" && c.deviceUser != "" && c.token != []
      ensures done <==> Succeeds(old(file), SaveOp(c, opens, lands))
      ensures file == After(old(file), SaveOp(c, opens, lands))
    {
      if !c.IsValid() {
        return false;
      }
      var raw := ReadRaw(opens);
      var config := if raw.Some? then raw.value else map[];
      config := config["host" := Str(c.host)];
      var stored := EncryptToken(c.token);
      config := config["device" := Obj(map["id" := Str(c.deviceId), "name" := Str(c.deviceName),
                                           "user" := Str(c.deviceUser), "token" := Str(stored)])];
      config := config["version" := Str(if c.version == "" then "1.0.0" else c.version)];
      config := config["verify_ssl" := Bool(c.verifySsl)];
      WriteRaw(config, lands);
      done := lands;
    }

    method WriteUpdateSection(update: Json, opens: bool, lands: bool) returns (done: bool)
      modifies this
      ensures done <==> Succeeds(old(file), SectionOp(update, opens, lands))
      ensures file == After(old(file), SectionOp(update, opens, lands))
    {
      if file.Missing? {
        return false;
      }
      var raw := ReadRaw(opens);
      if raw.None? {
        return false;
      }
      WriteRaw(raw.value["update" := update], lands);
      done := lands;
    }

    method Remove()
      modifies this
      ensures file == After(old(file), RemoveOp)
    {
      file := Missing;
    }

    /** Never fails; a file that cannot be opened reads as no section. */
    method ReadUpdateSection(opens: bool) returns (section: Json)
      ensures section == if opens then Section(file) else EMPTY_SECTION
    {
      var raw := ReadRaw(opens);
      section := if raw.Some? && "update" in raw.value then raw.value["update"] else EMPTY_SECTION;
    }

    /** load, filling the record field by field. */
    method Load() returns (r: Option<Credentials>)
      ensures r == Loaded(file)
      ensures r.Some? ==> r.value.host != "" && r.value.deviceId != "" && r.value.deviceUser != ""
                          && r.value.token != []
    {
      if !file.Document? || !CredentialTypesOk(file.fields) {
        return None;
      }
      var f := file.fields;
      var c := Credentials("", "", "", "", [], "", true);
      c := c.(host := TextOr(f, "host", ""));
      c := c.(version := TextOr(f, "version", "1.0.0"));
      if "verify_ssl" in f {
        c := c.(verifySsl := f["verify_ssl"].b);
      }
      if "device" in f {
        var d := f["device"].fields;
        if "token" in d {
          var token := DecryptToken(d["token"].s);
          if token.None? {
            return None;
          }
          c := c.(token := token.value);
        }
        c := c.(deviceId := TextOr(d, "id", ""));
        c := c.(deviceName := TextOr(d, "name", ""));
        c := c.(deviceUser := TextOr(d, "user", ""));
      }
      r := if c.IsValid() then Some(c) else None;
    }
  }

  // ---- independent registers -------------------------------------------------------

  const CREDENTIAL_KEYS := {"host", "device", "version", "verify_ssl"}

  /** The file as its users see it: what load returns, what read_update_section
      returns, and the keys neither of them touches. */
  datatype Registers = Registers(
    sound: bool,
    login: Option<Credentials>,
    section: Json,
    others: map<string, Json>)

  function Others(file: Content): map<string, Json> {
    if file.Document? then file.fields - (CREDENTIAL_KEYS + {"update"}) else map[]
  }

  function View(file: Content): Registers {
    Registers(file.Document?, Loaded(file), Section(file), Others(file))
  }

  const BLANK := Registers(false, None, EMPTY_SECTION, map[])

  /** The same operations on three registers that know nothing of each other. A save
      that could not read the old file starts from blank ones. */
  function RegisterAfter(r: Registers, op: Op): Registers {
    match op
    case SaveOp(c, opens, written) =>
      if c.IsValid() && written then
        (if opens then r else BLANK).(sound := true, login := Some(c.Normalised()))
      else r
    case SectionOp(update, opens, written) =>
      if r.sound && opens && written then r.(section := update) else r
    case RemoveOp => BLANK
  }

  function Run(file: Content, ops: seq<Op>): Content
    decreases |ops|
  {
    if ops == [] then file else Run(After(file, ops[0]), ops[1..])
  }

  function RegisterRun(r: Registers, ops: seq<Op>): Registers
    decreases |ops|
  {
    if ops == [] then r else RegisterRun(RegisterAfter(r, ops[0]), ops[1..])
  }

  /** What is stored can be loaded. */
  lemma SavedLoads(f: map<string, Json>, c: Credentials)
    requires c.IsValid()
    ensures Loaded(Document(WithCredentials(f, c))) ==
              Some(c.(version := if c.version == "" then "1.0.0" else c.version))
  {
    var g := WithCredentials(f, c);
    TokenRoundTrip(c.token);
    assert CredentialTypesOk(g) && g["device"] == DeviceJson(c);
    assert StoredToken(DeviceJson(c).fields) == Some(c.token);
  }

  /** Any document that loads still loads without these two keys: checking of
      certificates is then on, and the version 1.0.0. */
  lemma MissingKeysDefault(f: map<string, Json>)
    requires Loaded(Document(f)).Some?
    ensures Loaded(Document(f - {"verify_ssl"})) == Some(Loaded(Document(f)).value.(verifySsl := true))
    ensures Loaded(Document(f - {"version"})) == Some(Loaded(Document(f)).value.(version := "1.0.0"))
    ensures "verify_ssl" in f ==> f["verify_ssl"] == Bool(Loaded(Document(f)).value.verifySsl)
  {
  }

  lemma SectionLeavesLogin(f: map<string, Json>, update: Json)
    ensures Loaded(Document(f["update" := update])) == Loaded(Document(f))
  {
  }

  lemma StepRefines(file: Content, op: Op)
    ensures View(After(file, op)) == RegisterAfter(View(file), op)
  {
    if Succeeds(file, op) {
      match op
      case SaveOp(c, opens, _) =>
        var kept := KeptFields(file, opens);
        SavedLoads(kept, c);
        assert Others(Document(WithCredentials(kept, c))) == Others(Document(kept));
        assert kept == map[] ==> Others(Document(kept)) == map[];
      case SectionOp(update, _, _) =>
        SectionLeavesLogin(file.fields, update);
        assert Others(Document(file.fields["update" := update])) == Others(file);
      case RemoveOp =>
    }
  }

  /** Over any sequence of calls, whatever fails on the way and whatever the file
      held first, the one document behaves as independent registers. */
  lemma {:induction false} RunRefines(file: Content, ops: seq<Op>)
    ensures View(Run(file, ops)) == RegisterRun(View(file), ops)
    decreases |ops|
  {
    if ops != [] {
      StepRefines(file, ops[0]);
      RunRefines(After(file, ops[0]), ops[1..]);
    }
  }

  // ---- the last write of each kind ---------------------------------------------------

  /** A run with no removal, in which a file that was there could be opened. */
  predicate Undisturbed(ops: seq<Op>) {
    forall i :: 0 <= i < |ops| ==> !ops[i].RemoveOp? && ops[i].opens
  }

  predicate Saves(op: Op) {
    op.SaveOp? && op.c.IsValid() && op.written
  }

  function LastSaved(before: Option<Credentials>, ops: seq<Op>): Option<Credentials>
    decreases |ops|
  {
    if ops == [] then before
    else LastSaved(if Saves(ops[0]) then Some(ops[0].c.Normalised()) else before, ops[1..])
  }

  /** A section can be written once there is a document to write it in. */
  function LastSection(there: bool, before: Json, ops: seq<Op>): Json
    decreases |ops|
  {
    if ops == [] then before
    else
      var op := ops[0];
      LastSection(there || Saves(op), if there && op.SectionOp? && op.written then op.update else before, ops[1..])
  }

  /** From any file, a missing one and a corrupt one included: load returns the
      credentials of the last save that succeeded, the update section is the last one
      written since there was a document, and every other key is as it was. */
  lemma {:induction false} LastWritesWin(file: Content, ops: seq<Op>)
    requires Undisturbed(ops)
    ensures Loaded(Run(file, ops)) == LastSaved(Loaded(file), ops)
    ensures Section(Run(file, ops)) == LastSection(file.Document?, Section(file), ops)
    ensures Others(Run(file, ops)) == Others(file)
    decreases |ops|
  {
    if ops != [] {
      StepRefines(file, ops[0]);
      assert ops[0].opens;
      assert Undisturbed(ops[1..]);
      LastWritesWin(After(file, ops[0]), ops[1..]);
    }
  }

  /** A save loses the update section exactly when it had one to lose and could not
      read it back. */
  lemma SaveLosesSectionIff(file: Content, c: Credentials, opens: bool)
    requires c.IsValid()
    ensures Section(After(file, SaveOp(c, opens, true))) != Section(file) <==>
            !opens && Section(file) != EMPTY_SECTION
  {
  }
}
