/** The two message-of-the-day schemas of the sample setting handler. Version "v1" holds a
    message; version "v2" adds the person it is from. They migrate into each other, so both live
    in one module. Both reject unknown fields; their partial types do not. */
module SampleModels {
  import opened Wrappers
  import opened JsonValue
  import opened Models

  const V1Version: string := "v1"
  const V2Version: string := "v2"

  datatype MotdV1 = MotdV1(motd: string)
  datatype MotdV1Partial = MotdV1Partial(motd: Option<string>)
  datatype MotdV2 = MotdV2(motd: string, person: string)
  datatype MotdV2Partial = MotdV2Partial(motd: Option<string>, person: Option<string>)

  // Field readers of the derived deserialisers.

  /** An `Option<String>` field: `null` reads as absent, a string as present. */
  function ReadOptString(j: Json): Option<Option<string>> {
    match j
    case JNull => Some(None)
    case JString(s) => Some(Some(s))
    case _ => None
  }

  function WriteOptString(o: Option<string>): Json {
    match o
    case None => JNull
    case Some(s) => JString(s)
  }

  /** A value an `Option<String>` field accepts. */
  predicate NullOrString(j: Json) {
    j == JNull || j.JString?
  }

  /** The key is missing from the object, or holds a value an `Option<String>` field accepts. */
  predicate OptionalOk(fields: map<string, Json>, key: string) {
    key in fields ==> NullOrString(fields[key])
  }

  /** The string the key holds, if it holds one; absent when the key is missing or `null`. */
  function StringAt(fields: map<string, Json>, key: string): Option<string> {
    if key in fields && fields[key].JString? then Some(fields[key].s) else None
  }

  /** An `Option<String>` struct field read from an object: a missing key reads as absent. */
  function ReadOptField(fields: map<string, Json>, key: string): Option<Option<string>> {
    if key in fields then ReadOptString(fields[key]) else Some(None)
  }

  // MotdV1

  /** Reads `MotdV1`: an object whose only key is a string `motd`, or the positional form, an
      array holding exactly that one string. */
  function DecodeV1(j: Json): (r: Option<MotdV1>)
    ensures r.Some? ==> j.JObject? || j.JArray?
    ensures r.Some? && j.JObject? ==> j.fields == map["motd" := JString(r.value.motd)]
    ensures r.Some? && j.JArray? ==> j.items == [JString(r.value.motd)]
    ensures j.JArray? && |j.items| == 1 && j.items[0].JString? ==> r == Some(MotdV1(j.items[0].s))
    ensures j.JObject? && j.fields.Keys == {"motd"} && j.fields["motd"].JString? ==>
      r == Some(MotdV1(j.fields["motd"].s))
  {
    match j
    case JObject(f) =>
      if f.Keys == {"motd"} && f["motd"].JString? then
        assert f == map["motd" := f["motd"]];
        Some(MotdV1(f["motd"].s))
      else None
    case JArray(items) =>
      if |items| == 1 && items[0].JString? then Some(MotdV1(items[0].s)) else None
    case _ => None
  }

  /** Writes `MotdV1` as an object keyed by its field name. */
  function EncodeV1(x: MotdV1): (j: Json)
    ensures j.JObject?
    ensures DecodeV1(j) == Some(x)
  {
    JObject(map["motd" := JString(x.motd)])
  }

  /** Reads `MotdV1Partial`: an object whose `motd`, when present, is `null` or a string, other
      keys ignored; or an array holding exactly one such value. */
  function DecodeV1Partial(j: Json): (r: Option<MotdV1Partial>)
    ensures r.Some? ==> j.JObject? || j.JArray?
    ensures j.JObject? ==> (r.Some? <==> OptionalOk(j.fields, "motd"))
    ensures j.JObject? && OptionalOk(j.fields, "motd") ==> r == Some(MotdV1Partial(StringAt(j.fields, "motd")))
  {
    match j
    case JObject(f) =>
      if ReadOptField(f, "motd").Some? then Some(MotdV1Partial(ReadOptField(f, "motd").value)) else None
    case JArray(items) =>
      if |items| == 1 && ReadOptString(items[0]).Some? then Some(MotdV1Partial(ReadOptString(items[0]).value))
      else None
    case _ => None
  }

  function EncodeV1Partial(p: MotdV1Partial): (j: Json)
    ensures j.JObject?
    ensures DecodeV1Partial(j) == Some(p)
  {
    assert ReadOptString(WriteOptString(p.motd)) == Some(p.motd);
    JObject(map["motd" := WriteOptString(p.motd)])
  }

  function V1Codec(): (c: Codec<MotdV1>)
    ensures RoundTrips(c)
  {
    Codec(DecodeV1, EncodeV1)
  }

  function V1PartialCodec(): (c: Codec<MotdV1Partial>)
    ensures RoundTrips(c)
  {
    Codec(DecodeV1Partial, EncodeV1Partial)
  }

  // MotdV2

  /** Reads `MotdV2`: an object whose keys are exactly a string `motd` and a string `person`, or
      the positional form, an array of exactly those two strings. */
  function DecodeV2(j: Json): (r: Option<MotdV2>)
    ensures r.Some? ==> j.JObject? || j.JArray?
    ensures r.Some? && j.JObject? ==>
      j.fields == map["motd" := JString(r.value.motd), "person" := JString(r.value.person)]
    ensures r.Some? && j.JArray? ==> j.items == [JString(r.value.motd), JString(r.value.person)]
    ensures j.JArray? && |j.items| == 2 && j.items[0].JString? && j.items[1].JString? ==>
      r == Some(MotdV2(j.items[0].s, j.items[1].s))
    ensures j.JObject? && j.fields.Keys == {"motd", "person"} && j.fields["motd"].JString? && j.fields["person"].JString?
      ==> r == Some(MotdV2(j.fields["motd"].s, j.fields["person"].s))
  {
    match j
    case JObject(f) =>
      if f.Keys == {"motd", "person"} && f["motd"].JString? && f["person"].JString? then
        assert f == map["motd" := f["motd"], "person" := f["person"]];
        Some(MotdV2(f["motd"].s, f["person"].s))
      else None
    case JArray(items) =>
      if |items| == 2 && items[0].JString? && items[1].JString? then Some(MotdV2(items[0].s, items[1].s))
      else None
    case _ => None
  }

  /** Writes `MotdV2` as an object keyed by its field names. */
  function EncodeV2(x: MotdV2): (j: Json)
    ensures j.JObject?
    ensures DecodeV2(j) == Some(x)
  {
    JObject(map["motd" := JString(x.motd), "person" := JString(x.person)])
  }

  /** Reads `MotdV2Partial`: an object whose `motd` and `person`, when present, are `null` or
      strings, other keys ignored; or an array holding exactly two such values. */
  function DecodeV2Partial(j: Json): (r: Option<MotdV2Partial>)
    ensures r.Some? ==> j.JObject? || j.JArray?
    ensures j.JObject? ==> (r.Some? <==> OptionalOk(j.fields, "motd") && OptionalOk(j.fields, "person"))
    ensures j.JObject? && OptionalOk(j.fields, "motd") && OptionalOk(j.fields, "person") ==>
      r == Some(MotdV2Partial(StringAt(j.fields, "motd"), StringAt(j.fields, "person")))
  {
    match j
    case JObject(f) =>
      if ReadOptField(f, "motd").Some? && ReadOptField(f, "person").Some? then
        Some(MotdV2Partial(ReadOptField(f, "motd").value, ReadOptField(f, "person").value))
      else None
    case JArray(items) =>
      if |items| == 2 && ReadOptString(items[0]).Some? && ReadOptString(items[1]).Some? then
        Some(MotdV2Partial(ReadOptString(items[0]).value, ReadOptString(items[1]).value))
      else None
    case _ => None
  }

  function EncodeV2Partial(p: MotdV2Partial): (j: Json)
    ensures j.JObject?
    ensures DecodeV2Partial(j) == Some(p)
  {
    assert ReadOptString(WriteOptString(p.motd)) == Some(p.motd);
    assert ReadOptString(WriteOptString(p.person)) == Some(p.person);
    JObject(map["motd" := WriteOptString(p.motd), "person" := WriteOptString(p.person)])
  }

  function V2Codec(): (c: Codec<MotdV2>)
    ensures RoundTrips(c)
  {
    Codec(DecodeV2, EncodeV2)
  }

  function V2PartialCodec(): (c: Codec<MotdV2Partial>)
    ensures RoundTrips(c)
  {
    Codec(DecodeV2Partial, EncodeV2Partial)
  }

  // The `SettingsModel` implementations.

  /** `set` accepts every target as it is, whatever the current value. */
  function V1Set(current: Option<MotdV1>, target: MotdV1): (r: Result<MotdV1>)
    ensures r.Success? && r.value == target
  {
    Success(target)
  }

  /** `generate` is complete at once with the default value, an empty message. */
  function V1Generate(existing: Option<MotdV1Partial>, dependent: Option<Json>)
    : (r: Result<GenerateResult<MotdV1Partial, MotdV1>>)
    ensures r.Success? && r.value.Complete? && r.value.value == Some(MotdV1(""))
  {
    Success(Complete(Some(MotdV1(""))))
  }

  /** `validate` accepts every value. */
  function V1Validate(value: MotdV1, validated: Option<Json>): (r: Result<bool>)
    ensures r == Success(true)
  {
    Success(true)
  }

  /** Forward to v2: the message is kept and the person is set to "Sean"; going back to v1
      restores the original. */
  function V1MigrateForward(x: MotdV1): (r: Result<MotdV2>)
    ensures r.Success? && r.value.motd == x.motd && r.value.person == "Sean"
    ensures V2MigrateBackward(r.value) == Success(x)
  {
    Success(MotdV2(x.motd, "Sean"))
  }

  /** There is no version before v1: `no_defined_migration` succeeds with the marker. */
  function V1MigrateBackward(x: MotdV1): (r: Result<NoMigration>)
    ensures r.Success?
  {
    Success(NoMigration)
  }

  /** `set` accepts every target as it is, whatever the current value. */
  function V2Set(current: Option<MotdV2>, target: MotdV2): (r: Result<MotdV2>)
    ensures r.Success? && r.value == target
  {
    Success(target)
  }

  /** `generate` is complete at once with the default value, an empty message and person. */
  function V2Generate(existing: Option<MotdV2Partial>, dependent: Option<Json>)
    : (r: Result<GenerateResult<MotdV2Partial, MotdV2>>)
    ensures r.Success? && r.value.Complete? && r.value.value == Some(MotdV2("", ""))
  {
    Success(Complete(Some(MotdV2("", ""))))
  }

  /** `validate` accepts every value. */
  function V2Validate(value: MotdV2, validated: Option<Json>): (r: Result<bool>)
    ensures r == Success(true)
  {
    Success(true)
  }

  /** There is no version after v2: `no_defined_migration` succeeds with the marker. */
  function V2MigrateForward(x: MotdV2): (r: Result<NoMigration>)
    ensures r.Success?
  {
    Success(NoMigration)
  }

  /** Back to v1: the message is kept and the person is dropped. */
  function V2MigrateBackward(x: MotdV2): (r: Result<MotdV1>)
    ensures r.Success? && r.value.motd == x.motd
  {
    Success(MotdV1(x.motd))
  }

  /** `impl SettingsModel for MotdV1`: version "v1", migrating forward to "v2" and backward to
      nothing. */
  function V1Schema(): (s: SettingsModel<MotdV1, MotdV1Partial, MotdV2, NoMigration>)
    ensures s.version == "v1"
    ensures MigratesForwardTo(s) == Some("v2") && MigratesBackwardTo(s) == None
  {
    SettingsModel(V1Version, SettingsType(V2Version), NoMigrationType, V1Codec(), V1PartialCodec(),
                  EncodeV2, NoMigrationCodec().encode,
                  V1Set, V1Generate, V1Validate, V1MigrateForward, V1MigrateBackward)
  }

  /** `impl SettingsModel for MotdV2`: version "v2", migrating forward to nothing and backward to
      "v1". */
  function V2Schema(): (s: SettingsModel<MotdV2, MotdV2Partial, NoMigration, MotdV1>)
    ensures s.version == "v2"
    ensures MigratesForwardTo(s) == None && MigratesBackwardTo(s) == Some("v1")
  {
    SettingsModel(V2Version, NoMigrationType, SettingsType(V1Version), V2Codec(), V2PartialCodec(),
                  NoMigrationCodec().encode, EncodeV1,
                  V2Set, V2Generate, V2Validate, V2MigrateForward, V2MigrateBackward)
  }

  // What the derived (de)serialisers promise.

  /** `MotdV1` rejects any key other than `motd`, and an object without `motd`. */
  lemma V1RejectsUnknownOrMissing(f: map<string, Json>, k: string)
    requires (k in f && k != "motd") || "motd" !in f
    ensures DecodeV1(JObject(f)).None?
  {
    if k in f && k != "motd" {
      assert k !in {"motd"};
    }
  }

  /** `MotdV2` rejects any key other than `motd` and `person`, and an object missing either. */
  lemma V2RejectsUnknownOrMissing(f: map<string, Json>, k: string)
    requires (k in f && k != "motd" && k != "person") || "motd" !in f || "person" !in f
    ensures DecodeV2(JObject(f)).None?
  {
    if k in f && k != "motd" && k != "person" {
      assert k !in {"motd", "person"};
    }
  }

  /** `{"motd": "hi", "extra": 1}` is not a `MotdV1`, and `{"motd": "hi"}` is not a `MotdV2`. */
  lemma StrictExamples()
    ensures DecodeV1(JObject(map["motd" := JString("hi"), "extra" := JNumber(1)])).None?
    ensures DecodeV2(JObject(map["motd" := JString("hi")])).None?
  {
    V1RejectsUnknownOrMissing(map["motd" := JString("hi"), "extra" := JNumber(1)], "extra");
    V2RejectsUnknownOrMissing(map["motd" := JString("hi")], "person");
  }

  /** The partial types ignore unknown keys: adding one changes nothing that is read. */
  lemma PartialsIgnoreUnknownKeys(f: map<string, Json>, k: string, v: Json)
    requires k != "motd" && k != "person"
    ensures DecodeV1Partial(JObject(f[k := v])) == DecodeV1Partial(JObject(f))
    ensures DecodeV2Partial(JObject(f[k := v])) == DecodeV2Partial(JObject(f))
  {
  }
}
