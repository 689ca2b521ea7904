/** The sample setting handler: an extension built from the two message-of-the-day schemas,
    registered in the order v1, v2. */
module SampleHandler {
  import opened Wrappers
  import opened JsonValue
  import opened Models
  import opened Extension
  import opened Chains
  import opened Proto1
  import opened SampleModels

  function SampleModelList(): seq<Model> {
    [BottlerocketSetting(V1Schema()), BottlerocketSetting(V2Schema())]
  }

  /** The handler's extension: the registry of its two models. */
  function SampleExtension(): (r: Registry)
    ensures r.Keys == {"v1", "v2"}
    ensures WellKeyed(r)
  {
    var ms := SampleModelList();
    var r := WithModels(ms);
    assert ms[0].version == "v1" && ms[1].version == "v2";
    assert r.Keys == {"v1", "v2"} by {
      assert forall k :: k in r.Keys ==> k == ms[0].version || k == ms[1].version;
    }
    r
  }

  /** Each key of the extension holds the adapter of that version's schema. */
  lemma SampleEntries()
    ensures SampleExtension()["v1"] == BottlerocketSetting(V1Schema())
    ensures SampleExtension()["v2"] == BottlerocketSetting(V2Schema())
  {
    var ms := SampleModelList();
    assert LastOfVersion(ms, 0) && LastOfVersion(ms, 1);
    WithModelsLastWins(ms, 0);
    WithModelsLastWins(ms, 1);
  }

  /** The two versions form the chain v1 <-> v2. */
  lemma SampleIsChain()
    ensures LinearChain(SampleExtension(), ["v1", "v2"])
  {
    SampleEntries();
  }

  /** The route v1 -> v2 is one forward step, v2 -> v1 one backward step, and a version to itself
      is the empty route. */
  lemma SampleRoutes()
    ensures FindRoute(SampleExtension(), "v1", "v2") == Some([Forward])
    ensures FindRoute(SampleExtension(), "v2", "v1") == Some([Backward])
    ensures FindRoute(SampleExtension(), "v1", "v1") == Some([])
    ensures FindRoute(SampleExtension(), "v2", "v2") == Some([])
  {
    var vs := ["v1", "v2"];
    SampleIsChain();
    ChainRoute(SampleExtension(), vs, 0, 1);
    ChainRoute(SampleExtension(), vs, 1, 0);
    ChainRoute(SampleExtension(), vs, 0, 0);
    ChainRoute(SampleExtension(), vs, 1, 1);
    assert Repeat(Forward, 1) == [Forward];
    assert Repeat(Backward, 1) == [Backward];
  }

  /** Migrating v1 -> v2 keeps `motd` and sets `person` to "Sean"; a value that is not a
      `MotdV1` fails in that hop. */
  lemma SampleMigrateForward(value: Json)
    ensures PerformMigration(SampleExtension(), value, "v1", "v2") ==
      match DecodeV1(value)
      case Some(x) => Success(EncodeV2(MotdV2(x.motd, "Sean")))
      case None => Failure(StepFail("v1", "v2", "v1", "v2", DeserialiseFail))
  {
    SampleRoutes();
    SampleEntries();
    var r := SampleExtension();
    var m1, m2 := r["v1"], r["v2"];
    assert m1.forwardTo == Some("v2") && m2.version == "v2";
    assert m1.migrateForward(value) == AdapterMigrateForward(V1Schema(), value);
    assert [Forward][1..] == [];
    match DecodeV1(value)
    case Some(x) =>
      assert V1Schema().codec.decode(value) == Some(x);
      assert AdapterMigrateForward(V1Schema(), value) == Success(EncodeV2(MotdV2(x.motd, "Sean")));
      assert Fold(r, [Forward], value, m1, "v1", "v2") == Success((EncodeV2(MotdV2(x.motd, "Sean")), m2));
    case None =>
      assert V1Schema().codec.decode(value).None?;
      assert Fold(r, [Forward], value, m1, "v1", "v2") == Failure(StepFail("v1", "v2", "v1", "v2", DeserialiseFail));
  }

  /** Migrating v2 -> v1 keeps `motd` and drops `person`; a value that is not a `MotdV2` fails
      in that hop. */
  lemma SampleMigrateBackward(value: Json)
    ensures PerformMigration(SampleExtension(), value, "v2", "v1") ==
      match DecodeV2(value)
      case Some(x) => Success(EncodeV1(MotdV1(x.motd)))
      case None => Failure(StepFail("v2", "v1", "v2", "v1", DeserialiseFail))
  {
    SampleRoutes();
    SampleEntries();
    var r := SampleExtension();
    var m1, m2 := r["v1"], r["v2"];
    assert m2.backwardTo == Some("v1") && m1.version == "v1";
    assert m2.migrateBackward(value) == AdapterMigrateBackward(V2Schema(), value);
    assert [Backward][1..] == [];
    match DecodeV2(value)
    case Some(x) =>
      assert V2Schema().codec.decode(value) == Some(x);
      assert AdapterMigrateBackward(V2Schema(), value) == Success(EncodeV1(MotdV1(x.motd)));
      assert Fold(r, [Backward], value, m2, "v2", "v1") == Success((EncodeV1(MotdV1(x.motd)), m1));
    case None =>
      assert V2Schema().codec.decode(value).None?;
      assert Fold(r, [Backward], value, m2, "v2", "v1") == Failure(StepFail("v2", "v1", "v2", "v1", DeserialiseFail));
  }

  /** `{"motd": "hi"}` migrates from v1 to v2 as `{"motd": "hi", "person": "Sean"}`, and back. */
  lemma SampleMigrationExample()
    ensures PerformMigration(SampleExtension(), JObject(map["motd" := JString("hi")]), "v1", "v2") ==
      Success(JObject(map["motd" := JString("hi"), "person" := JString("Sean")]))
    ensures PerformMigration(SampleExtension(), JObject(map["motd" := JString("hi"), "person" := JString("Sean")]), "v2", "v1") ==
      Success(JObject(map["motd" := JString("hi")]))
  {
    var hi := JObject(map["motd" := JString("hi")]);
    var hiSean := JObject(map["motd" := JString("hi"), "person" := JString("Sean")]);
    assert DecodeV1(hi) == Some(MotdV1("hi"));
    assert EncodeV2(MotdV2("hi", "Sean")) == hiSean;
    SampleMigrateForward(hi);
    assert DecodeV2(hiSean) == Some(MotdV2("hi", "Sean"));
    assert EncodeV1(MotdV1("hi")) == hi;
    SampleMigrateBackward(hiSean);
  }

  /** Going v1 -> v2 -> v1 gives back the same message. */
  lemma V1ThereAndBack(m: string)
    ensures var there := PerformMigration(SampleExtension(), EncodeV1(MotdV1(m)), "v1", "v2");
      there.Success? && PerformMigration(SampleExtension(), there.value, "v2", "v1") == Success(EncodeV1(MotdV1(m)))
  {
    assert DecodeV1(EncodeV1(MotdV1(m))) == Some(MotdV1(m));
    assert DecodeV2(EncodeV2(MotdV2(m, "Sean"))) == Some(MotdV2(m, "Sean"));
    SampleMigrateForward(EncodeV1(MotdV1(m)));
    SampleMigrateBackward(EncodeV2(MotdV2(m, "Sean")));
  }

  /** Going v2 -> v1 -> v2 keeps the message but replaces the person with "Sean": the round trip
      loses data whenever the person was someone else. */
  lemma V2ThereAndBackIsLossy(m: string, p: string)
    ensures var there := PerformMigration(SampleExtension(), EncodeV2(MotdV2(m, p)), "v2", "v1");
      && there.Success?
      && PerformMigration(SampleExtension(), there.value, "v1", "v2") == Success(EncodeV2(MotdV2(m, "Sean")))
      && (p != "Sean" ==> EncodeV2(MotdV2(m, "Sean")) != EncodeV2(MotdV2(m, p)))
  {
    assert DecodeV2(EncodeV2(MotdV2(m, p))) == Some(MotdV2(m, p));
    assert DecodeV1(EncodeV1(MotdV1(m))) == Some(MotdV1(m));
    SampleMigrateBackward(EncodeV2(MotdV2(m, p)));
    SampleMigrateForward(EncodeV1(MotdV1(m)));
    if p != "Sean" {
      assert EncodeV2(MotdV2(m, "Sean")).fields["person"] != EncodeV2(MotdV2(m, p)).fields["person"];
    }
  }

  /** A migration whose start or target is neither v1 nor v2 fails: an unknown start before any
      routing, an unknown target for want of a route. */
  lemma SampleUnknownVersions(value: Json, start: string, target: string)
    requires start !in {"v1", "v2"} || target !in {"v1", "v2"}
    ensures start !in {"v1", "v2"} ==> PerformMigration(SampleExtension(), value, start, target) == Failure(UnknownStart(start))
    ensures start in {"v1", "v2"} ==> PerformMigration(SampleExtension(), value, start, target) == Failure(NoRoute(start, target))
  {
    if start in {"v1", "v2"} {
      var vs := ["v1", "v2"];
      SampleIsChain();
      ChainNoRoute(SampleExtension(), vs, if start == "v1" then 0 else 1, target);
    }
  }

  /** `set` on either version returns the requested value, read and written back, whatever the
      current value is, as long as both values read; an unreadable one is an error. */
  lemma SampleSet(value: Json, current: Option<Json>)
    ensures Set(SampleExtension(), SetCommand("v1", value, current)) ==
      if (current.Some? && DecodeV1(current.value).None?) || DecodeV1(value).None? then Failure(DeserialiseFail)
      else Success(EncodeV1(DecodeV1(value).value))
    ensures Set(SampleExtension(), SetCommand("v2", value, current)) ==
      if (current.Some? && DecodeV2(current.value).None?) || DecodeV2(value).None? then Failure(DeserialiseFail)
      else Success(EncodeV2(DecodeV2(value).value))
  {
    SampleEntries();
  }

  /** `generate` on either version is complete with the default value, once a given partial reads. */
  lemma SampleGenerate(partial: Option<Json>, dependent: Option<Json>)
    ensures Generate(SampleExtension(), GenerateCommand("v1", partial, dependent)) ==
      if partial.Some? && DecodeV1Partial(partial.value).None? then Failure(DeserialiseFail)
      else Success(JObject(map["Complete" := JObject(map["motd" := JString("")])]))
    ensures Generate(SampleExtension(), GenerateCommand("v2", partial, dependent)) ==
      if partial.Some? && DecodeV2Partial(partial.value).None? then Failure(DeserialiseFail)
      else Success(JObject(map["Complete" := JObject(map["motd" := JString(""), "person" := JString("")])]))
  {
    SampleEntries();
  }

  /** `validate` on either version answers `true` for every value that reads, and is an error,
      not `false`, for one that does not. */
  lemma SampleValidate(value: Json, dependent: Option<Json>)
    ensures Validate(SampleExtension(), ValidateCommand("v1", value, dependent)) ==
      if DecodeV1(value).Some? then Success(JBool(true)) else Failure(DeserialiseFail)
    ensures Validate(SampleExtension(), ValidateCommand("v2", value, dependent)) ==
      if DecodeV2(value).Some? then Success(JBool(true)) else Failure(DeserialiseFail)
  {
    SampleEntries();
  }

  /** Commands for a version other than v1 and v2 fail with "not found". */
  lemma SampleCommandsNotFound(version: string, value: Json, other: Option<Json>)
    requires version !in {"v1", "v2"}
    ensures Set(SampleExtension(), SetCommand(version, value, other)) == Failure(NotFound(version))
    ensures Generate(SampleExtension(), GenerateCommand(version, other, other)) == Failure(NotFound(version))
    ensures Validate(SampleExtension(), ValidateCommand(version, value, other)) == Failure(NotFound(version))
  {
  }
}
