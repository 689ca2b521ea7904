/** The developer-facing schema contract (`SettingsModel`) and the type-erased adapter
    (`BottlerocketSetting<T>` seen as a `Model`), which reads the exchange value into the
    schema type on the way in and writes the schema type back out on the way out. */
module Models {
  import opened Wrappers
  import opened JsonValue

  /** The runtime identity of a schema's migration target type: either the `NoMigration`
      marker or a settings type with the given version. */
  datatype TargetType = NoMigrationType | SettingsType(version: string)

  /** The marker type used as a migration target when no migration is defined. */
  datatype NoMigration = NoMigration

  /** How a type is read from and written to the exchange value. */
  datatype Codec<!T> = Codec(decode: Json -> Option<T>, encode: T -> Json)

  /** A codec reads back everything it writes. */
  ghost predicate RoundTrips<T(!new)>(c: Codec<T>) {
    forall x: T :: c.decode(c.encode(x)) == Some(x)
  }

  /** The marker type is a unit struct: it is written as `null` and only `null` reads as it. */
  function NoMigrationCodec(): Codec<NoMigration> {
    Codec(j => if j == JNull then Some(NoMigration) else None, _ => JNull)
  }

  lemma NoMigrationCodecRoundTrips()
    ensures RoundTrips(NoMigrationCodec())
    ensures forall j :: NoMigrationCodec().decode(j).Some? <==> j == JNull
  {
    forall x: NoMigration
      ensures NoMigrationCodec().decode(NoMigrationCodec().encode(x)) == Some(x)
    {
      assert x == NoMigration;
    }
  }

  /** The outcome of `generate`: more data is needed, or generation is complete. */
  datatype GenerateResult<P, C> = NeedsData(partial: Option<P>) | Complete(value: Option<C>) {
    /** Whether the variant carries a value. */
    predicate HasInterior() {
      if NeedsData? then partial.Some? else value.Some?
    }
  }

  /** One version of a setting, typed against its own schema `T`, its partial type `P` and its
      forward and backward migration target types `F` and `B`. */
  datatype SettingsModel<!T, !P, !F, !B> = SettingsModel(
    version: string,
    forwardType: TargetType,
    backwardType: TargetType,
    codec: Codec<T>,
    partialCodec: Codec<P>,
    encodeForward: F -> Json,
    encodeBackward: B -> Json,
    setValue: (Option<T>, T) -> Result<T>,
    generate: (Option<P>, Option<Json>) -> Result<GenerateResult<P, T>>,
    validate: (T, Option<Json>) -> Result<bool>,
    migrateForward: T -> Result<F>,
    migrateBackward: T -> Result<B>)

  /** The default `migrates_forward_to` / `migrates_backward_to`: the target's version, or
      nothing when the target is the `NoMigration` marker. */
  function MigratesTo(t: TargetType): (r: Option<string>)
    ensures r.None? <==> t == NoMigrationType
    ensures r.Some? ==> t == SettingsType(r.value)
  {
    match t
    case NoMigrationType => None
    case SettingsType(v) => Some(v)
  }

  function MigratesForwardTo<T, P, F, B>(s: SettingsModel<T, P, F, B>): Option<string> {
    MigratesTo(s.forwardType)
  }

  function MigratesBackwardTo<T, P, F, B>(s: SettingsModel<T, P, F, B>): Option<string> {
    MigratesTo(s.backwardType)
  }

  /** `serde_json::from_value`, with the failure reported as `DeserialiseFail`. */
  function Read<T>(c: Codec<T>, j: Json): (r: Result<T>)
    ensures r.Failure? <==> c.decode(j).None?
    ensures r.Failure? ==> r.error == DeserialiseFail
    ensures r.Success? ==> c.decode(j) == Some(r.value)
  {
    match c.decode(j)
    case Some(x) => Success(x)
    case None => Failure(DeserialiseFail)
  }

  /** `Option::map(from_value).transpose()`: an absent value stays absent, a present one must read. */
  function ReadOptional<T>(c: Codec<T>, oj: Option<Json>): (r: Result<Option<T>>)
    ensures oj.None? ==> r == Success(None)
    ensures oj.Some? ==> (r.Failure? <==> c.decode(oj.value).None?)
    ensures oj.Some? && r.Success? ==> r.value.Some? && c.decode(oj.value) == r.value
    ensures r.Failure? ==> r.error == DeserialiseFail
  {
    match oj
    case None => Success(None)
    case Some(j) =>
      match c.decode(j)
      case Some(x) => Success(Some(x))
      case None => Failure(DeserialiseFail)
  }

  function MapOption<X, Y>(o: Option<X>, f: X -> Y): Option<Y> {
    match o
    case None => None
    case Some(x) => Some(f(x))
  }

  /** `GenerateResult::erase_type`: writes the interior with the partial or the full codec,
      keeping the variant and whether an interior is present. */
  function EraseType<P, C>(g: GenerateResult<P, C>, encodePartial: P -> Json, encode: C -> Json)
    : (r: GenerateResult<Json, Json>)
    ensures r.NeedsData? <==> g.NeedsData?
    ensures r.HasInterior() <==> g.HasInterior()
    ensures g.NeedsData? && g.partial.Some? ==> r.partial == Some(encodePartial(g.partial.value))
    ensures g.Complete? && g.value.Some? ==> r.value == Some(encode(g.value.value))
  {
    match g
    case NeedsData(p) => NeedsData(MapOption(p, encodePartial))
    case Complete(c) => Complete(MapOption(c, encode))
  }

  /** The adapter's `set`: reads the current value (when present) and then the target, calls the
      schema's `set` and writes its result. */
  function AdapterSet<T, P, F, B>(s: SettingsModel<T, P, F, B>, current: Option<Json>, target: Json)
    : (r: Result<Json>)
    ensures ReadOptional(s.codec, current).Failure? ==> r == Failure(DeserialiseFail)
    ensures s.codec.decode(target).None? ==> r == Failure(DeserialiseFail)
    ensures r.Success? <==>
      && ReadOptional(s.codec, current).Success?
      && s.codec.decode(target).Some?
      && s.setValue(ReadOptional(s.codec, current).value, s.codec.decode(target).value).Success?
    ensures r.Success? ==>
      r.value == s.codec.encode(s.setValue(ReadOptional(s.codec, current).value, s.codec.decode(target).value).value)
  {
    var cur :- ReadOptional(s.codec, current);
    var t :- Read(s.codec, target);
    var out :- s.setValue(cur, t);
    Success(s.codec.encode(out))
  }

  /** The adapter's `migrate_forward`: reads the value as `T`, migrates it and writes the result
      with the forward target's serialiser. */
  function AdapterMigrateForward<T, P, F, B>(s: SettingsModel<T, P, F, B>, current: Json): (r: Result<Json>)
    ensures s.codec.decode(current).None? ==> r == Failure(DeserialiseFail)
    ensures s.codec.decode(current).Some? ==>
      match s.migrateForward(s.codec.decode(current).value)
      case Success(next) => r == Success(s.encodeForward(next))
      case Failure(e) => r == Failure(e)
  {
    var x :- Read(s.codec, current);
    var next :- s.migrateForward(x);
    Success(s.encodeForward(next))
  }

  /** The adapter's `migrate_backward`, symmetric to `AdapterMigrateForward`. */
  function AdapterMigrateBackward<T, P, F, B>(s: SettingsModel<T, P, F, B>, current: Json): (r: Result<Json>)
    ensures s.codec.decode(current).None? ==> r == Failure(DeserialiseFail)
    ensures s.codec.decode(current).Some? ==>
      match s.migrateBackward(s.codec.decode(current).value)
      case Success(prev) => r == Success(s.encodeBackward(prev))
      case Failure(e) => r == Failure(e)
  {
    var x :- Read(s.codec, current);
    var prev :- s.migrateBackward(x);
    Success(s.encodeBackward(prev))
  }

  /** The adapter's `generate`: reads the partial only when one is given, hands the dependent
      settings through untouched and erases the type of the schema's result. */
  function AdapterGenerate<T, P, F, B>(s: SettingsModel<T, P, F, B>, existingPartial: Option<Json>,
                                       dependentSettings: Option<Json>)
    : (r: Result<GenerateResult<Json, Json>>)
    ensures ReadOptional(s.partialCodec, existingPartial).Failure? ==> r == Failure(DeserialiseFail)
    ensures existingPartial.None? ==>
      match s.generate(None, dependentSettings)
      case Success(g) => r == Success(EraseType(g, s.partialCodec.encode, s.codec.encode))
      case Failure(e) => r == Failure(e)
    ensures existingPartial.Some? && s.partialCodec.decode(existingPartial.value).Some? ==>
      match s.generate(s.partialCodec.decode(existingPartial.value), dependentSettings)
      case Success(g) => r == Success(EraseType(g, s.partialCodec.encode, s.codec.encode))
      case Failure(e) => r == Failure(e)
  {
    var partial :- ReadOptional(s.partialCodec, existingPartial);
    var g :- s.generate(partial, dependentSettings);
    Success(EraseType(g, s.partialCodec.encode, s.codec.encode))
  }

  /** The adapter's `validate`: exactly the schema's verdict; an unreadable value is an error,
      not `false`. */
  function AdapterValidate<T, P, F, B>(s: SettingsModel<T, P, F, B>, value: Json, validatedSettings: Option<Json>)
    : (r: Result<bool>)
    ensures s.codec.decode(value).None? ==> r == Failure(DeserialiseFail)
    ensures s.codec.decode(value).Some? ==> r == s.validate(s.codec.decode(value).value, validatedSettings)
  {
    var x :- Read(s.codec, value);
    s.validate(x, validatedSettings)
  }

  /** A type-erased model: every schema-typed value is replaced by the exchange value. */
  datatype Model = Model(
    version: string,
    forwardTo: Option<string>,
    backwardTo: Option<string>,
    setValue: (Option<Json>, Json) -> Result<Json>,
    migrateForward: Json -> Result<Json>,
    migrateBackward: Json -> Result<Json>,
    generate: (Option<Json>, Option<Json>) -> Result<GenerateResult<Json, Json>>,
    validate: (Json, Option<Json>) -> Result<bool>)

  /** `BottlerocketSetting::<T>::model()`: the adapter for schema `s`. Its identity and links are
      exactly the schema's, and each operation is the corresponding adapter function. */
  function BottlerocketSetting<T, P, F, B>(s: SettingsModel<T, P, F, B>): (m: Model)
    ensures m.version == s.version
    ensures m.forwardTo == MigratesForwardTo(s) && m.backwardTo == MigratesBackwardTo(s)
    ensures forall c, t :: m.setValue(c, t) == AdapterSet(s, c, t)
    ensures forall j :: m.migrateForward(j) == AdapterMigrateForward(s, j)
    ensures forall j :: m.migrateBackward(j) == AdapterMigrateBackward(s, j)
    ensures forall p, d :: m.generate(p, d) == AdapterGenerate(s, p, d)
    ensures forall v, d :: m.validate(v, d) == AdapterValidate(s, v, d)
  {
    Model(
      s.version,
      MigratesForwardTo(s),
      MigratesBackwardTo(s),
      (c, t) => AdapterSet(s, c, t),
      j => AdapterMigrateForward(s, j),
      j => AdapterMigrateBackward(s, j),
      (p, d) => AdapterGenerate(s, p, d),
      (v, d) => AdapterValidate(s, v, d))
  }

  /** On values the schema's own codec wrote, the adapter is invisible: each erased operation is
      the typed operation with its result written out. */
  lemma AdapterTransparent<T(!new), P(!new), F, B>(s: SettingsModel<T, P, F, B>, x: T, cur: Option<T>,
                                                   p: Option<P>, d: Option<Json>)
    requires RoundTrips(s.codec) && RoundTrips(s.partialCodec)
    ensures AdapterSet(s, MapOption(cur, s.codec.encode), s.codec.encode(x)) ==
      (match s.setValue(cur, x)
       case Success(y) => Success(s.codec.encode(y))
       case Failure(e) => Failure(e))
    ensures AdapterMigrateForward(s, s.codec.encode(x)) ==
      (match s.migrateForward(x)
       case Success(y) => Success(s.encodeForward(y))
       case Failure(e) => Failure(e))
    ensures AdapterMigrateBackward(s, s.codec.encode(x)) ==
      (match s.migrateBackward(x)
       case Success(y) => Success(s.encodeBackward(y))
       case Failure(e) => Failure(e))
    ensures AdapterGenerate(s, MapOption(p, s.partialCodec.encode), d) ==
      (match s.generate(p, d)
       case Success(g) => Success(EraseType(g, s.partialCodec.encode, s.codec.encode))
       case Failure(e) => Failure(e))
    ensures AdapterValidate(s, s.codec.encode(x), d) == s.validate(x, d)
  {
    assert s.codec.decode(s.codec.encode(x)) == Some(x);
    if cur.Some? {
      assert s.codec.decode(s.codec.encode(cur.value)) == Some(cur.value);
    }
    if p.Some? {
      assert s.partialCodec.decode(s.partialCodec.encode(p.value)) == Some(p.value);
    }
  }
}
