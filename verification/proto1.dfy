/** The protocol-1 command surface of a settings extension (`impl Proto1 for SettingsExtension`):
    each command looks up the model of the requested version and delegates to it, and `migrate`
    hands over to the executor. Results are exchange values. */
module Proto1 {
  import opened Wrappers
  import opened JsonValue
  import opened Models
  import opened Extension

  datatype SetCommand = SetCommand(settingVersion: string, value: Json, currentValue: Option<Json>)
  datatype GenerateCommand = GenerateCommand(settingVersion: string, existingPartial: Option<Json>,
                                             requiredSettings: Option<Json>)
  datatype ValidateCommand = ValidateCommand(settingVersion: string, value: Json, requiredSettings: Option<Json>)
  datatype MigrateCommand = MigrateCommand(value: Json, fromVersion: string, targetVersion: string)

  /** An absent value is written as `null`. */
  function OptionToJson(o: Option<Json>): (j: Json)
    ensures o.None? ==> j == JNull
    ensures o.Some? ==> j == o.value
  {
    match o
    case None => JNull
    case Some(v) => v
  }

  /** The variant tag under which a generate result is written. */
  function Tag(g: GenerateResult<Json, Json>): string {
    if g.NeedsData? then "NeedsData" else "Complete"
  }

  /** A generate result written as an externally tagged enum: a one-key object from the variant
      name to the interior, or to `null` when there is none. */
  function GenerateResultToJson(g: GenerateResult<Json, Json>): (j: Json)
    ensures j.JObject? && j.fields.Keys == {Tag(g)}
    ensures g.NeedsData? ==> j.fields[Tag(g)] == OptionToJson(g.partial)
    ensures g.Complete? ==> j.fields[Tag(g)] == OptionToJson(g.value)
  {
    match g
    case NeedsData(p) => JObject(map["NeedsData" := OptionToJson(p)])
    case Complete(c) => JObject(map["Complete" := OptionToJson(c)])
  }

  /** Writing keeps the variant apart, but an absent interior and a present `null` interior are
      written the same way. */
  lemma GenerateResultWriting(g1: GenerateResult<Json, Json>, g2: GenerateResult<Json, Json>)
    ensures GenerateResultToJson(g1) == GenerateResultToJson(g2) ==> g1.NeedsData? == g2.NeedsData?
    ensures GenerateResultToJson(Complete(None)) == GenerateResultToJson(Complete(Some(JNull)))
    ensures GenerateResultToJson(NeedsData(None)) == GenerateResultToJson(NeedsData(Some(JNull)))
  {
    if GenerateResultToJson(g1) == GenerateResultToJson(g2) {
      assert Tag(g1) in GenerateResultToJson(g2).fields.Keys;
    }
  }

  /** `set`: the looked-up model's `set` of the current and the requested value. */
  function Set(models: Registry, args: SetCommand): (r: Result<Json>)
    ensures args.settingVersion !in models ==> r == Failure(NotFound(args.settingVersion))
    ensures args.settingVersion in models ==>
      r == models[args.settingVersion].setValue(args.currentValue, args.value)
  {
    match Lookup(models, args.settingVersion)
    case None => Failure(NotFound(args.settingVersion))
    case Some(m) => m.setValue(args.currentValue, args.value)
  }

  /** `generate`: the looked-up model's generate result, written with its variant tag. */
  function Generate(models: Registry, args: GenerateCommand): (r: Result<Json>)
    ensures args.settingVersion !in models ==> r == Failure(NotFound(args.settingVersion))
    ensures args.settingVersion in models ==>
      match models[args.settingVersion].generate(args.existingPartial, args.requiredSettings)
      case Success(g) => r == Success(GenerateResultToJson(g))
      case Failure(e) => r == Failure(e)
  {
    match Lookup(models, args.settingVersion)
    case None => Failure(NotFound(args.settingVersion))
    case Some(m) =>
      match m.generate(args.existingPartial, args.requiredSettings)
      case Failure(e) => Failure(e)
      case Success(g) => Success(GenerateResultToJson(g))
  }

  /** `migrate`: the executor's migration of the value between the two versions. */
  function Migrate(models: Registry, args: MigrateCommand): (r: Result<Json>)
    ensures r == PerformMigration(models, args.value, args.fromVersion, args.targetVersion)
    ensures args.fromVersion !in models ==> r == Failure(UnknownStart(args.fromVersion))
  {
    PerformMigration(models, args.value, args.fromVersion, args.targetVersion)
  }

  /** `validate`: the looked-up model's verdict, as a JSON boolean. */
  function Validate(models: Registry, args: ValidateCommand): (r: Result<Json>)
    ensures args.settingVersion !in models ==> r == Failure(NotFound(args.settingVersion))
    ensures args.settingVersion in models ==>
      match models[args.settingVersion].validate(args.value, args.requiredSettings)
      case Success(b) => r == Success(JBool(b))
      case Failure(e) => r == Failure(e)
  {
    match Lookup(models, args.settingVersion)
    case None => Failure(NotFound(args.settingVersion))
    case Some(m) =>
      match m.validate(args.value, args.requiredSettings)
      case Failure(e) => Failure(e)
      case Success(b) => Success(JBool(b))
  }
}
