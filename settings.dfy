/**
 * The settings the job reads from its environment once, when it is loaded
 * (handler.py:13-37), as one immutable record.
 */
module Settings {
  import opened Wrappers
  import opened Text
  import opened Decimal

  /** The job's settings: where to run, how long to keep images, how to mark them, whether to act. */
  datatype Config = Config(regions: seq<string>, defaultRetention: int, markerKey: string, dryRun: bool)

  /** Every region scanned when no narrower list is configured. */
  const DefaultRegions: seq<string> := [
    "us-east-1", "us-east-2", "us-west-1", "us-west-2",
    "ap-northeast-1", "ap-northeast-2", "ap-northeast-3", "ap-south-1",
    "ap-southeast-1", "ap-southeast-2", "ca-central-1",
    "eu-central-1", "eu-west-1", "eu-west-2", "eu-west-3"]
  const DefaultRetentionDays := 7
  const DefaultMarkerKey := "AWSAutomatedDailySnapshots"

  const RegionsVariable := "LIMIT_TO_REGIONS"
  const RetentionVariable := "DEFAULT_RETENTION_TIME"
  const MarkerVariable := "KEY_TO_TAG_ON"
  const DryRunVariable := "DRY_RUN"

  /** The variable is set to a non-empty text (`name in os.environ and len(os.getenv(name))`). */
  predicate IsSet(env: map<string, string>, name: string)
  {
    name in env && |env[name]| > 0
  }

  /**
   * The settings the environment gives, or None when loading the job fails:
   * `int(os.getenv('DEFAULT_RETENTION_TIME'))` raises on a text that is not an integer.
   */
  function LoadConfig(env: map<string, string>): (c: Option<Config>)
    ensures c.None? <==> IsSet(env, RetentionVariable) && ParseInt(env[RetentionVariable]).None?
    ensures c.Some? ==> c.value.regions == (if IsSet(env, RegionsVariable) then Split(env[RegionsVariable], ',') else DefaultRegions)
    ensures c.Some? ==> c.value.defaultRetention == (if IsSet(env, RetentionVariable) then ParseInt(env[RetentionVariable]).value else DefaultRetentionDays)
    ensures c.Some? ==> c.value.markerKey == (if IsSet(env, MarkerVariable) then env[MarkerVariable] else DefaultMarkerKey)
    ensures c.Some? ==> (c.value.dryRun <==> DryRunVariable in env && (env[DryRunVariable] == "true" || env[DryRunVariable] == "True"))
  {
    var regions := if IsSet(env, RegionsVariable) then Split(env[RegionsVariable], ',') else DefaultRegions;
    var marker := if IsSet(env, MarkerVariable) then env[MarkerVariable] else DefaultMarkerKey;
    var dryRun := DryRunVariable in env && (env[DryRunVariable] == "true" || env[DryRunVariable] == "True");
    if IsSet(env, RetentionVariable) then
      match ParseInt(env[RetentionVariable])
      case None => None
      case Some(days) => Some(Config(regions, days, marker, dryRun))
    else Some(Config(regions, DefaultRetentionDays, marker, dryRun))
  }

  /** A region override lists its regions in order: joining them with commas gives the variable back, and no region holds a comma. */
  lemma RegionOverride(env: map<string, string>)
    requires IsSet(env, RegionsVariable) && LoadConfig(env).Some?
    ensures Join(LoadConfig(env).value.regions, ',') == env[RegionsVariable]
    ensures forall r :: r in LoadConfig(env).value.regions ==> ',' !in r
  {
    JoinSplit(env[RegionsVariable], ',');
    SplitPiecesFree(env[RegionsVariable], ',');
  }

  /** A variable set to the empty text counts as unset: with nothing set, every setting has its default and changes are made. */
  lemma EmptyEnvironmentDefaults(env: map<string, string>)
    requires forall name :: name in env ==> env[name] == ""
    ensures LoadConfig(env) == Some(Config(DefaultRegions, DefaultRetentionDays, DefaultMarkerKey, false))
  {
    assert DryRunVariable in env ==> env[DryRunVariable] == "";
  }
}
