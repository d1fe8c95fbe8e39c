/**
 * The enforcer's configuration: four environment variables, each with a
 * default when unset. The environment is passed in as a map.
 */
module Settings {
  import opened Text

  datatype Config = Config(
    snsTopicArn: string,
    exemptTablePrefixes: seq<string>,
    eventBusName: string,
    eventBridgeSource: string)

  const DefaultEventBus := "default"
  const DefaultEventSource := "sandbox.dynamodb-billing-enforcer"

  /** `os.environ.get(key, default)`. */
  function EnvGet(env: map<string, string>, key: string, default: string): (r: string)
    ensures key in env ==> r == env[key]
    ensures key !in env ==> r == default
  {
    if key in env then env[key] else default
  }

  /**
   * The configuration read from the environment. The exempt-prefix list is
   * the comma split of EXEMPT_TABLE_PREFIXES: never empty, no entry holds a
   * comma, the entries joined by commas give back the variable's value, and
   * entries are not trimmed here (trimming happens at the exemption check).
   */
  function GetConfig(env: map<string, string>): (c: Config)
    ensures |c.exemptTablePrefixes| >= 1
    ensures forall i :: 0 <= i < |c.exemptTablePrefixes| ==> ',' !in c.exemptTablePrefixes[i]
    ensures Join(c.exemptTablePrefixes, ',') == EnvGet(env, "EXEMPT_TABLE_PREFIXES", "")
    ensures c.snsTopicArn == EnvGet(env, "SNS_TOPIC_ARN", "")
    ensures c.eventBusName == EnvGet(env, "EVENT_BUS_NAME", DefaultEventBus)
    ensures c.eventBridgeSource == EnvGet(env, "EVENTBRIDGE_SOURCE", DefaultEventSource)
  {
    Config(
      snsTopicArn := EnvGet(env, "SNS_TOPIC_ARN", ""),
      exemptTablePrefixes := Split(EnvGet(env, "EXEMPT_TABLE_PREFIXES", ""), ','),
      eventBusName := EnvGet(env, "EVENT_BUS_NAME", DefaultEventBus),
      eventBridgeSource := EnvGet(env, "EVENTBRIDGE_SOURCE", DefaultEventSource))
  }

  /** With nothing set, notifications are off, the prefix list is `['']`, and the bus and source take their defaults. */
  lemma EmptyEnvironmentDefaults()
    ensures GetConfig(map[]) == Config("", [""], DefaultEventBus, DefaultEventSource)
  {
  }
}
